/** Rewriting the URL lines of a narinfo that the router passes on. */
module Rewrite {
  import opened Wrappers
  import opened Text
  import opened Base32
  import opened Narinfo
  import opened NarUrl
  import Filter

  /** A response body: text, or bytes that are not UTF-8. */
  datatype Body = Utf8(text: string) | Binary(bytes: seq<Byte>)

  function ParseBody(body: Body): Result<NarInfo, ParseError> {
    match body case Utf8(text) => Parse(text) case Binary(_) => Err(NotUtf8)
  }

  datatype Target = Target(upstream: string, storeHash: string, mode: NarUrlMode)

  function Rewritten(url: string, t: Target): string {
    RewriteNarUrlValue(url, t.upstream, t.storeHash, t.mode)
  }

  predicate IsUrlLine(p: Piece) { "URL: " <= p.content }

  function UrlOf(p: Piece): string
    requires IsUrlLine(p)
  {
    p.content[5..]
  }

  function RewritePiece(p: Piece, t: Target): Piece {
    if IsUrlLine(p) then Piece("URL: " + Rewritten(UrlOf(p), t), p.ending) else p
  }

  function RewritePieces(ps: seq<Piece>, t: Target): seq<Piece> {
    seq(|ps|, i requires 0 <= i < |ps| => RewritePiece(ps[i], t))
  }

  function Glue(ps: seq<Piece>): string {
    if ps == [] then [] else ps[0].content + ps[0].ending + Glue(ps[1..])
  }

  function RewriteBody(body: Body, t: Target): Body {
    if t.mode.Keep? || body.Binary? then body
    else Utf8(Glue(RewritePieces(Pieces(body.text), t)))
  }

  /** The first line of a text, and what follows it. */
  function FirstOf(text: string): (Piece, string)
    requires text != []
  {
    match Find(text, "\n")
    case None => (Piece(text, ""), [])
    case Some(i) => (Cut(text[..i]), text[i + 1..])
  }

  lemma GlueFirst(text: string, t: Target)
    requires text != []
    ensures var (p, next) := FirstOf(text);
            Glue(RewritePieces(Pieces(text), t))
            == RewritePiece(p, t).content + RewritePiece(p, t).ending + Glue(RewritePieces(Pieces(next), t))
  {
    var (p, next) := FirstOf(text);
    assert Pieces(text) == [p] + Pieces(next);
    assert RewritePieces(Pieces(text), t)[1..] == RewritePieces(Pieces(next), t);
  }

  lemma Associate(a: string, b: string, c: string)
    ensures a + (b + c) == a + b + c
  {
  }

  /** The loop of rewrite_narinfo_url. */
  method RewriteNarinfoUrl(body: Body, t: Target) returns (r: Body)
    ensures r == RewriteBody(body, t)
  {
    if t.mode.Keep? || body.Binary? { return body; }
    var out := "";
    var rest := body.text;
    while rest != []
      invariant out + Glue(RewritePieces(Pieces(rest), t)) == Glue(RewritePieces(Pieces(body.text), t))
      decreases |rest|
    {
      GlueFirst(rest, t);
      var (p, next) := FirstOf(rest);
      var rewritten := RewritePiece(p, t);
      Associate(out, rewritten.content + rewritten.ending, Glue(RewritePieces(Pieces(next), t)));
      out := out + (rewritten.content + rewritten.ending);
      rest := next;
    }
    r := Utf8(out);
  }

  // ---- Reading pieces back

  ghost predicate Clean(s: string) { '\n' !in s }

  ghost predicate PieceOk(p: Piece, last: bool) {
    && Clean(p.content)
    && (p.ending == "\n" || p.ending == "\r\n" || (p.ending == "" && last && p.content != ""))
  }

  ghost predicate PiecesOk(ps: seq<Piece>) {
    forall i | 0 <= i < |ps| :: PieceOk(ps[i], i == |ps| - 1)
  }

  /** What the parser makes of a piece's text: under a bare "\n" it takes a final
      "\r" for a part of the line ending. */
  function Reread(p: Piece): Piece {
    if p.ending == "\n" then Cut(p.content) else p
  }

  function RereadAll(ps: seq<Piece>): seq<Piece> {
    seq(|ps|, i requires 0 <= i < |ps| => Reread(ps[i]))
  }

  lemma FindNewline(line: string, rest: string)
    requires Clean(line)
    ensures Find(line + "\n" + rest, "\n") == Some(|line|)
  {
    assert (line + "\n" + rest)[..|line|] == line;
    FindChar(line + "\n" + rest, '\n', |line|);
  }

  lemma OccurrenceIsMember(s: string, c: char, i: nat)
    ensures OccursAt(s, [c], i) ==> c in s
  {
    if OccursAt(s, [c], i) { assert s[i..i + 1][0] == s[i]; }
  }

  lemma NoNewline(line: string)
    requires Clean(line)
    ensures Find(line, "\n") == None
  {
    forall i: nat ensures !OccursAt(line, "\n", i) { OccurrenceIsMember(line, '\n', i); }
  }

  lemma {:induction false} PiecesOfGlue(ps: seq<Piece>)
    requires PiecesOk(ps)
    ensures Pieces(Glue(ps)) == RereadAll(ps)
    decreases |ps|
  {
    if ps != [] {
      var p := ps[0];
      var rest := Glue(ps[1..]);
      assert PieceOk(p, |ps| == 1);
      forall i | 0 <= i < |ps| - 1 ensures PieceOk(ps[1..][i], i == |ps| - 2) {
        assert PieceOk(ps[i + 1], i + 1 == |ps| - 1);
      }
      PiecesOfGlue(ps[1..]);
      assert RereadAll(ps) == [Reread(p)] + RereadAll(ps[1..]);
      FirstPiece(p, rest, |ps| == 1);
    }
  }

  lemma FirstLine(line: string, rest: string)
    requires Clean(line)
    ensures Pieces(line + "\n" + rest) == [Cut(line)] + Pieces(rest)
  {
    var text := line + "\n" + rest;
    FindNewline(line, rest);
    assert text[..|line|] == line && text[|line| + 1..] == rest;
  }

  lemma FirstPiece(p: Piece, rest: string, last: bool)
    requires PieceOk(p, last) && (last ==> rest == "")
    ensures Pieces(p.content + p.ending + rest) == [Reread(p)] + Pieces(rest)
  {
    if p.ending == "" {
      assert p.content + p.ending + rest == p.content;
      NoNewline(p.content);
    } else if p.ending == "\n" {
      FirstLine(p.content, rest);
    } else {
      var line := p.content + "\r";
      FirstLine(line, rest);
      assert line[..|line| - 1] == p.content;
      assert p.content + p.ending + rest == line + "\n" + rest;
    }
  }

  lemma {:induction false} PiecesAreOk(text: string)
    ensures PiecesOk(Pieces(text))
    ensures forall p <- Pieces(text) :: Reread(p) == p
    decreases |text|
  {
    if text != [] && Find(text, "\n").Some? {
      var i := Find(text, "\n").value;
      var rest := text[i + 1..];
      PiecesAreOk(rest);
      CutIsOk(text, i);
      forall k | 0 <= k < |Pieces(text)| ensures PieceOk(Pieces(text)[k], k == |Pieces(text)| - 1) {
        if k > 0 { assert PieceOk(Pieces(rest)[k - 1], k - 1 == |Pieces(rest)| - 1); }
      }
    } else if text != [] {
      forall k | 0 <= k < |text| ensures text[k] != '\n' {
        assert !OccursAt(text, "\n", k);
        assert text[k..k + 1] == [text[k]];
      }
    }
  }

  lemma CutIsOk(text: string, i: nat)
    requires Find(text, "\n") == Some(i)
    ensures PieceOk(Cut(text[..i]), false) && Reread(Cut(text[..i])) == Cut(text[..i])
  {
    forall k | 0 <= k < i ensures text[k] != '\n' {
      assert !OccursAt(text, "\n", k);
      assert text[k..k + 1] == [text[k]];
    }
  }

  // ---- What the parser reads from a rewritten body

  /** The last URL line, which is the one that counts. */
  function LastUrl(ps: seq<Piece>): (r: Option<Piece>)
    ensures r.Some? ==> IsUrlLine(r.value) && r.value in ps
  {
    if ps == [] then None
    else if LastUrl(ps[1..]).Some? then LastUrl(ps[1..])
    else if IsUrlLine(ps[0]) then Some(ps[0])
    else None
  }

  /** The URL that the rewritten piece is read as. */
  function ReadBack(p: Piece, t: Target): string
    requires IsUrlLine(p)
  {
    var url := Rewritten(UrlOf(p), t);
    if p.ending == "\n" && url != [] && url[|url| - 1] == '\r' then url[..|url| - 1] else url
  }

  ghost predicate CleanTarget(t: Target) {
    Clean(t.upstream) && Clean(t.storeHash)
  }

  lemma {:induction false} TrimIsClean(s: string, c: char)
    requires Clean(s)
    ensures Clean(TrimEnd(s, c)) && Clean(TrimStart(s, c))
  {
    if s != [] {
      TrimIsClean(s[..|s| - 1], c);
    }
  }

  lemma RelativeIsClean(url: string)
    requires Clean(url)
    ensures Clean(RelativeNarUrl(url)) && Clean(NarExtension(url))
  {
    TrimIsClean(url, '/');
    assert Clean(RelativeNarUrl(url));
    NarExtensionIsInUrl(url, '\n');
  }

  lemma ConcatIsClean(a: string, b: string)
    requires Clean(a) && Clean(b)
    ensures Clean(a + b)
  {
  }

  lemma RewrittenIsClean(url: string, t: Target)
    requires Clean(url) && CleanTarget(t)
    ensures Clean(Rewritten(url, t))
  {
    RelativeIsClean(url);
    match t.mode {
      case Keep =>
      case ToSelf =>
        ConcatIsClean(t.storeHash, NarExtension(url));
        ConcatIsClean("nar/", t.storeHash + NarExtension(url));
      case ToUpstream =>
        var path := TrimStart(RelativeNarUrl(url), '/');
        TrimIsClean(t.upstream, '/');
        TrimIsClean(RelativeNarUrl(url), '/');
        ConcatIsClean("/", path);
        ConcatIsClean(TrimEnd(t.upstream, '/'), "/" + path);
    }
  }

  lemma RewrittenPiecesAreOk(ps: seq<Piece>, t: Target)
    requires PiecesOk(ps) && CleanTarget(t)
    ensures PiecesOk(RewritePieces(ps, t))
  {
    forall i | 0 <= i < |ps| ensures PieceOk(RewritePiece(ps[i], t), i == |ps| - 1) {
      assert PieceOk(ps[i], i == |ps| - 1);
      if IsUrlLine(ps[i]) { RewrittenIsClean(UrlOf(ps[i]), t); }
    }
  }

  lemma UrlLineSplits(url: string)
    ensures SplitOnce("URL: " + url, ": ") == Some(("URL", url))
  {
    var line := "URL: " + url;
    assert line[3..5] == ": " && line[0..2] == "UR" && line[1..3] == "RL" && line[2..4] == "L:";
    assert OccursAt(line, ": ", 3);
    assert !OccursAt(line, ": ", 0) && !OccursAt(line, ": ", 1) && !OccursAt(line, ": ", 2);
    assert line[..3] == "URL" && line[5..] == url;
  }

  /** A URL line sets the URL and does nothing else. */
  lemma UrlLineApplies(n: NarInfo, line: string)
    requires "URL: " <= line
    ensures ApplyLine(n, line) == Ok(n.(url := line[5..]))
  {
    assert line == "URL: " + line[5..];
    UrlLineSplits(line[5..]);
  }

  lemma UrlKeyMeansUrlLine(line: string)
    ensures SplitOnce(line, ": ").Some? && SplitOnce(line, ": ").value.0 == "URL"
            ==> "URL: " <= line
  {
    if SplitOnce(line, ": ").Some? && SplitOnce(line, ": ").value.0 == "URL" {
      var i := Find(line, ": ").value;
      assert line == line[..i] + line[i..i + 2] + line[i + 2..];
    }
  }

  /** No other line looks at the URL or changes it. */
  lemma OtherLineApplies(n: NarInfo, line: string, url: string)
    requires !("URL: " <= line)
    ensures ApplyLine(n.(url := url), line)
            == match ApplyLine(n, line) case Err(e) => Err(e) case Ok(m) => Ok(m.(url := url))
    ensures ApplyLine(n, line).Ok? ==> ApplyLine(n, line).value.url == n.url
  {
    UrlKeyMeansUrlLine(line);
  }

  /** The piece of a line as the parser sees it after the rewrite. */
  function ReadPiece(p: Piece, t: Target): Piece { Reread(RewritePiece(p, t)) }

  lemma ReadPieceApplies(n: NarInfo, p: Piece, t: Target)
    ensures IsUrlLine(p) ==> ApplyLine(n, ReadPiece(p, t).content) == Ok(n.(url := ReadBack(p, t)))
    ensures !IsUrlLine(p) ==> ReadPiece(p, t) == Reread(p)
  {
    if IsUrlLine(p) {
      var url := Rewritten(UrlOf(p), t);
      var line := ReadPiece(p, t).content;
      assert ("URL: " + url)[5..] == url;
      if p.ending == "\n" && url != [] && url[|url| - 1] == '\r' {
        assert line == "URL: " + url[..|url| - 1];
      } else {
        assert line == "URL: " + url;
      }
      assert line[5..] == ReadBack(p, t);
      UrlLineApplies(n, line);
    }
  }

  // ---- The parse of a rewritten body

  function WithUrl(r: Result<NarInfo, ParseError>, url: string): Result<NarInfo, ParseError> {
    match r case Err(e) => Err(e) case Ok(n) => Ok(n.(url := url))
  }

  /** The URL that the parser ends with, over one that stands before the lines. */
  function UrlAfter(ps: seq<Piece>, t: Target, before: string): string {
    match LastUrl(ps) case None => before case Some(p) => ReadBack(p, t)
  }

  lemma {:induction false} RewrittenPiecesApply(n: NarInfo, ps: seq<Piece>, t: Target, before: string)
    requires forall p <- ps :: Reread(p) == p
    ensures ApplyPieces(n.(url := before), RereadAll(RewritePieces(ps, t)))
            == WithUrl(ApplyPieces(n, ps), UrlAfter(ps, t, before))
    decreases |ps|
  {
    var read := RereadAll(RewritePieces(ps, t));
    if ps != [] {
      var p := ps[0];
      assert read[0] == ReadPiece(p, t);
      assert read[1..] == RereadAll(RewritePieces(ps[1..], t));
      ReadPieceApplies(n.(url := before), p, t);
      if IsUrlLine(p) {
        UrlLineApplies(n, p.content);
        RewrittenPiecesApply(n.(url := UrlOf(p)), ps[1..], t, ReadBack(p, t));
      } else {
        assert p in ps;
        OtherLineApplies(n, p.content, before);
        if ApplyLine(n, p.content).Ok? {
          RewrittenPiecesApply(ApplyLine(n, p.content).value, ps[1..], t, before);
        }
      }
    }
  }

  lemma {:induction false} ParsedUrl(n: NarInfo, ps: seq<Piece>)
    requires ApplyPieces(n, ps).Ok?
    ensures ApplyPieces(n, ps).value.url
            == match LastUrl(ps) case None => n.url case Some(p) => UrlOf(p)
    decreases |ps|
  {
    if ps != [] {
      ParsedUrl(ApplyLine(n, ps[0].content).value, ps[1..]);
      if IsUrlLine(ps[0]) {
        UrlLineApplies(n, ps[0].content);
      } else {
        OtherLineApplies(n, ps[0].content, "");
      }
    }
  }

  /** What the rewritten body parses as, for every body: the same errors, and the
      same fields but for the URL, which is read back from the last URL line. */
  lemma RewriteParses(text: string, t: Target)
    requires !t.mode.Keep? && CleanTarget(t)
    ensures ParseBody(RewriteBody(Utf8(text), t)) == WithUrl(Parse(text), UrlAfter(Pieces(text), t, ""))
  {
    var ps := Pieces(text);
    PiecesAreOk(text);
    RewrittenPiecesAreOk(ps, t);
    PiecesOfGlue(RewritePieces(ps, t));
    RewrittenPiecesApply(DefaultInfo, ps, t, "");
  }

  /** The one way to lose a character: the last URL line ends in a bare "\n" and
      its rewritten value in "\r", which the parser then takes for the ending. */
  predicate LosesCr(text: string, t: Target) {
    match LastUrl(Pieces(text))
    case None => false
    case Some(p) =>
      var url := Rewritten(UrlOf(p), t);
      p.ending == "\n" && url != [] && url[|url| - 1] == '\r'
  }

  /** The URL that the rewrite means to put there: a body without one stays without. */
  function MeantUrl(text: string, n: NarInfo, t: Target): string {
    if LastUrl(Pieces(text)).None? then "" else Rewritten(n.url, t)
  }

  /** Rewriting a body keeps its meaning: it fails to parse exactly when the body
      does, with the same error; and what it parses as is what the body does with
      only the URL rewritten, exactly when that URL loses no "\r". */
  lemma RewriteKeepsMeaning(body: Body, t: Target)
    requires !t.mode.Keep? && CleanTarget(t)
    ensures ParseBody(body).Err? ==> ParseBody(RewriteBody(body, t)) == ParseBody(body)
    ensures ParseBody(body).Ok? ==>
              && ParseBody(RewriteBody(body, t)).Ok?
              && (ParseBody(RewriteBody(body, t))
                  == WithUrl(ParseBody(body), MeantUrl(body.text, ParseBody(body).value, t))
                  <==> !LosesCr(body.text, t))
  {
    if body.Utf8? {
      RewriteParses(body.text, t);
      var ps := Pieces(body.text);
      if ApplyPieces(DefaultInfo, ps).Ok? { ParsedUrl(DefaultInfo, ps); }
    }
  }

  // ---- When a "\r" can be lost

  lemma {:induction false} TrimEndsSame(s: string, c: char)
    ensures TrimStart(s, c) == [] || (s != [] && TrimStart(s, c)[|TrimStart(s, c)| - 1] == s[|s| - 1])
  {
  }

  lemma RelativeEndsSame(url: string)
    ensures RelativeNarUrl(url) == []
            || (url != [] && RelativeNarUrl(url)[|RelativeNarUrl(url)| - 1] == url[|url| - 1])
  {
    TrimEndsSame(url, '/');
  }

  /** ToUpstream never loses one, and ToSelf loses one only if the extension that
      the URL's path ends with does, before a query. */
  lemma WhenCrIsLost(text: string, t: Target)
    requires t.mode.ToUpstream? || (t.mode.ToSelf? && IsStoreHash(t.storeHash))
    requires Parse(text).Ok?
    ensures LosesCr(text, t) ==> t.mode.ToSelf? && '\r' in NarExtension(Parse(text).value.url)
  {
    var ps := Pieces(text);
    if LosesCr(text, t) {
      var p := LastUrl(ps).value;
      var url := UrlOf(p);
      PiecesAreOk(text);
      ParsedUrl(DefaultInfo, ps);
      assert url == Parse(text).value.url;
      assert Reread(p) == p;
      CutKeepsNoCr(p.content);
      if t.mode.ToSelf? {
        StoreHashChars(t.storeHash);
      } else {
        RelativeEndsSame(url);
        TrimEndsSame(RelativeNarUrl(url), '/');
        UpstreamEndsSame(url, t);
      }
    }
  }

  lemma CutKeepsNoCr(line: string)
    requires Cut(line) == Piece(line, "\n")
    ensures line != [] ==> line[|line| - 1] != '\r'
  {
  }

  lemma UpstreamEndsSame(url: string, t: Target)
    requires t.mode.ToUpstream?
    ensures var r := Rewritten(url, t);
            r != [] && (r[|r| - 1] == '/' || (url != [] && r[|r| - 1] == url[|url| - 1]))
  {
    RelativeEndsSame(url);
    TrimEndsSame(RelativeNarUrl(url), '/');
  }

  /** For URL values without a carriage return nothing is lost. */
  lemma CleanUrlsKeepTheirMeaning(text: string, t: Target)
    requires CleanTarget(t)
    requires t.mode.ToUpstream? || (t.mode.ToSelf? && IsStoreHash(t.storeHash))
    requires Parse(text).Ok? && '\r' !in Parse(text).value.url
    ensures ParseBody(RewriteBody(Utf8(text), t)) == WithUrl(Parse(text), MeantUrl(text, Parse(text).value, t))
  {
    RewriteKeepsMeaning(Utf8(text), t);
    WhenCrIsLost(text, t);
    NarExtensionIsInUrl(Parse(text).value.url, '\r');
  }

  lemma TwoPieces(first: Piece, second: Piece) returns (text: string)
    requires PieceOk(first, false) && PieceOk(second, true) && Reread(first) == first && Reread(second) == second
    ensures Pieces(text) == [first, second]
  {
    var ps := [first, second];
    text := Glue(ps);
    PiecesOfGlue(ps);
    assert RereadAll(ps) == ps;
  }

  lemma TwoLinesApply(n: NarInfo, first: Piece, second: Piece)
    requires ApplyLine(n, first.content).Ok?
    ensures ApplyPieces(n, [first, second]) == ApplyLine(ApplyLine(n, first.content).value, second.content)
  {
    var n' := ApplyLine(n, first.content).value;
    assert [first, second][1..] == [second] && [second][1..] == [];
    assert ApplyPieces(n', [second]) == match ApplyLine(n', second.content)
      case Err(e) => Err(e) case Ok(n'') => ApplyPieces(n'', []);
  }

  /** A small body with a URL line that a bare "\n" ends. */
  lemma SmallBody(url: string) returns (text: string)
    requires Clean(url) && Reread(Piece("URL: " + url, "\n")) == Piece("URL: " + url, "\n")
    ensures Parse(text).Ok? && LastUrl(Pieces(text)) == Some(Piece("URL: " + url, "\n"))
  {
    var first, second := Piece("StorePath: /x", "\n"), Piece("URL: " + url, "\n");
    text := TwoPieces(first, second);
    StorePathLine(DefaultInfo);
    UrlLineApplies(DefaultInfo.(storePath := "/x"), second.content);
    TwoLinesApply(DefaultInfo, first, second);
    LastOfTwo(first, second);
  }

  lemma LastOfTwo(first: Piece, second: Piece)
    requires IsUrlLine(second)
    ensures LastUrl([first, second]) == Some(second)
  {
    assert [first, second][1..] == [second] && [second][1..] == [];
  }

  /** One body that loses a "\r": the URL's path ends in one, before a query. */
  lemma CrCanBeLost(storeHash: string) returns (text: string)
    requires IsStoreHash(storeHash)
    ensures Parse(text).Ok? && LosesCr(text, Target("", storeHash, ToSelf))
  {
    var url := ".nar\r?";
    text := SmallBody(url);
    assert ("URL: " + url)[5..] == url;
    ExtensionBeforeQuery(url);
  }

  lemma ExtensionBeforeQuery(url: string)
    requires url == ".nar\r?"
    ensures NarExtension(url) == ".nar\r"
  {
    forall i: nat ensures !OccursAt(url, "://", i) { SchemeHasTwoSlashes(url, i); }
    assert RelativeNarUrl(url) == url;
    FindChar(url, '?', 5);
    var file := url[..5];
    AfterLastOfClean(file, '/');
    assert OccursAt(file, ".nar", 0) && !OccursAt(file, ".nar", 1);
    assert RFind(file, ".nar") == Some(0);
    assert file[0..] == ".nar\r";
  }

  lemma StorePathLine(n: NarInfo)
    ensures ApplyLine(n, "StorePath: /x") == Ok(n.(storePath := "/x"))
  {
    var line := "StorePath: /x";
    assert OccursAt(line, ": ", 9);
    forall i | 0 <= i < 9 ensures !OccursAt(line, ": ", i) {
      assert line[i] != ':';
      assert i + 2 <= 13 ==> line[i..i + 2][0] == line[i];
    }
    assert Find(line, ": ") == Some(9);
    assert line[..9] == "StorePath" && line[11..] == "/x";
  }

  // ---- What the client and the router do with it

  /** Signatures and filters do not see the rewrite. */
  lemma RewriteKeepsTrust(body: Body, t: Target, keyName: string, ed25519: (string, string) -> bool,
                          rules: seq<Filter.FilterRule>)
    requires CleanTarget(t) && ParseBody(body).Ok?
    ensures ParseBody(RewriteBody(body, t)).Ok?
    ensures var before, after := ParseBody(body).value, ParseBody(RewriteBody(body, t)).value;
            && Fingerprint(after) == Fingerprint(before)
            && Verifies(after, keyName, ed25519) == Verifies(before, keyName, ed25519)
            && Filter.Allows(rules, after) == Filter.Allows(rules, before)
  {
    if !t.mode.Keep? { RewriteParses(body.text, t); }
    var before, after := ParseBody(body).value, ParseBody(RewriteBody(body, t)).value;
    assert after == before.(url := after.url);
    assert Fingerprint(after) == Fingerprint(before);
    forall rule: Filter.FilterRule
      ensures Filter.RuleMatches(rule, after) == Filter.RuleMatches(rule, before)
    {
    }
  }

  /** In ToSelf mode, a client that reads the narinfo it was sent and asks for
      its URL is looked up under the very nar_url stored with the route. */
  lemma ClientUrlIsStoredKey(text: string, storeHash: string)
    requires IsStoreHash(storeHash) && Parse(text).Ok? && LastUrl(Pieces(text)).Some?
    requires '\r' !in Parse(text).value.url
    ensures var sent := ParseBody(RewriteBody(Utf8(text), Target("", storeHash, ToSelf)));
            && sent.Ok?
            && HandlerKey("/" + sent.value.url) == StoredNarUrl(Parse(text).value.url, storeHash, ToSelf)
            && StoreHashFromCanonicalNarUrl(HandlerKey("/" + sent.value.url)) == Some(storeHash)
  {
    StoreHashChars(storeHash);
    CleanUrlsKeepTheirMeaning(text, Target("", storeHash, ToSelf));
    HandlerFindsStoredKey(Parse(text).value.url, storeHash, ToSelf);
    CanonicalRoundTrip(Parse(text).value.url, storeHash);
  }
}
