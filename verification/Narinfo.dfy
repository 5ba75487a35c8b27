/** The narinfo text format: its lines, its fields, and the fingerprint that its
    signatures are over. */
module Narinfo {
  import opened Wrappers
  import opened Text
  import opened Base32

  datatype NarInfo = NarInfo(
    storePath: string, url: string, compression: string, fileHash: string, fileSize: nat,
    narHash: string, narSize: nat, references: seq<string>, deriver: string,
    sig: seq<string>, ca: string)

  datatype ParseError = MalformedLine(line: string) | MissingStorePath | ParseInt(field: string) | NotUtf8

  const DefaultInfo := NarInfo("", "", "", "", 0, "", 0, [], "", [], "")

  // ---- Lines

  /** One line with the line ending it had: "\n", "\r\n", or "" at the end of the text. */
  datatype Piece = Piece(content: string, ending: string)

  /** A line that a "\n" ended: a "\r" before it belongs to the ending. */
  function Cut(line: string): Piece {
    if line != [] && line[|line| - 1] == '\r' then Piece(line[..|line| - 1], "\r\n")
    else Piece(line, "\n")
  }

  function Pieces(text: string): seq<Piece>
    decreases |text|
  {
    if text == [] then []
    else match Find(text, "\n")
      case None => [Piece(text, "")]
      case Some(i) => [Cut(text[..i])] + Pieces(text[i + 1..])
  }

  // ---- Fields

  predicate IsDigit(c: char) { '0' <= c <= '9' }

  function Digits(s: string): Option<nat> {
    if s == [] then Some(0)
    else
      var high := Digits(s[..|s| - 1]);
      if high.None? || !IsDigit(s[|s| - 1]) then None
      else Some(10 * high.value + (s[|s| - 1] as int - '0' as int))
  }

  /** str::parse::<u64>: an optional "+", then digits that fit 64 bits. */
  function ParseU64(s: string): Option<nat> {
    var digits := if s != [] && s[0] == '+' then s[1..] else s;
    if digits == [] then None
    else match Digits(digits)
      case None => None
      case Some(n) => if n < 0x1_0000_0000_0000_0000 then Some(n) else None
  }

  /** char::is_whitespace: the characters with Unicode's White_Space property. */
  predicate IsWhitespace(c: char) {
    || '\t' <= c <= '\r' || c == ' ' || c == '\U{0085}' || c == '\U{00A0}' || c == '\U{1680}'
    || '\U{2000}' <= c <= '\U{200A}' || c == '\U{2028}' || c == '\U{2029}' || c == '\U{202F}'
    || c == '\U{205F}' || c == '\U{3000}'
  }

  function TakeWord(s: string): (word: string)
    ensures |word| <= |s|
  {
    if s == [] || IsWhitespace(s[0]) then [] else [s[0]] + TakeWord(s[1..])
  }

  function SplitWhitespace(s: string): seq<string>
    decreases |s|
  {
    if s == [] then []
    else if IsWhitespace(s[0]) then SplitWhitespace(s[1..])
    else [TakeWord(s)] + SplitWhitespace(s[|TakeWord(s)|..])
  }

  // ---- Parsing

  function ApplyLine(n: NarInfo, line: string): Result<NarInfo, ParseError> {
    if line == [] then Ok(n)
    else match SplitOnce(line, ": ")
      case None => Err(MalformedLine(line))
      case Some((key, value)) =>
        if key == "StorePath" then Ok(n.(storePath := value))
        else if key == "URL" then Ok(n.(url := value))
        else if key == "Compression" then Ok(n.(compression := value))
        else if key == "FileHash" then Ok(n.(fileHash := value))
        else if key == "FileSize" then
          match ParseU64(value)
          case None => Err(ParseInt("FileSize"))
          case Some(size) => Ok(n.(fileSize := size))
        else if key == "NarHash" then Ok(n.(narHash := value))
        else if key == "NarSize" then
          match ParseU64(value)
          case None => Err(ParseInt("NarSize"))
          case Some(size) => Ok(n.(narSize := size))
        else if key == "References" && value != [] then
          Ok(n.(references := SplitWhitespace(value)))
        else if key == "Deriver" then Ok(n.(deriver := value))
        else if key == "Sig" then Ok(n.(sig := n.sig + [value]))
        else if key == "CA" then Ok(n.(ca := value))
        else Ok(n)
  }

  function ApplyPieces(n: NarInfo, pieces: seq<Piece>): Result<NarInfo, ParseError>
    decreases |pieces|
  {
    if pieces == [] then Ok(n)
    else match ApplyLine(n, pieces[0].content)
      case Err(e) => Err(e)
      case Ok(n') => ApplyPieces(n', pieces[1..])
  }

  function Complete(r: Result<NarInfo, ParseError>): Result<NarInfo, ParseError> {
    if r.Ok? && r.value.storePath == [] then Err(MissingStorePath) else r
  }

  function Parse(text: string): Result<NarInfo, ParseError> {
    Complete(ApplyPieces(DefaultInfo, Pieces(text)))
  }

  /** The loop of NarInfo::parse, over text that is UTF-8. */
  method ParseNarInfo(text: string) returns (r: Result<NarInfo, ParseError>)
    ensures r == Parse(text)
  {
    var narinfo := DefaultInfo;
    var rest := text;
    while rest != []
      invariant Parse(text) == Complete(ApplyPieces(narinfo, Pieces(rest)))
      decreases |rest|
    {
      var newline := Find(rest, "\n");
      var line := if newline.None? then rest else Cut(rest[..newline.value]).content;
      var next := if newline.None? then [] else rest[newline.value + 1..];
      assert Pieces(rest)[0].content == line && Pieces(rest)[1..] == Pieces(next);
      var applied := ApplyLine(narinfo, line);
      if applied.Err? { return applied; }
      narinfo := applied.value;
      rest := next;
    }
    if narinfo.storePath == [] { return Err(MissingStorePath); }
    return Ok(narinfo);
  }

  // ---- Hashes

  function HexDigit(c: char): Option<nat> {
    if '0' <= c <= '9' then Some(c as int - '0' as int)
    else if 'a' <= c <= 'f' then Some(c as int - 'a' as int + 10)
    else if 'A' <= c <= 'F' then Some(c as int - 'A' as int + 10)
    else None
  }

  predicate IsHex(s: string) { forall c <- s :: HexDigit(c).Some? }

  function HexDecode(s: string): (bytes: seq<Byte>)
    requires IsHex(s) && |s| % 2 == 0
    ensures 2 * |bytes| == |s|
  {
    if s == [] then []
    else [16 * HexDigit(s[0]).value + HexDigit(s[1]).value] + HexDecode(s[2..])
  }

  predicate IsHexDigest(digest: string) { |digest| == 64 && IsHex(digest) }

  function NormalizeNarHash(s: string): string {
    match SplitOnce(s, ":")
    case None => s
    case Some((algo, digest)) =>
      if algo == "sha256" && IsHexDigest(digest)
      then algo + ":" + Encoded(HexDecode(digest))
      else s
  }

  predicate IsStoreHash(hash: string) {
    |hash| == 32 && forall c <- hash :: c in ALPHABET
  }

  // ---- Fingerprint

  function Decimal(n: nat): string {
    if n < 10 then ["0123456789"[n]] else Decimal(n / 10) + ["0123456789"[n % 10]]
  }

  const STORE_DIR := "/nix/store/"

  function Prefixed(reference: string): string {
    if STORE_DIR <= reference then reference else STORE_DIR + reference
  }

  function PrefixedAll(references: seq<string>): seq<string> {
    seq(|references|, i requires 0 <= i < |references| => Prefixed(references[i]))
  }

  function Join(parts: seq<string>): string {
    if parts == [] then []
    else if |parts| == 1 then parts[0]
    else parts[0] + "," + Join(parts[1..])
  }

  function Fingerprint(n: NarInfo): string {
    "1;" + (n.storePath + ";" + (NormalizeNarHash(n.narHash) + ";"
      + (Decimal(n.narSize) + ";" + Join(PrefixedAll(n.references)))))
  }

  /** Whether one of the signatures is `key`'s over the fingerprint: a `name:sig`
      line is tried if its name is the key's. `ed25519` decides the signature. */
  predicate Verifies(n: NarInfo, keyName: string, ed25519: (string, string) -> bool) {
    exists line <- n.sig :: SplitOnce(line, ":").Some?
      && SplitOnce(line, ":").value.0 == keyName
      && ed25519(Fingerprint(n), SplitOnce(line, ":").value.1)
  }

  /** The loop of verify_fingerprint: it stops at the first signature that holds, yet
      neither the order of the signatures nor any other of them matters. */
  method VerifyFingerprint(n: NarInfo, keyName: string, ed25519: (string, string) -> bool) returns (verified: bool)
    ensures verified == Verifies(n, keyName, ed25519)
  {
    var fingerprint := Fingerprint(n);
    for i := 0 to |n.sig|
      invariant forall line <- n.sig[..i] ::
                  !(&& SplitOnce(line, ":").Some? && SplitOnce(line, ":").value.0 == keyName
                    && ed25519(fingerprint, SplitOnce(line, ":").value.1))
    {
      var line := n.sig[i];
      assert n.sig[..i + 1] == n.sig[..i] + [line];
      var split := SplitOnce(line, ":");
      if split.None? {
        continue;
      }
      var (name, signature) := split.value;
      if name != keyName {
        continue;
      }
      if ed25519(fingerprint, signature) {
        return true;
      }
    }
    assert n.sig[..|n.sig|] == n.sig;
    verified := false;
  }

  // ---- One digest, one fingerprint

  /** The three ways upstreams write a sha256 digest: hex in either case, or base32. */
  ghost predicate Spells(s: string, digest: seq<Byte>) {
    || s == "sha256:" + Encoded(digest)
    || exists hex | IsHexDigest(hex) && HexDecode(hex) == digest :: s == "sha256:" + hex
  }

  lemma FindChar(s: string, c: char, i: nat)
    requires i < |s| && s[i] == c && c !in s[..i]
    ensures Find(s, [c]) == Some(i)
  {
    assert OccursAt(s, [c], i);
    forall j | 0 <= j < i ensures !OccursAt(s, [c], j) {
      assert s[j] in s[..i];
    }
  }

  lemma SplitAlgo(digest: string)
    ensures SplitOnce("sha256:" + digest, ":") == Some(("sha256", digest))
  {
    var s := "sha256:" + digest;
    assert s[..6] == "sha256" && s[7..] == digest;
    FindChar(s, ':', 6);
  }

  lemma NormalizeSpelling(s: string, digest: seq<Byte>)
    requires |digest| == 32 && Spells(s, digest)
    ensures NormalizeNarHash(s) == "sha256:" + Encoded(digest)
  {
    EncodedIsPositional(digest);
    if s == "sha256:" + Encoded(digest) {
      SplitAlgo(Encoded(digest));
    } else {
      var hex :| IsHexDigest(hex) && HexDecode(hex) == digest && s == "sha256:" + hex;
      SplitAlgo(hex);
      assert "sha256" + ":" + Encoded(digest) == "sha256:" + Encoded(digest);
    }
  }

  lemma NormalizeIsIdempotent(s: string)
    ensures NormalizeNarHash(NormalizeNarHash(s)) == NormalizeNarHash(s)
  {
    var split := SplitOnce(s, ":");
    if split.Some? && split.value.0 == "sha256" && IsHexDigest(split.value.1) {
      var encoded := Encoded(HexDecode(split.value.1));
      EncodedIsPositional(HexDecode(split.value.1));
      assert "sha256" + ":" + encoded == "sha256:" + encoded;
      SplitAlgo(encoded);
    }
  }

  /** Narinfos that differ only in how they spell their digests have the same
      fingerprint exactly when the digests are the same. */
  lemma FingerprintIsCanonical(n: NarInfo, hash: string, a: seq<Byte>, b: seq<Byte>)
    requires |a| == |b| == 32 && Spells(n.narHash, a) && Spells(hash, b)
    ensures Fingerprint(n) == Fingerprint(n.(narHash := hash)) <==> a == b
  {
    NormalizeSpelling(n.narHash, a);
    NormalizeSpelling(hash, b);
    if Fingerprint(n) == Fingerprint(n.(narHash := hash)) {
      var tail := Decimal(n.narSize) + ";" + Join(PrefixedAll(n.references));
      SameDigest(n.storePath, a, b, tail);
    }
  }

  lemma SameDigest(storePath: string, a: seq<Byte>, b: seq<Byte>, tail: string)
    requires |a| == |b|
    requires "1;" + (storePath + ";" + ("sha256:" + Encoded(a) + ";" + tail))
             == "1;" + (storePath + ";" + ("sha256:" + Encoded(b) + ";" + tail))
    ensures a == b
  {
    var x, y := "sha256:" + Encoded(a) + ";" + tail, "sha256:" + Encoded(b) + ";" + tail;
    SamePrefix("1;", storePath + ";" + x, storePath + ";" + y);
    SamePrefix(storePath + ";", x, y);
    EncodedIsPositional(a);
    EncodedIsPositional(b);
    assert Encoded(a) == x[7..7 + |Encoded(a)|] == y[7..7 + |Encoded(a)|] == Encoded(b);
    EncodedIsInjective(a, b);
  }

  lemma SamePrefix(p: string, x: string, y: string)
    requires p + x == p + y
    ensures x == y
  {
    assert (p + x)[|p|..] == x && (p + y)[|p|..] == y;
  }

  // ---- Different contents, different fingerprints

  lemma FieldNotShorter(a: string, x: string, b: string, y: string)
    requires ';' !in b && a + ";" + x == b + ";" + y
    ensures |b| <= |a|
  {
    var s := a + ";" + x;
    assert s[|a|] == ';';
    assert forall i | 0 <= i < |b| :: s[i] == b[i];
  }

  /** A field without the separator ends at the first one. */
  lemma FieldsAgree(a: string, x: string, b: string, y: string)
    requires ';' !in a && ';' !in b && a + ";" + x == b + ";" + y
    ensures a == b && x == y
  {
    FieldNotShorter(a, x, b, y);
    FieldNotShorter(b, y, a, x);
    assert a == (a + ";" + x)[..|a|] && b == (b + ";" + y)[..|b|];
    assert x == (a + ";" + x)[|a| + 1..] && y == (b + ";" + y)[|b| + 1..];
  }

  lemma {:induction false} DecimalIsInjective(a: nat, b: nat)
    requires Decimal(a) == Decimal(b)
    ensures a == b
    decreases a
  {
    var s, t := Decimal(a), Decimal(b);
    LastDigit(a);
    LastDigit(b);
    DigitsDiffer(a % 10, b % 10);
    DecimalNotEmpty(a / 10);
    DecimalNotEmpty(b / 10);
    if a >= 10 && b >= 10 {
      assert Decimal(a / 10) == s[..|s| - 1] == t[..|t| - 1] == Decimal(b / 10);
      DecimalIsInjective(a / 10, b / 10);
    }
  }

  lemma LastDigit(n: nat)
    ensures Decimal(n) != [] && Decimal(n)[|Decimal(n)| - 1] == "0123456789"[n % 10]
  {
  }

  lemma DigitsDiffer(i: nat, j: nat)
    requires i < 10 && j < 10 && "0123456789"[i] == "0123456789"[j]
    ensures i == j
  {
    assert forall k | 0 <= k < 10 :: "0123456789"[k] as int == '0' as int + k;
  }

  lemma DecimalNotEmpty(n: nat)
    ensures Decimal(n) != []
  {
  }

  lemma {:induction false} DecimalHasNoSemicolon(n: nat)
    ensures ';' !in Decimal(n)
  {
    if n >= 10 { DecimalHasNoSemicolon(n / 10); }
  }

  /** References that the join keeps apart. */
  ghost predicate Separable(parts: seq<string>) {
    forall i | 0 <= i < |parts| :: parts[i] != [] && ',' !in parts[i]
  }

  lemma {:induction false} JoinIsInjective(a: seq<string>, b: seq<string>)
    requires Separable(a) && Separable(b) && Join(a) == Join(b)
    ensures a == b
    decreases |a|
  {
    if a != [] && b != [] {
      var s := Join(a);
      JoinHead(a);
      JoinHead(b);
      HeadNotShorter(a[0], b[0], s);
      HeadNotShorter(b[0], a[0], s);
      assert a[0] == s[..|a[0]|] == b[0];
      if |a| > 1 && |b| > 1 {
        assert Join(a[1..]) == s[|a[0]| + 1..] == Join(b[1..]);
        JoinIsInjective(a[1..], b[1..]);
      }
      assert a == [a[0]] + a[1..] && b == [b[0]] + b[1..];
    }
  }

  lemma JoinHead(a: seq<string>)
    requires a != [] && Separable(a)
    ensures a[0] <= Join(a) && Join(a) != []
    ensures |Join(a)| > |a[0]| <==> |a| > 1
    ensures |a| > 1 ==> Join(a)[|a[0]|] == ',' && Join(a)[|a[0]| + 1..] == Join(a[1..])
  {
  }

  lemma HeadNotShorter(a: string, b: string, s: string)
    requires a <= s && b <= s && ',' !in b && (|s| > |a| ==> s[|a|] == ',')
    ensures |b| <= |a|
  {
    assert forall i | 0 <= i < |b| :: s[i] == b[i];
  }

  /** The fields that the fingerprint is meant to pin down are pinned down. */
  lemma FingerprintIsInjective(a: NarInfo, b: NarInfo)
    requires ';' !in a.storePath && ';' !in b.storePath
    requires ';' !in NormalizeNarHash(a.narHash) && ';' !in NormalizeNarHash(b.narHash)
    requires forall r <- a.references :: ',' !in r
    requires forall r <- b.references :: ',' !in r
    requires Fingerprint(a) == Fingerprint(b)
    ensures a.storePath == b.storePath
    ensures NormalizeNarHash(a.narHash) == NormalizeNarHash(b.narHash)
    ensures a.narSize == b.narSize
    ensures PrefixedAll(a.references) == PrefixedAll(b.references)
  {
    var a3, b3 := Join(PrefixedAll(a.references)), Join(PrefixedAll(b.references));
    var a2, b2 := Decimal(a.narSize) + ";" + a3, Decimal(b.narSize) + ";" + b3;
    var a1, b1 := NormalizeNarHash(a.narHash) + ";" + a2, NormalizeNarHash(b.narHash) + ";" + b2;
    SamePrefix("1;", a.storePath + ";" + a1, b.storePath + ";" + b1);
    FieldsAgree(a.storePath, a1, b.storePath, b1);
    FieldsAgree(NormalizeNarHash(a.narHash), a2, NormalizeNarHash(b.narHash), b2);
    DecimalHasNoSemicolon(a.narSize);
    DecimalHasNoSemicolon(b.narSize);
    FieldsAgree(Decimal(a.narSize), a3, Decimal(b.narSize), b3);
    DecimalIsInjective(a.narSize, b.narSize);
    JoinIsInjective(PrefixedAll(a.references), PrefixedAll(b.references));
  }
}
