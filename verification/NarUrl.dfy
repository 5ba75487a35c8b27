/** The NAR paths: the one an upstream publishes, the canonical one the router
    mints for its clients, and the key the NAR handler looks up. */
module NarUrl {
  import opened Wrappers
  import opened Text
  import opened Base32
  import opened Narinfo

  datatype NarUrlMode = Keep | ToSelf | ToUpstream

  function BeforeQuery(path: string): string {
    match SplitOnce(path, "?") case None => path case Some((before, _)) => before
  }

  /** The path of a NAR URL without its host, if it has one. */
  function RelativeNarUrl(url: string): string {
    match SplitOnce(url, "://")
    case Some((_, rest)) =>
      (match SplitOnce(rest, "/")
       case Some((_, path)) => path
       case None => TrimStart(url, '/'))
    case None => TrimStart(url, '/')
  }

  /** From the last ".nar" of the file name on. */
  function NarExtension(url: string): string {
    var file := AfterLast(BeforeQuery(RelativeNarUrl(url)), '/');
    match RFind(file, ".nar") case None => "" case Some(i) => file[i..]
  }

  function CompressionForNarUrl(url: string): Option<string> {
    CompressionOf(NarExtension(url))
  }

  function CompressionOf(extension: string): Option<string> {
    if extension == ".nar" then Some("none")
    else if extension == ".nar.xz" then Some("xz")
    else if extension == ".nar.bz2" then Some("bzip2")
    else if extension == ".nar.gz" then Some("gzip")
    else if extension == ".nar.zst" then Some("zstd")
    else if extension == ".nar.br" then Some("br")
    else None
  }

  function CanonicalNarUrl(url: string, storeHash: string): string {
    "nar/" + (storeHash + NarExtension(url))
  }

  function StoreHashFromCanonicalNarUrl(path: string): Option<string> {
    var trimmed := TrimStart(path, '/');
    if !("nar/" <= trimmed) then None
    else
      var rest := trimmed[4..];
      var hash := match SplitOnce(rest, ".nar") case None => rest case Some((h, _)) => h;
      if IsStoreHash(hash) then Some(hash) else None
  }

  function RewriteNarUrlValue(url: string, upstream: string, storeHash: string, mode: NarUrlMode): string {
    match mode
    case Keep => url
    case ToSelf => CanonicalNarUrl(url, storeHash)
    case ToUpstream =>
      TrimEnd(upstream, '/') + ("/" + TrimStart(RelativeNarUrl(url), '/'))
  }

  /** The nar_url that commit_winner stores with a route. */
  function StoredNarUrl(url: string, storeHash: string, mode: NarUrlMode): string {
    if mode.ToSelf? then CanonicalNarUrl(url, storeHash) else BeforeQuery(TrimStart(url, '/'))
  }

  /** The key the NAR handler looks up for a request target: its path without the
      query and without leading slashes. */
  function HandlerKey(target: string): string { TrimStart(BeforeQuery(target), '/') }

  // ---- Lemmas on splitting

  lemma {:induction false} AfterLastOfConcat(head: string, tail: string, c: char)
    requires c !in tail
    ensures AfterLast(head + [c] + tail, c) == tail
    decreases |head|
  {
    var s := head + [c] + tail;
    if head == [] {
      assert s[1..] == tail;
      AfterLastOfClean(tail, c);
      assert AfterLast(s[1..], c) == s[1..];
    } else {
      assert s[1..] == head[1..] + [c] + tail;
      AfterLastOfConcat(head[1..], tail, c);
      assert s[|s| - |tail| - 1] == c && |tail| < |s[1..]|;
    }
  }

  lemma {:induction false} AfterLastOfClean(s: string, c: char)
    requires c !in s
    ensures AfterLast(s, c) == s
    decreases |s|
  {
    if s != [] { AfterLastOfClean(s[1..], c); }
  }

  lemma NoQuery(s: string)
    requires '?' !in s
    ensures BeforeQuery(s) == s
  {
    if Find(s, "?").Some? {
      assert s[Find(s, "?").value] in s;
    }
  }

  /** A file name's extension: it has no slash and starts at its only ".nar". */
  ghost predicate IsExtension(e: string) {
    && '/' !in e && '?' !in e
    && (e == "" || (OccursAt(e, ".nar", 0) && forall i | 0 < i :: !OccursAt(e, ".nar", i)))
  }

  lemma BeforeQueryIsClean(path: string)
    ensures '?' !in BeforeQuery(path)
  {
    var cut := Find(path, "?");
    forall i | 0 <= i < |BeforeQuery(path)|
      ensures BeforeQuery(path)[i] != '?'
    {
      assert !OccursAt(path, "?", i);
      assert path[i..i + 1] == [path[i]];
    }
  }

  lemma NarExtensionIsExtension(url: string)
    ensures IsExtension(NarExtension(url))
  {
    var path := BeforeQuery(RelativeNarUrl(url));
    BeforeQueryIsClean(RelativeNarUrl(url));
    var file := AfterLast(path, '/');
    match RFind(file, ".nar")
    case None =>
    case Some(k) =>
      OccursInSuffix(file, ".nar", k, 0);
      forall i | 0 < i ensures !OccursAt(file[k..], ".nar", i) {
        OccursInSuffix(file, ".nar", k, i);
      }
  }

  lemma RelativeIsInUrl(url: string, c: char)
    requires c !in url
    ensures c !in RelativeNarUrl(url)
  {
  }

  lemma BeforeQueryIsInPath(path: string, c: char)
    requires c !in path
    ensures c !in BeforeQuery(path)
  {
  }

  lemma NarExtensionIsInUrl(url: string, c: char)
    requires c !in url
    ensures c !in NarExtension(url)
  {
    RelativeIsInUrl(url, c);
    BeforeQueryIsInPath(RelativeNarUrl(url), c);
    assert c !in AfterLast(BeforeQuery(RelativeNarUrl(url)), '/');
  }

  lemma StoreHashChars(hash: string)
    requires IsStoreHash(hash)
    ensures '.' !in hash && '/' !in hash && '?' !in hash && '\r' !in hash && '\n' !in hash
  {
    assert forall i | 0 <= i < 32 :: '0' <= ALPHABET[i] <= '9' || 'a' <= ALPHABET[i] <= 'z';
  }

  // ---- The canonical path

  /** In hash + extension, ".nar" occurs where the extension starts and nowhere else. */
  lemma OnlyDot(hash: string, e: string, i: nat)
    requires IsStoreHash(hash) && IsExtension(e)
    ensures OccursAt(hash + e, ".nar", i) <==> (e != "" && i == |hash|)
  {
    StoreHashChars(hash);
    var s := hash + e;
    assert s[|hash|..] == e;
    if i < |hash| {
      if i + 4 <= |s| { assert s[i..i + 4][0] == hash[i]; }
    } else {
      OccursInSuffix(s, ".nar", |hash|, i - |hash|);
    }
  }

  lemma SchemeHasTwoSlashes(s: string, i: nat)
    ensures OccursAt(s, "://", i) ==> i + 3 <= |s| && s[i + 1] == '/' && s[i + 2] == '/'
  {
    if OccursAt(s, "://", i) {
      assert s[i..i + 3][1] == s[i + 1] && s[i..i + 3][2] == s[i + 2];
    }
  }

  /** One slash is not a scheme. */
  lemma NoScheme(head: string, file: string)
    requires head != [] && '/' !in head && '/' !in file
    ensures RelativeNarUrl(head + ['/'] + file) == head + ['/'] + file
  {
    var s := head + ['/'] + file;
    assert s[0] == head[0];
    assert forall i | 0 <= i < |s| :: s[i] == '/' <==> i == |head|;
    forall i: nat ensures !OccursAt(s, "://", i) {
      SchemeHasTwoSlashes(s, i);
    }
  }

  lemma CanonicalFile(hash: string, e: string)
    requires IsStoreHash(hash) && IsExtension(e)
    ensures AfterLast(BeforeQuery(RelativeNarUrl("nar/" + (hash + e))), '/') == hash + e
  {
    StoreHashChars(hash);
    var s := "nar/" + (hash + e);
    assert s == "nar" + ['/'] + (hash + e);
    NoScheme("nar", hash + e);
    NoQuery(s);
    AfterLastOfConcat("nar", hash + e, '/');
  }

  lemma ExtensionOfFile(hash: string, e: string)
    requires IsStoreHash(hash) && IsExtension(e)
    ensures RFind(hash + e, ".nar") == (if e == "" then None else Some(|hash|))
    ensures (hash + e)[|hash|..] == e
  {
    forall i: nat ensures OccursAt(hash + e, ".nar", i) <==> (e != "" && i == |hash|) {
      OnlyDot(hash, e, i);
    }
    if e != "" { assert OccursAt(hash + e, ".nar", |hash|); }
  }

  lemma CanonicalExtension(url: string, hash: string)
    requires IsStoreHash(hash)
    ensures NarExtension(CanonicalNarUrl(url, hash)) == NarExtension(url)
  {
    var e := NarExtension(url);
    NarExtensionIsExtension(url);
    CanonicalFile(hash, e);
    ExtensionOfFile(hash, e);
  }

  /** Minting a path from a minted path changes nothing: the extension, and so
      the promised compression, survive, and canonicalising twice is once. */
  lemma CanonicalKeepsExtension(url: string, hash: string)
    requires IsStoreHash(hash)
    ensures CompressionForNarUrl(CanonicalNarUrl(url, hash)) == CompressionForNarUrl(url)
    ensures CanonicalNarUrl(CanonicalNarUrl(url, hash), hash) == CanonicalNarUrl(url, hash)
  {
    CanonicalExtension(url, hash);
  }

  lemma HashOfFile(hash: string, e: string)
    requires IsStoreHash(hash) && IsExtension(e)
    ensures (match SplitOnce(hash + e, ".nar") case None => hash + e case Some((h, _)) => h) == hash
  {
    var file := hash + e;
    if e == "" {
      if Find(file, ".nar").Some? { OnlyDot(hash, e, Find(file, ".nar").value); }
      assert file == hash;
    } else {
      OnlyDot(hash, e, |hash|);
      if Find(file, ".nar").Some? { OnlyDot(hash, e, Find(file, ".nar").value); }
      assert Find(file, ".nar") == Some(|hash|);
      assert file[..|hash|] == hash;
    }
  }

  lemma TrimmedPath(path: string)
    requires path != [] && path[0] != '/'
    ensures TrimStart(path, '/') == path && TrimStart("/" + path, '/') == path
  {
    assert ("/" + path)[1..] == path;
  }

  /** The store hash can be read back from every path that was minted for it. */
  lemma CanonicalRoundTrip(url: string, hash: string)
    requires IsStoreHash(hash)
    ensures StoreHashFromCanonicalNarUrl(CanonicalNarUrl(url, hash)) == Some(hash)
    ensures StoreHashFromCanonicalNarUrl("/" + CanonicalNarUrl(url, hash)) == Some(hash)
  {
    var e, path := NarExtension(url), CanonicalNarUrl(url, hash);
    NarExtensionIsExtension(url);
    HashOfFile(hash, e);
    assert path[0] == 'n' && path[4..] == hash + e;
    TrimmedPath(path);
  }

  // ---- The key

  lemma {:induction false} TrimCommutes(s: string)
    ensures TrimStart(BeforeQuery(s), '/') == BeforeQuery(TrimStart(s, '/'))
    decreases |s|
  {
    if s != [] && s[0] == '/' {
      TrimCommutes(s[1..]);
      QueryOfTail(s);
    }
  }

  lemma QueryOfTail(s: string)
    requires s != [] && s[0] == '/'
    ensures BeforeQuery(s) == ['/'] + BeforeQuery(s[1..])
  {
    assert s[0..1] == "/";
    forall i: nat ensures OccursAt(s[1..], "?", i) <==> OccursAt(s, "?", i + 1) {
      OccursInSuffix(s, "?", 1, i);
    }
    assert !OccursAt(s, "?", 0);
    match Find(s[1..], "?")
    case None =>
      forall i: nat ensures !OccursAt(s, "?", i) {
        if i > 0 { assert OccursAt(s[1..], "?", i - 1) <==> OccursAt(s, "?", i - 1 + 1); }
      }
      assert Find(s, "?") == None && s == ['/'] + s[1..];
    case Some(k) =>
      assert OccursAt(s, "?", k + 1);
      forall i | 0 <= i < k + 1 ensures !OccursAt(s, "?", i) {
        if i > 0 { assert OccursAt(s[1..], "?", i - 1) <==> OccursAt(s, "?", i - 1 + 1); }
      }
      assert Find(s, "?") == Some(k + 1);
      assert s[..k + 1] == ['/'] + s[1..][..k];
  }

  lemma CanonicalHasNoQuery(url: string, hash: string)
    requires IsStoreHash(hash)
    ensures var path := CanonicalNarUrl(url, hash); BeforeQuery(path) == path && TrimStart(path, '/') == path
  {
    var path := CanonicalNarUrl(url, hash);
    NarExtensionIsExtension(url);
    StoreHashChars(hash);
    NoQuery(path);
    assert path[0] == 'n';
    TrimmedPath(path);
  }

  /** The NAR handler finds what commit_winner stored: a client that asks the
      router for the URL it was given is looked up under the stored key. In
      ToSelf mode that URL is the stored key itself, whatever the upstream's was. */
  lemma HandlerFindsStoredKey(url: string, hash: string, mode: NarUrlMode)
    requires IsStoreHash(hash) && !mode.ToUpstream?
    ensures HandlerKey("/" + RewriteNarUrlValue(url, "", hash, mode)) == StoredNarUrl(url, hash, mode)
    ensures mode.ToSelf? ==> RewriteNarUrlValue(url, "", hash, mode) == StoredNarUrl(url, hash, mode)
  {
    var sent := RewriteNarUrlValue(url, "", hash, mode);
    TrimCommutes("/" + sent);
    assert ("/" + sent)[1..] == sent;
    if mode.ToSelf? { CanonicalHasNoQuery(url, hash); }
  }
}
