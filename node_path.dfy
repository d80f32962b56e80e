/**
 * `path.extname` of Node's POSIX path module. Node scans the path from its
 * end: trailing `/` characters are skipped (`end`), the last component starts
 * after the previous `/` (`startPart`), and the extension runs from that
 * component's last dot (`startDot`) to `end`. It is empty when the component
 * has no dot, when that dot opens the component (`.ogg`), and for `..`.
 * Here each of those three scans is a function on indices of the path.
 */
module NodePath {
  import opened JsValues
  import opened JsStrings

  /** No character of `s` from index `k` on is a dot. */
  predicate NoDotFrom(s: string, k: nat) {
    forall j :: k <= j < |s| ==> s[j] != '.'
  }

  /** `s` holds no `/`. */
  predicate NoSlash(s: string) {
    forall j :: 0 <= j < |s| ==> s[j] != '/'
  }

  /** `e` is a dot followed by dot-free text: the shape of every non-empty extension. */
  predicate IsExtension(e: string) {
    e != [] && e[0] == '.' && NoDotFrom(e, 1)
  }

  /** Node's `end`: the length of `p[..n]` once its trailing `/` characters are dropped. */
  function TrimmedEnd(p: string, n: nat): (e: nat)
    requires n <= |p|
    ensures e <= n
    ensures e == 0 || p[e - 1] != '/'
    ensures forall i :: e <= i < n ==> p[i] == '/'
  {
    if n == 0 || p[n - 1] != '/' then n else TrimmedEnd(p, n - 1)
  }

  /** Node's `startPart`: where the component ending at `e` starts, just after the `/` before it. */
  function SegmentStart(p: string, e: nat): (k: nat)
    requires e <= |p|
    ensures k <= e
    ensures k == 0 || p[k - 1] == '/'
    ensures forall i :: k <= i < e ==> p[i] != '/'
  {
    if e == 0 || p[e - 1] == '/' then e else SegmentStart(p, e - 1)
  }

  /** Node's `startDot`: the index of the last `.` in `p[k..e]`, if there is one. */
  function LastDotIn(p: string, k: nat, e: nat): (r: Option<nat>)
    requires k <= e <= |p|
    ensures r.None? ==> forall i :: k <= i < e ==> p[i] != '.'
    ensures r.Some? ==> k <= r.value < e && p[r.value] == '.'
    ensures r.Some? ==> forall i :: r.value < i < e ==> p[i] != '.'
  {
    if e == k then None
    else if p[e - 1] == '.' then Some(e - 1)
    else LastDotIn(p, k, e - 1)
  }

  /**
   * The extension of the component `p[k..e]`. Node's `preDotState` is 0 when
   * the last dot opens the component, and 1 when the component's first
   * character is a dot; with a component of two characters that is `..`.
   */
  function ComponentExt(p: string, k: nat, e: nat): (r: string)
    requires k <= e <= |p|
    ensures r == [] || (IsExtension(r) && |r| <= e - k && r == p[e - |r|..e])
  {
    match LastDotIn(p, k, e)
    case None => ""
    case Some(d) =>
      if d == k || (p[k] == '.' && d == e - 1 && d == k + 1) then ""
      else
        var r := p[d..e];
        assert forall j :: 1 <= j < |r| ==> r[j] == p[d + j];
        r
  }

  /** `path.extname(p)`: the extension of the last component, trailing slashes ignored. */
  function ExtName(p: string): (r: string)
    ensures r == [] || (IsExtension(r) && NoSlash(r))
  {
    var e := TrimmedEnd(p, |p|);
    var k := SegmentStart(p, e);
    var r := ComponentExt(p, k, e);
    assert forall j :: 0 <= j < |r| ==> r[j] == p[e - |r| + j];
    r
  }

  /**
   * Only the final extension counts: for a name `stem + ext` whose stem ends
   * the component with a character other than `/`, the extension is `ext`
   * (so `x.wav.mp3` has extension `.mp3`).
   */
  lemma ExtNameOfSuffix(stem: string, ext: string)
    requires stem != [] && stem[|stem| - 1] != '/'
    requires |ext| >= 2 && IsExtension(ext) && NoSlash(ext)
    ensures ExtName(stem + ext) == ext
  {
    var p := stem + ext;
    assert p[|p| - 1] == ext[|ext| - 1];
    var e := TrimmedEnd(p, |p|);
    assert e == |p|;
    var k := SegmentStart(p, e);
    assert k < |stem|;
    var d := LastDotIn(p, k, e);
    assert p[|stem|] == ext[0] == '.';
    assert d == Some(|stem|);
    assert p[|stem|..] == ext;
  }

  /**
   * A dot-file has no extension: when the last component is `ext` itself
   * (it starts with its only dot), `extname` is empty (so `.ogg` and `dir/.ogg`
   * have none).
   */
  lemma DotFileHasNoExtension(dir: string, ext: string)
    requires dir == [] || dir[|dir| - 1] == '/'
    requires IsExtension(ext) && NoSlash(ext)
    ensures ExtName(dir + ext) == ""
  {
    var p := dir + ext;
    assert p[|p| - 1] == ext[|ext| - 1];
    var e := TrimmedEnd(p, |p|);
    assert e == |p|;
    var k := SegmentStart(p, e);
    assert dir != [] ==> p[|dir| - 1] == dir[|dir| - 1];
    assert k == |dir|;
    var d := LastDotIn(p, k, e);
    assert p[|dir|] == ext[0];
    assert d == Some(|dir|);
  }

  /** A path without any dot has no extension. */
  lemma DotlessHasNoExtension(p: string)
    requires NoDotFrom(p, 0)
    ensures ExtName(p) == ""
  {
    var e := TrimmedEnd(p, |p|);
    var k := SegmentStart(p, e);
    assert LastDotIn(p, k, e).None?;
  }

  /** For a name that does not end in `/`, its extension is a suffix of the name itself. */
  lemma ExtNameIsSuffix(name: string)
    requires name == [] || name[|name| - 1] != '/'
    ensures |ExtName(name)| <= |name| && ExtName(name) == name[|name| - |ExtName(name)|..]
  {
    assert TrimmedEnd(name, |name|) == |name|;
  }

  /** Lower-casing leaves `/` and `.` where they are and introduces no new ones. */
  lemma LowerCharKeepsSeparators(c: char)
    ensures LowerChar(c) == '/' <==> c == '/'
    ensures LowerChar(c) == '.' <==> c == '.'
  {
  }

  /** `p` and `q` have their `/` characters at the same indices. */
  predicate SameSlashes(p: string, q: string) {
    |p| == |q| && forall i :: 0 <= i < |p| ==> (p[i] == '/' <==> q[i] == '/')
  }

  /** `p` and `q` have their `.` characters at the same indices. */
  predicate SameDots(p: string, q: string) {
    |p| == |q| && forall i :: 0 <= i < |p| ==> (p[i] == '.' <==> q[i] == '.')
  }

  lemma {:induction false} TrimmedEndSame(p: string, q: string, n: nat)
    requires SameSlashes(p, q) && n <= |p|
    ensures TrimmedEnd(p, n) == TrimmedEnd(q, n)
  {
    if n > 0 && p[n - 1] == '/' {
      TrimmedEndSame(p, q, n - 1);
    }
  }

  lemma {:induction false} SegmentStartSame(p: string, q: string, e: nat)
    requires SameSlashes(p, q) && e <= |p|
    ensures SegmentStart(p, e) == SegmentStart(q, e)
  {
    if e > 0 && p[e - 1] != '/' {
      SegmentStartSame(p, q, e - 1);
    }
  }

  lemma {:induction false} LastDotInSame(p: string, q: string, k: nat, e: nat)
    requires SameDots(p, q) && k <= e <= |p|
    ensures LastDotIn(p, k, e) == LastDotIn(q, k, e)
  {
    if e > k && p[e - 1] != '.' {
      LastDotInSame(p, q, k, e - 1);
    }
  }

  lemma LowerKeepsSeparators(p: string)
    ensures SameSlashes(p, LowerStr(p)) && SameDots(p, LowerStr(p))
  {
    var q := LowerStr(p);
    forall i | 0 <= i < |p| ensures (p[i] == '/' <==> q[i] == '/') && (p[i] == '.' <==> q[i] == '.') {
      LowerCharKeepsSeparators(p[i]);
    }
  }

  lemma ComponentExtLower(p: string, k: nat, e: nat)
    requires k <= e <= |p|
    requires SameDots(p, LowerStr(p))
    ensures ComponentExt(LowerStr(p), k, e) == LowerStr(ComponentExt(p, k, e))
  {
    var q := LowerStr(p);
    LastDotInSame(p, q, k, e);
    match LastDotIn(p, k, e)
    case None =>
    case Some(d) =>
      assert q[d..e] == LowerStr(p[d..e]);
  }

  /** The extension of the lower-cased name is the lower-cased extension. */
  lemma ExtNameLower(p: string)
    ensures ExtName(LowerStr(p)) == LowerStr(ExtName(p))
  {
    var q := LowerStr(p);
    LowerKeepsSeparators(p);
    TrimmedEndSame(p, q, |p|);
    var e := TrimmedEnd(p, |p|);
    SegmentStartSame(p, q, e);
    ComponentExtLower(p, SegmentStart(p, e), e);
  }
}
