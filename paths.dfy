/** The parts of Python's `posixpath` that the indexer uses: `basename` and `splitext`. */
module PosixPath {
  import opened Text

  /** `s.rfind(c)` for a single character. */
  function LastIndexOf(s: string, c: char): (r: int)
    ensures -1 <= r < |s|
    ensures r >= 0 ==> s[r] == c
    ensures forall j :: r < j < |s| ==> s[j] != c
  {
    if s == [] then -1
    else if s[|s| - 1] == c then |s| - 1
    else LastIndexOf(s[..|s| - 1], c)
  }

  /** `os.path.basename(p)`: the longest suffix of `p` without a `/`. */
  function Basename(p: string): (r: string)
    ensures |r| <= |p| && r == p[|p| - |r|..]
    ensures forall j :: 0 <= j < |r| ==> r[j] != '/'
    ensures |r| < |p| ==> p[|p| - |r| - 1] == '/'
  {
    p[LastIndexOf(p, '/') + 1..]
  }

  predicate OnlyDots(s: string)
  {
    forall i :: 0 <= i < |s| ==> s[i] == '.'
  }

  /** After the last `.`, which lies after the last `/`, there is neither. */
  lemma ExtensionChars(p: string, sep: int, dot: int)
    requires sep == LastIndexOf(p, '/') && dot == LastIndexOf(p, '.') && sep < dot
    ensures p[dot] == '.'
    ensures forall j :: dot < j < |p| ==> p[j] != '.' && p[j] != '/'
  {
  }

  /** The last path component (after the last `/`) has an extension: its last `.` lies in
      that component and is not preceded, inside it, by dots only. */
  predicate HasExtension(p: string)
  {
    var sep := LastIndexOf(p, '/');
    var dot := LastIndexOf(p, '.');
    dot > sep && !OnlyDots(p[sep + 1..dot])
  }

  /** A path has an extension exactly when its last component holds a `.` with a character
      other than `.` before it in that component: `a.png`, `a..png`, `x.tar.gz` do, while
      `.bashrc`, `..png` and `dir.v2/photo` do not. */
  lemma HasExtensionMeans(p: string)
    ensures HasExtension(p) <==>
      exists i, j :: LastIndexOf(p, '/') < i < j < |p| && p[i] != '.' && p[j] == '.'
  {
    if exists i, j :: LastIndexOf(p, '/') < i < j < |p| && p[i] != '.' && p[j] == '.' {
      var i, j :| LastIndexOf(p, '/') < i < j < |p| && p[i] != '.' && p[j] == '.';
      DotAfterNonDot(p, i, j);
    }
    if HasExtension(p) {
      ExtensionHasNonDot(p);
    }
  }

  lemma DotAfterNonDot(p: string, i: int, j: int)
    requires LastIndexOf(p, '/') < i < j < |p| && p[i] != '.' && p[j] == '.'
    ensures HasExtension(p)
  {
    var sep := LastIndexOf(p, '/');
    var dot := LastIndexOf(p, '.');
    assert j <= dot;
    var dots := p[sep + 1..dot];
    assert dots[i - sep - 1] == p[i];
  }

  lemma ExtensionHasNonDot(p: string)
    requires HasExtension(p)
    ensures exists i, j :: LastIndexOf(p, '/') < i < j < |p| && p[i] != '.' && p[j] == '.'
  {
    var sep := LastIndexOf(p, '/');
    var dot := LastIndexOf(p, '.');
    var dots := p[sep + 1..dot];
    assert !OnlyDots(dots);
    var k :| 0 <= k < |dots| && dots[k] != '.';
    assert p[sep + 1 + k] == dots[k];
    assert sep < sep + 1 + k < dot < |p|;
  }

  /** Where `splitext` cuts: the last `.` of the path, when the last path component has an
      extension; -1 otherwise. */
  function ExtensionStart(p: string): (k: int)
    ensures -1 <= k < |p|
    ensures k >= 0 ==> p[k] == '.'
    ensures k >= 0 ==> forall j :: k < j < |p| ==> p[j] != '.' && p[j] != '/'
  {
    if HasExtension(p) then
      ExtensionChars(p, LastIndexOf(p, '/'), LastIndexOf(p, '.'));
      LastIndexOf(p, '.')
    else -1
  }

  /** `os.path.splitext(p)` as `(root, ext)`. */
  function SplitExt(p: string): (r: (string, string))
    ensures r.0 + r.1 == p
    ensures r.1 != [] ==> r.1[0] == '.'
    ensures forall j :: 1 <= j < |r.1| ==> r.1[j] != '.' && r.1[j] != '/'
  {
    var k := ExtensionStart(p);
    if k >= 0 then
      SuffixChars(p, k);
      (p[..k], p[k..])
    else (p, "")
  }

  lemma SuffixChars(p: string, k: int)
    requires 0 <= k < |p| && p[k] == '.'
    requires forall j :: k < j < |p| ==> p[j] != '.' && p[j] != '/'
    ensures p[..k] + p[k..] == p
    ensures forall j :: 1 <= j < |p[k..]| ==> p[k..][j] != '.' && p[k..][j] != '/'
  {
    assert forall j :: 0 <= j < |p[k..]| ==> p[k..][j] == p[k + j];
  }

  /** Where `splitext` cuts: the extension is empty exactly when the last path component
      has none, and otherwise runs from the path's last `.` to its end. */
  lemma SplitExtCuts(p: string)
    ensures SplitExt(p).1 != [] <==> HasExtension(p)
    ensures SplitExt(p).1 != [] ==> SplitExt(p).1 == p[LastIndexOf(p, '.')..]
  {
    ExtensionIs(p);
  }

  /** The extension `SplitExt` gives, in terms of `ExtensionStart`. */
  lemma ExtensionIs(p: string)
    ensures SplitExt(p).1 == if ExtensionStart(p) >= 0 then p[ExtensionStart(p)..] else []
  {
  }

  /** Lower-casing changes neither `/` nor `.`, so it moves no split point. */
  lemma {:induction false} LastIndexOfLower(s: string, c: char)
    requires !IsCased(c)
    ensures LastIndexOf(Lower(s), c) == LastIndexOf(s, c)
  {
    if s != [] {
      assert Lower(s)[..|s| - 1] == Lower(s[..|s| - 1]);
      LastIndexOfLower(s[..|s| - 1], c);
    }
  }

  lemma LowerSlice(p: string, lo: int, hi: int)
    requires 0 <= lo <= hi <= |p|
    ensures Lower(p)[lo..hi] == Lower(p[lo..hi])
  {
  }

  lemma OnlyDotsLower(s: string)
    ensures OnlyDots(Lower(s)) == OnlyDots(s)
  {
    assert forall i :: 0 <= i < |s| ==> (Lower(s)[i] == '.' <==> s[i] == '.');
  }

  /** Lower-casing moves no split point. */
  lemma ExtensionStartLower(p: string)
    ensures ExtensionStart(Lower(p)) == ExtensionStart(p)
  {
    var sep := LastIndexOf(p, '/');
    var dot := LastIndexOf(p, '.');
    assert LastIndexOf(Lower(p), '/') == sep by { LastIndexOfLower(p, '/'); }
    assert LastIndexOf(Lower(p), '.') == dot by { LastIndexOfLower(p, '.'); }
    if dot > sep {
      assert OnlyDots(Lower(p)[sep + 1..dot]) == OnlyDots(p[sep + 1..dot]) by {
        LowerSlice(p, sep + 1, dot);
        OnlyDotsLower(p[sep + 1..dot]);
      }
    }
  }

  /** `splitext` commutes with lower-casing. */
  lemma SplitExtLower(p: string)
    ensures SplitExt(Lower(p)).1 == Lower(SplitExt(p).1)
  {
    ExtensionIs(p);
    ExtensionIs(Lower(p));
    ExtensionStartLower(p);
    var k := ExtensionStart(p);
    if k >= 0 {
      LowerSuffix(p, k);
    }
  }

  lemma LowerSuffix(p: string, k: nat)
    requires k <= |p|
    ensures Lower(p)[k..] == Lower(p[k..])
  {
    LowerSlice(p, k, |p|);
    assert p[k..|p|] == p[k..];
    assert Lower(p)[k..|p|] == Lower(p)[k..];
  }
}
