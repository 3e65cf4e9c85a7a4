/**
 * The Java string operations the main loop relies on when it classifies a
 * transcript: `String.trim`, `String.contains` and `String.isBlank`.
 */
module Text {

  // ---------------------------------------------------------------------
  // String.trim
  // ---------------------------------------------------------------------

  /** The first index at or after `st` holding a character above U+0020, or `|s|`. */
  function TrimStart(s: string, st: nat): (r: nat)
    requires st <= |s|
    ensures st <= r <= |s|
    ensures forall k :: st <= k < r ==> s[k] <= ' '
    ensures r < |s| ==> s[r] > ' '
    decreases |s| - st
  {
    if st < |s| && s[st] <= ' ' then TrimStart(s, st + 1) else st
  }

  /** The end of the kept part: `len` moved left past characters up to U+0020, never below `st`. */
  function TrimEnd(s: string, st: nat, len: nat): (r: nat)
    requires st <= len <= |s|
    ensures st <= r <= len
    ensures forall k :: r <= k < len ==> s[k] <= ' '
    ensures st < r ==> s[r - 1] > ' '
    decreases len
  {
    if st < len && s[len - 1] <= ' ' then TrimEnd(s, st, len - 1) else len
  }

  /** `String.trim`: drop every leading and trailing character up to U+0020 (controls included). */
  function Trim(s: string): (t: string)
    ensures |t| <= |s|
    ensures t == [] <==> forall k :: 0 <= k < |s| ==> s[k] <= ' '
    ensures t != [] ==> t[0] > ' ' && t[|t| - 1] > ' '
  {
    var st := TrimStart(s, 0);
    s[st..TrimEnd(s, st, |s|)]
  }

  /**
   * The trimmed string is the one slice of `s` that is bordered only by
   * characters up to U+0020 and, when not empty, starts and ends above it.
   */
  lemma TrimIsUniqueSlice(s: string, a: nat, b: nat)
    requires a <= b <= |s|
    requires forall k :: 0 <= k < a ==> s[k] <= ' '
    requires forall k :: b <= k < |s| ==> s[k] <= ' '
    requires a < b ==> s[a] > ' ' && s[b - 1] > ' '
    ensures Trim(s) == s[a..b]
  {
    var st := TrimStart(s, 0);
    if a < b {
      assert st == a;
      assert TrimEnd(s, st, |s|) == b;
    } else {
      assert st == |s|;
    }
  }

  /** Trimming twice is trimming once. */
  lemma TrimIdempotent(s: string)
    ensures Trim(Trim(s)) == Trim(s)
  {
    var t := Trim(s);
    TrimIsUniqueSlice(t, 0, |t|);
    assert t[0..|t|] == t;
  }

  // ---------------------------------------------------------------------
  // String.contains
  // ---------------------------------------------------------------------

  /** `w` occurs in `s` starting at index `i`. */
  predicate OccursAt(s: string, w: string, i: nat)
  {
    i + |w| <= |s| && s[i..i + |w|] == w
  }

  /** `String.contains`: does `w` occur anywhere in `s`? The empty string occurs in every string. */
  function Contains(s: string, w: string): (b: bool)
    ensures b ==> |w| <= |s|
    ensures w == [] ==> b
    decreases |s|
  {
    if |w| > |s| then false
    else if s[..|w|] == w then true
    else Contains(s[1..], w)
  }

  /** `Contains` holds exactly when there is an index where `w` occurs. */
  lemma {:induction false} ContainsIffOccurs(s: string, w: string)
    ensures Contains(s, w) <==> exists i: nat :: OccursAt(s, w, i)
    decreases |s|
  {
    if |w| > |s| {
      forall i: nat
        ensures !OccursAt(s, w, i)
      {
      }
    } else if s[..|w|] == w {
      assert OccursAt(s, w, 0);
    } else {
      ContainsIffOccurs(s[1..], w);
      forall i: nat
        ensures OccursAt(s, w, i + 1) <==> OccursAt(s[1..], w, i)
      {
        if i + 1 + |w| <= |s| {
          assert s[1..][i..i + |w|] == s[i + 1..i + 1 + |w|];
        }
      }
      if Contains(s, w) {
        var i: nat :| OccursAt(s[1..], w, i);
        assert OccursAt(s, w, i + 1);
      } else {
        forall i: nat
          ensures !OccursAt(s, w, i)
        {
          if i > 0 {
            assert !OccursAt(s[1..], w, i - 1);
          }
        }
      }
    }
  }

  // ---------------------------------------------------------------------
  // String.isBlank
  // ---------------------------------------------------------------------

  /**
   * `Character.isWhitespace`: the controls U+0009 to U+000D and U+001C to
   * U+001F, and the Unicode space, line and paragraph separators except the
   * no-break spaces U+00A0, U+2007 and U+202F.
   */
  predicate IsJavaWhitespace(c: char)
  {
    || ('\t' <= c <= '\r')
    || ('\U{1C}' <= c <= '\U{1F}')
    || c == ' '
    || c == '\U{1680}'
    || ('\U{2000}' <= c <= '\U{2006}')
    || ('\U{2008}' <= c <= '\U{200A}')
    || c == '\U{2028}'
    || c == '\U{2029}'
    || c == '\U{205F}'
    || c == '\U{3000}'
  }

  /** The index of the first character that is not Java whitespace, or `|s|` when there is none. */
  function IndexOfNonWhitespace(s: string): (i: nat)
    ensures i <= |s|
    ensures forall k :: 0 <= k < i ==> IsJavaWhitespace(s[k])
    ensures i < |s| ==> !IsJavaWhitespace(s[i])
    decreases |s|
  {
    if s == [] || !IsJavaWhitespace(s[0]) then 0
    else
      var j := IndexOfNonWhitespace(s[1..]);
      assert forall k :: 1 <= k < j + 1 ==> s[k] == s[1..][k - 1];
      j + 1
  }

  /**
   * `String.isBlank`: the first non-whitespace character is past the end,
   * that is, the string is empty or whitespace only.
   */
  function IsBlank(s: string): (b: bool)
    ensures b <==> forall k :: 0 <= k < |s| ==> IsJavaWhitespace(s[k])
  {
    IndexOfNonWhitespace(s) == |s|
  }

  /**
   * `trim` and `isBlank` disagree on what counts as blank: a string of
   * controls that are not Java whitespace is not blank, yet trims to the
   * empty string, which is.
   */
  lemma TrimAndBlankDiffer()
    ensures !IsBlank("\U{0}") && Trim("\U{0}") == [] && IsBlank(Trim("\U{0}"))
  {
    assert !IsJavaWhitespace("\U{0}"[0]);
  }
}
