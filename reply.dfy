/**
 * Clean-up of the model's reply before it is spoken and stored: the two
 * regular-expression replacements `replaceAll("\\(.*?\\)", "")` and then
 * `replaceAll("\\（.*?\\）", "")`, written as direct character scans.
 *
 * A non-greedy `open .*? close` match starting at an opener ends at the
 * nearest closer after it, provided no line terminator comes first (the
 * regex `.` does not match line terminators). `replaceAll` scans left to
 * right, removes each match and resumes after it; an opener that starts no
 * match is kept and the scan moves on by one character.
 */
module Reply {
  import opened Wrappers

  /** The characters that `.` does not match by default in `java.util.regex`. */
  predicate IsLineTerminator(c: char)
  {
    c == '\n' || c == '\r' || c == '\U{0085}' || c == '\U{2028}' || c == '\U{2029}'
  }

  const FULLWIDTH_OPEN: char := '\U{FF08}'
  const FULLWIDTH_CLOSE: char := '\U{FF09}'

  /** An opener/closer pair the scan can work with: two distinct characters, neither a line terminator. */
  predicate Delimiters(open: char, close: char)
  {
    open != close && !IsLineTerminator(open) && !IsLineTerminator(close)
  }

  /** No line terminator among the first `j` characters of `u`. */
  predicate OnLine(u: string, j: nat)
    requires j <= |u|
  {
    forall k :: 0 <= k < j ==> !IsLineTerminator(u[k])
  }

  /**
   * Where a lazy `.*?close` starting at the front of `u` ends: the index of
   * the nearest `close` with no line terminator before it, if there is one.
   */
  function FindCloser(u: string, close: char): (r: Option<nat>)
    requires !IsLineTerminator(close)
    ensures r.Some? ==> r.value < |u| && u[r.value] == close && OnLine(u, r.value)
                        && forall k :: 0 <= k < r.value ==> u[k] != close
    ensures r.None? ==> forall j :: 0 <= j < |u| && OnLine(u, j) ==> u[j] != close
  {
    if u == [] then None
    else if u[0] == close then Some(0)
    else if IsLineTerminator(u[0]) then None
    else
      match FindCloser(u[1..], close)
      case Some(j) => Some(j + 1)
      case None => None
  }

  /** One `replaceAll` of `open.*?close` by the empty string. */
  function Strip(s: string, open: char, close: char): (r: string)
    requires Delimiters(open, close)
    ensures |r| <= |s|
    decreases |s|
  {
    if s == [] then []
    else if s[0] != open then [s[0]] + Strip(s[1..], open, close)
    else
      match FindCloser(s[1..], close)
      case Some(j) => Strip(s[j + 2..], open, close)
      case None => [s[0]] + Strip(s[1..], open, close)
  }

  /** The clean-up chain of lines 104-105: ASCII parentheses first, then full-width ones. */
  function CleanReply(s: string): (r: string)
    ensures |r| <= |s|
  {
    Strip(Strip(s, '(', ')'), FULLWIDTH_OPEN, FULLWIDTH_CLOSE)
  }

  /** No opener in `t` has a closer after it on its line: the pattern matches nowhere. */
  predicate NoMatch(t: string, open: char, close: char)
    requires !IsLineTerminator(close)
  {
    forall i :: 0 <= i < |t| && t[i] == open ==> FindCloser(t[i + 1..], close).None?
  }

  // ---------------------------------------------------------------------
  // Helper facts about NoMatch and FindCloser
  // ---------------------------------------------------------------------

  lemma NoMatchTail(x: char, t: string, open: char, close: char)
    requires !IsLineTerminator(close)
    requires NoMatch([x] + t, open, close)
    ensures x == open ==> FindCloser(t, close).None?
    ensures NoMatch(t, open, close)
  {
    var u := [x] + t;
    assert u[1..] == t;
    assert u[0] == x;
    assert x == open ==> FindCloser(u[0 + 1..], close).None?;
    forall i | 0 <= i < |t| && t[i] == open
      ensures FindCloser(t[i + 1..], close).None?
    {
      assert u[i + 1] == t[i] && u[i + 1 + 1..] == t[i + 1..];
    }
  }

  lemma NoMatchCons(x: char, t: string, open: char, close: char)
    requires !IsLineTerminator(close)
    requires x == open ==> FindCloser(t, close).None?
    requires NoMatch(t, open, close)
    ensures NoMatch([x] + t, open, close)
  {
    var u := [x] + t;
    forall i | 0 <= i < |u| && u[i] == open
      ensures FindCloser(u[i + 1..], close).None?
    {
      if i == 0 {
        assert u[1..] == t;
      } else {
        assert u[i] == t[i - 1] && u[i + 1..] == t[i - 1 + 1..];
      }
    }
  }

  lemma {:induction false} NoMatchSuffix(t: string, m: nat, open: char, close: char)
    requires !IsLineTerminator(close) && m <= |t|
    requires NoMatch(t, open, close)
    ensures NoMatch(t[m..], open, close)
    decreases m
  {
    if m > 0 {
      assert [t[0]] + t[1..] == t;
      NoMatchTail(t[0], t[1..], open, close);
      NoMatchSuffix(t[1..], m - 1, open, close);
      assert t[1..][m - 1..] == t[m..];
    }
  }

  /** Dropping a prefix that holds no line terminator cannot create a closer on the first line. */
  lemma FindCloserNoneSuffix(u: string, m: nat, close: char)
    requires !IsLineTerminator(close) && m <= |u| && OnLine(u, m)
    requires FindCloser(u, close).None?
    ensures FindCloser(u[m..], close).None?
  {
    var v := u[m..];
    forall j | 0 <= j < |v| && OnLine(v, j)
      ensures v[j] != close
    {
      assert OnLine(u, m + j) by {
        forall k | 0 <= k < m + j
          ensures !IsLineTerminator(u[k])
        {
          if k >= m {
            assert u[k] == v[k - m];
          }
        }
      }
    }
  }

  /** A first character that starts no match is kept, and the pass goes on after it. */
  lemma StripKeepsHead(u: string, open: char, close: char)
    requires Delimiters(open, close) && u != []
    requires u[0] != open || FindCloser(u[1..], close).None?
    ensures Strip(u, open, close) == [u[0]] + Strip(u[1..], open, close)
  {
  }

  /** A match at the front is dropped whole, and the pass goes on after its closer. */
  lemma StripSkipsMatch(u: string, open: char, close: char)
    requires Delimiters(open, close) && u != [] && u[0] == open
    requires FindCloser(u[1..], close).Some?
    ensures FindCloser(u[1..], close).value + 2 <= |u|
    ensures Strip(u, open, close) == Strip(u[FindCloser(u[1..], close).value + 2..], open, close)
  {
    var j := FindCloser(u[1..], close).value;
    assert j < |u[1..]|;
  }

  /** Past a first character that ends no line, the first line still holds no `c`. */
  lemma FindCloserNoneTail(u: string, c: char)
    requires !IsLineTerminator(c) && u != [] && !IsLineTerminator(u[0])
    requires FindCloser(u, c).None?
    ensures FindCloser(u[1..], c).None?
  {
  }

  /** Putting a character other than `c` in front keeps the first line free of `c`, or ends the line. */
  lemma FindCloserNoneCons(x: char, t: string, c: char)
    requires !IsLineTerminator(c) && x != c
    requires IsLineTerminator(x) || FindCloser(t, c).None?
    ensures FindCloser([x] + t, c).None?
  {
    assert ([x] + t)[1..] == t;
  }

  /** A match `open .*? close` at the front of `u` spans no line terminator. */
  lemma MatchIsOnLine(u: string, close: char)
    requires u != [] && !IsLineTerminator(u[0]) && !IsLineTerminator(close)
    requires FindCloser(u[1..], close).Some?
    ensures FindCloser(u[1..], close).value + 2 <= |u|
    ensures OnLine(u, FindCloser(u[1..], close).value + 2)
  {
    var j := FindCloser(u[1..], close).value;
    forall k | 0 <= k < j + 2
      ensures !IsLineTerminator(u[k])
    {
      if 0 < k < j + 1 {
        assert u[k] == u[1..][k - 1];
      }
    }
  }

  /**
   * Stripping any delimiter pair out of a string whose first line holds no
   * `close` leaves a string whose first line holds no `close`.
   */
  lemma {:induction false} StripKeepsNoCloser(u: string, open: char, close: char, c: char)
    requires Delimiters(open, close) && !IsLineTerminator(c)
    requires FindCloser(u, c).None?
    ensures FindCloser(Strip(u, open, close), c).None?
    decreases |u|
  {
    if u != [] {
      if u[0] == open && FindCloser(u[1..], close).Some? {
        var j := FindCloser(u[1..], close).value;
        MatchIsOnLine(u, close);
        FindCloserNoneSuffix(u, j + 2, c);
        StripKeepsNoCloser(u[j + 2..], open, close, c);
        StripSkipsMatch(u, open, close);
      } else {
        if !IsLineTerminator(u[0]) {
          FindCloserNoneTail(u, c);
          StripKeepsNoCloser(u[1..], open, close, c);
        }
        StripKeepsHead(u, open, close);
        FindCloserNoneCons(u[0], Strip(u[1..], open, close), c);
      }
    }
  }

  // ---------------------------------------------------------------------
  // Properties of the clean-up
  // ---------------------------------------------------------------------

  /** After one pass the pattern matches nowhere in the result. */
  lemma {:induction false} StripLeavesNoMatch(s: string, open: char, close: char)
    requires Delimiters(open, close)
    ensures NoMatch(Strip(s, open, close), open, close)
    decreases |s|
  {
    if s != [] {
      if s[0] == open && FindCloser(s[1..], close).Some? {
        StripLeavesNoMatch(s[FindCloser(s[1..], close).value + 2..], open, close);
      } else {
        StripLeavesNoMatch(s[1..], open, close);
        if s[0] == open {
          StripKeepsNoCloser(s[1..], open, close, close);
        }
        NoMatchCons(s[0], Strip(s[1..], open, close), open, close);
      }
    }
  }

  /** A string the pattern matches nowhere is left unchanged. */
  lemma {:induction false} NoMatchIsFixed(t: string, open: char, close: char)
    requires Delimiters(open, close) && NoMatch(t, open, close)
    ensures Strip(t, open, close) == t
    decreases |t|
  {
    if t != [] {
      assert [t[0]] + t[1..] == t;
      NoMatchTail(t[0], t[1..], open, close);
      NoMatchIsFixed(t[1..], open, close);
    }
  }

  /** Stripping one delimiter pair never creates a match for another. */
  lemma {:induction false} StripKeepsNoMatch(t: string, open: char, close: char, open2: char, close2: char)
    requires Delimiters(open, close) && Delimiters(open2, close2)
    requires NoMatch(t, open, close)
    ensures NoMatch(Strip(t, open2, close2), open, close)
    decreases |t|
  {
    if t != [] {
      if t[0] == open2 && FindCloser(t[1..], close2).Some? {
        var m := FindCloser(t[1..], close2).value + 2;
        NoMatchSuffix(t, m, open, close);
        StripKeepsNoMatch(t[m..], open, close, open2, close2);
      } else {
        assert [t[0]] + t[1..] == t;
        NoMatchTail(t[0], t[1..], open, close);
        StripKeepsNoMatch(t[1..], open, close, open2, close2);
        if t[0] == open {
          StripKeepsNoCloser(t[1..], open2, close2, close);
        }
        NoMatchCons(t[0], Strip(t[1..], open2, close2), open, close);
      }
    }
  }

  /** A string with no opener at all passes through unchanged. */
  lemma NoOpenerUnchanged(t: string, open: char, close: char)
    requires Delimiters(open, close)
    requires forall i :: 0 <= i < |t| ==> t[i] != open
    ensures Strip(t, open, close) == t
  {
    NoMatchIsFixed(t, open, close);
  }

  /** An opener whose line has no closer after it is kept, and the scan goes on after it. */
  lemma UnclosedOpenerKept(open: char, close: char, rest: string)
    requires Delimiters(open, close)
    requires forall j :: 0 <= j < |rest| && OnLine(rest, j) ==> rest[j] != close
    ensures Strip([open] + rest, open, close) == [open] + Strip(rest, open, close)
  {
    assert ([open] + rest)[1..] == rest;
  }

  /**
   * An opener, text without closers or line terminators, and a closer are
   * removed together; the scan resumes right after the closer.
   */
  lemma SpanRemoved(open: char, close: char, inner: string, rest: string)
    requires Delimiters(open, close)
    requires forall k :: 0 <= k < |inner| ==> inner[k] != close && !IsLineTerminator(inner[k])
    ensures Strip([open] + inner + [close] + rest, open, close) == Strip(rest, open, close)
  {
    var s := [open] + inner + [close] + rest;
    var u := s[1..];
    assert u == inner + [close] + rest;
    var f := FindCloser(u, close);
    assert u[|inner|] == close;
    assert OnLine(u, |inner|) by {
      forall k | 0 <= k < |inner|
        ensures !IsLineTerminator(u[k])
      {
        assert u[k] == inner[k];
      }
    }
    forall k | 0 <= k < |inner|
      ensures u[k] == inner[k] && u[k] != close
    {
    }
    assert f.Some? && f.value == |inner|;
    assert s[|inner| + 2..] == rest;
  }

  /** After the clean-up neither pattern matches anywhere, and cleaning again changes nothing. */
  lemma CleanReplyIdempotent(s: string)
    ensures NoMatch(CleanReply(s), '(', ')')
    ensures NoMatch(CleanReply(s), FULLWIDTH_OPEN, FULLWIDTH_CLOSE)
    ensures CleanReply(CleanReply(s)) == CleanReply(s)
  {
    var t1 := Strip(s, '(', ')');
    var t2 := Strip(t1, FULLWIDTH_OPEN, FULLWIDTH_CLOSE);
    StripLeavesNoMatch(s, '(', ')');
    StripKeepsNoMatch(t1, '(', ')', FULLWIDTH_OPEN, FULLWIDTH_CLOSE);
    StripLeavesNoMatch(t1, FULLWIDTH_OPEN, FULLWIDTH_CLOSE);
    NoMatchIsFixed(t2, '(', ')');
    NoMatchIsFixed(t2, FULLWIDTH_OPEN, FULLWIDTH_CLOSE);
  }

  /** A character the clean-up treats as plain text: no delimiter of either pair and no line terminator. */
  predicate Plain(c: char)
  {
    c != '(' && c != ')' && c != FULLWIDTH_OPEN && c != FULLWIDTH_CLOSE && !IsLineTerminator(c)
  }

  /** The first pass on `a(b)c（d）e`: only the ASCII aside goes. */
  lemma AsciiPassExample(a: char, b: char, c: char, d: char, e: char)
    requires Plain(a) && Plain(b) && Plain(c) && Plain(d) && Plain(e)
    ensures Strip([a, '(', b, ')', c, FULLWIDTH_OPEN, d, FULLWIDTH_CLOSE, e], '(', ')')
         == [a, c, FULLWIDTH_OPEN, d, FULLWIDTH_CLOSE, e]
  {
    var rest := [c, FULLWIDTH_OPEN, d, FULLWIDTH_CLOSE, e];
    var s := [a, '(', b, ')', c, FULLWIDTH_OPEN, d, FULLWIDTH_CLOSE, e];
    var u := ['('] + [b] + [')'] + rest;
    assert s[0] == a && s[1..] == u;
    assert Strip(s, '(', ')') == [a] + Strip(u, '(', ')');
    SpanRemoved('(', ')', [b], rest);
    forall i | 0 <= i < |rest|
      ensures rest[i] != '('
    {
      assert rest[i] in {c, FULLWIDTH_OPEN, d, FULLWIDTH_CLOSE, e};
    }
    NoOpenerUnchanged(rest, '(', ')');
  }

  /** The second pass: the full-width aside goes. */
  lemma FullWidthPassExample(a: char, c: char, d: char, e: char)
    requires Plain(a) && Plain(c) && Plain(d) && Plain(e)
    ensures Strip([a, c, FULLWIDTH_OPEN, d, FULLWIDTH_CLOSE, e], FULLWIDTH_OPEN, FULLWIDTH_CLOSE) == [a, c, e]
  {
    var t := [a, c, FULLWIDTH_OPEN, d, FULLWIDTH_CLOSE, e];
    var aside := [FULLWIDTH_OPEN] + [d] + [FULLWIDTH_CLOSE] + [e];
    assert t[1..] == [c] + aside && t[1..][1..] == aside;
    SpanRemoved(FULLWIDTH_OPEN, FULLWIDTH_CLOSE, [d], [e]);
    NoOpenerUnchanged([e], FULLWIDTH_OPEN, FULLWIDTH_CLOSE);
    assert Strip([c] + aside, FULLWIDTH_OPEN, FULLWIDTH_CLOSE) == [c, e];
  }

  /** Two asides in one reply, one ASCII and one full-width, are both removed: `a(b)c（d）e` becomes `ace`. */
  lemma CleanReplyExample(a: char, b: char, c: char, d: char, e: char)
    requires Plain(a) && Plain(b) && Plain(c) && Plain(d) && Plain(e)
    ensures CleanReply([a, '(', b, ')', c, FULLWIDTH_OPEN, d, FULLWIDTH_CLOSE, e]) == [a, c, e]
  {
    AsciiPassExample(a, b, c, d, e);
    FullWidthPassExample(a, c, d, e);
  }
}
