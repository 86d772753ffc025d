/**
 * The two string operations both scripts apply to console input and to
 * environment values: Python's `str.strip()` (with no argument) and
 * `str.lower()`.
 */
module Text {

  /**
   * Python's `str.isspace()` on one character: the ASCII controls TAB to CR,
   * the four information separators, SPACE, NEL, NO-BREAK SPACE and the
   * Unicode space separators and line/paragraph separators.
   */
  predicate IsSpace(c: char)
  {
    c in WhiteSpace
  }

  const WhiteSpace: set<char> := {
    '\t', '\n', '\U{0B}', '\U{0C}', '\r', '\U{1C}', '\U{1D}', '\U{1E}', '\U{1F}', ' ',
    '\U{85}', '\U{A0}', '\U{1680}',
    '\U{2000}', '\U{2001}', '\U{2002}', '\U{2003}', '\U{2004}', '\U{2005}', '\U{2006}',
    '\U{2007}', '\U{2008}', '\U{2009}', '\U{200A}',
    '\U{2028}', '\U{2029}', '\U{202F}', '\U{205F}', '\U{3000}'
  }

  predicate AllSpace(s: string)
  {
    forall k :: 0 <= k < |s| ==> IsSpace(s[k])
  }

  /** `s.lstrip()`: `s` without its leading whitespace. */
  function TrimStart(s: string): (r: string)
    ensures |r| <= |s|
  {
    if |s| > 0 && IsSpace(s[0]) then TrimStart(s[1..]) else s
  }

  /** `s.rstrip()`: `s` without its trailing whitespace. */
  function TrimEnd(s: string): (r: string)
    ensures |r| <= |s|
  {
    if |s| > 0 && IsSpace(s[|s| - 1]) then TrimEnd(s[..|s| - 1]) else s
  }

  /** `s.strip()`: `s` without whitespace on either side. */
  function Strip(s: string): (r: string)
    ensures |r| <= |s|
  {
    TrimEnd(TrimStart(s))
  }

  /** `lstrip()` removes a run of whitespace, and only that, and stops at a non-space. */
  lemma {:induction false} TrimStartSpec(s: string)
    ensures exists pre :: s == pre + TrimStart(s) && AllSpace(pre)
    ensures TrimStart(s) == [] || !IsSpace(TrimStart(s)[0])
  {
    if |s| > 0 && IsSpace(s[0]) {
      var t := TrimStart(s[1..]);
      TrimStartSpec(s[1..]);
      var pre :| s[1..] == pre + t && AllSpace(pre);
      var pre' := [s[0]] + pre;
      assert s == pre' + t && AllSpace(pre');
    } else {
      assert s == [] + s && AllSpace([]);
    }
  }

  /** `rstrip()` removes a run of whitespace, and only that, and stops at a non-space. */
  lemma {:induction false} TrimEndSpec(s: string)
    ensures exists post :: s == TrimEnd(s) + post && AllSpace(post)
    ensures TrimEnd(s) == [] || !IsSpace(TrimEnd(s)[|TrimEnd(s)| - 1])
  {
    if |s| > 0 && IsSpace(s[|s| - 1]) {
      var t := TrimEnd(s[..|s| - 1]);
      TrimEndSpec(s[..|s| - 1]);
      var post :| s[..|s| - 1] == t + post && AllSpace(post);
      var post' := post + [s[|s| - 1]];
      assert s == t + post' && AllSpace(post');
    } else {
      assert s == s + [] && AllSpace([]);
    }
  }

  /** Regrouping a three-part concatenation; kept apart so the proof of `StripSpec` stays small. */
  lemma AppendAssoc(a: string, b: string, c: string)
    ensures a + (b + c) == a + b + c
  {
  }

  /** `strip()` removes whitespace from either side of `s`, and only that. */
  lemma StripSpec(s: string)
    ensures exists pre, post :: s == pre + Strip(s) + post && AllSpace(pre) && AllSpace(post)
  {
    var t := TrimStart(s);
    var r := TrimEnd(t);
    TrimStartSpec(s);
    TrimEndSpec(t);
    var pre :| s == pre + t && AllSpace(pre);
    var post :| t == r + post && AllSpace(post);
    AppendAssoc(pre, r, post);
    assert s == pre + r + post && AllSpace(pre) && AllSpace(post);
  }

  /** What `strip()` leaves neither starts nor ends with whitespace. */
  lemma StripEnds(s: string)
    ensures Strip(s) == [] || (!IsSpace(Strip(s)[0]) && !IsSpace(Strip(s)[|Strip(s)| - 1]))
  {
    var t := TrimStart(s);
    var r := TrimEnd(t);
    TrimStartSpec(s);
    TrimEndSpec(t);
    if r != [] {
      var post :| t == r + post && AllSpace(post);
      assert r[0] == t[0];
    }
  }

  /** Lower-casing one character, restricted to ASCII letters. */
  function LowerChar(c: char): (d: char)
    ensures !('A' <= d <= 'Z')
    ensures d == c || ('A' <= c <= 'Z' && d as int == c as int + 32)
  {
    if 'A' <= c <= 'Z' then (c as int + 32) as char else c
  }

  /** ASCII lower-casing of `s`: every character lower-cased, nothing added or removed. */
  function Lower(s: string): (r: string)
    ensures |r| == |s|
    ensures forall k :: 0 <= k < |s| ==> r[k] == LowerChar(s[k])
  {
    seq(|s|, k requires 0 <= k < |s| => LowerChar(s[k]))
  }

  /** Lower-casing a second time changes nothing. */
  lemma LowerIdempotent(s: string)
    ensures Lower(Lower(s)) == Lower(s)
  {
  }

  lemma LowerCharKeepsSpace(c: char)
    ensures IsSpace(LowerChar(c)) == IsSpace(c)
  {
  }

  lemma {:induction false} TrimStartOfLower(s: string)
    ensures TrimStart(Lower(s)) == Lower(TrimStart(s))
  {
    if |s| > 0 {
      LowerCharKeepsSpace(s[0]);
      assert Lower(s)[1..] == Lower(s[1..]);
      TrimStartOfLower(s[1..]);
    }
  }

  lemma {:induction false} TrimEndOfLower(s: string)
    ensures TrimEnd(Lower(s)) == Lower(TrimEnd(s))
  {
    if |s| > 0 {
      LowerCharKeepsSpace(s[|s| - 1]);
      assert Lower(s)[..|s| - 1] == Lower(s[..|s| - 1]);
      TrimEndOfLower(s[..|s| - 1]);
    }
  }

  /**
   * `s.strip().lower()` and `s.lower().strip()` agree, so the order in which
   * the two scripts apply them does not matter.
   */
  lemma StripLowerCommute(s: string)
    ensures Lower(Strip(s)) == Strip(Lower(s))
  {
    TrimStartOfLower(s);
    TrimEndOfLower(TrimStart(s));
  }

  lemma {:induction false} TrimStartSkipsPadding(pre: string, t: string)
    requires AllSpace(pre)
    ensures TrimStart(pre + t) == TrimStart(t)
  {
    if |pre| > 0 {
      assert (pre + t)[0] == pre[0] && IsSpace(pre[0]);
      assert (pre + t)[1..] == pre[1..] + t;
      assert AllSpace(pre[1..]) by {
        forall k | 0 <= k < |pre| - 1 ensures IsSpace(pre[1..][k]) { assert pre[1..][k] == pre[k + 1]; }
      }
      TrimStartSkipsPadding(pre[1..], t);
    } else {
      assert pre + t == t;
    }
  }

  lemma {:induction false} TrimEndSkipsPadding(t: string, post: string)
    requires AllSpace(post)
    ensures TrimEnd(t + post) == TrimEnd(t)
  {
    if |post| > 0 {
      assert (t + post)[|t + post| - 1] == post[|post| - 1] && IsSpace(post[|post| - 1]);
      assert (t + post)[..|t + post| - 1] == t + post[..|post| - 1];
      assert AllSpace(post[..|post| - 1]) by {
        forall k | 0 <= k < |post| - 1 ensures IsSpace(post[k]) { }
      }
      TrimEndSkipsPadding(t, post[..|post| - 1]);
    } else {
      assert t + post == t;
    }
  }

  /** Trimming the front of `t + post` only looks into `post` when `t` is blank. */
  lemma {:induction false} TrimStartOfConcat(t: string, post: string)
    ensures TrimStart(t + post) == if TrimStart(t) == [] then TrimStart(post) else TrimStart(t) + post
  {
    if |t| > 0 {
      if IsSpace(t[0]) {
        assert (t + post)[1..] == t[1..] + post;
        TrimStartOfConcat(t[1..], post);
      }
    } else {
      assert t + post == post;
    }
  }

  /** Surrounding a string with whitespace does not change what `strip()` gives. */
  lemma StripIgnoresPadding(pre: string, t: string, post: string)
    requires AllSpace(pre) && AllSpace(post)
    ensures Strip(pre + t + post) == Strip(t)
  {
    assert pre + t + post == pre + (t + post);
    TrimStartSkipsPadding(pre, t + post);
    TrimStartOfConcat(t, post);
    if TrimStart(t) == [] {
      TrimStartSkipsPadding(post, []);
      assert post + [] == post;
    } else {
      TrimEndSkipsPadding(TrimStart(t), post);
    }
  }
}
