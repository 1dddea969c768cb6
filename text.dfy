/**
  The few JavaScript string operations the site relies on: `trim`, `split(' ')`,
  `join(' ')` and `startsWith`, stated on `seq<char>`.
*/
module Text {

  /** The characters `String.prototype.trim` removes: white space and line terminators. */
  predicate IsWhitespace(c: char)
  {
    var n := c as int;
    n == 0x09 || n == 0x0A || n == 0x0B || n == 0x0C || n == 0x0D || n == 0x20
    || n == 0xA0 || n == 0x1680 || (0x2000 <= n <= 0x200A) || n == 0x2028 || n == 0x2029
    || n == 0x202F || n == 0x205F || n == 0x3000 || n == 0xFEFF
  }

  /** `s` with its leading white space removed. */
  function TrimStart(s: string): string
  {
    if s != [] && IsWhitespace(s[0]) then TrimStart(s[1..]) else s
  }

  /** `s` with its trailing white space removed. */
  function TrimEnd(s: string): string
  {
    if s != [] && IsWhitespace(s[|s| - 1]) then TrimEnd(s[..|s| - 1]) else s
  }

  /** JavaScript's `s.trim()`. */
  function Trim(s: string): string
  {
    TrimEnd(TrimStart(s))
  }

  /** `TrimStart` removes a prefix made of white space, and exactly up to the first other character. */
  lemma {:induction false} TrimStartSpec(s: string)
    ensures |TrimStart(s)| <= |s| && TrimStart(s) == s[|s| - |TrimStart(s)|..]
    ensures TrimStart(s) == [] || !IsWhitespace(TrimStart(s)[0])
    ensures forall i :: 0 <= i < |s| - |TrimStart(s)| ==> IsWhitespace(s[i])
    decreases |s|
  {
    if s != [] && IsWhitespace(s[0]) {
      TrimStartSpec(s[1..]);
      forall i | 1 <= i < |s| - |TrimStart(s)| ensures IsWhitespace(s[i]) {
        assert s[i] == s[1..][i - 1];
      }
    }
  }

  /** `TrimEnd` removes a suffix made of white space, and exactly back to the last other character. */
  lemma {:induction false} TrimEndSpec(s: string)
    ensures |TrimEnd(s)| <= |s| && TrimEnd(s) == s[..|TrimEnd(s)|]
    ensures TrimEnd(s) == [] || !IsWhitespace(TrimEnd(s)[|TrimEnd(s)| - 1])
    ensures forall i :: |TrimEnd(s)| <= i < |s| ==> IsWhitespace(s[i])
    decreases |s|
  {
    if s != [] && IsWhitespace(s[|s| - 1]) {
      TrimEndSpec(s[..|s| - 1]);
    }
  }

  /** How many white-space characters `trim` removes from the start of `s`. */
  function LeadingWhitespace(s: string): nat
  {
    TrimStartSpec(s);
    |s| - |TrimStart(s)|
  }

  /**
    `trim()` returns the slice of `s` left once white space is removed at both
    ends, and that slice neither starts nor ends with white space.
  */
  lemma TrimSpec(s: string)
    ensures var r, k := Trim(s), LeadingWhitespace(s);
      && (r == [] || (!IsWhitespace(r[0]) && !IsWhitespace(r[|r| - 1])))
      && k + |r| <= |s|
      && r == s[k..k + |r|]
      && (forall i :: 0 <= i < k ==> IsWhitespace(s[i]))
      && (forall i :: k + |r| <= i < |s| ==> IsWhitespace(s[i]))
  {
    var t := TrimStart(s);
    TrimStartSpec(s);
    TrimEndSpec(t);
    var r := TrimEnd(t);
    var k := |s| - |t|;
    assert r == s[k..k + |r|];
    assert forall i :: k + |r| <= i < |s| ==> s[i] == t[i - k];
  }

  /** `ws.join(' ')`. */
  function Join(ws: seq<string>): string
  {
    if |ws| == 0 then ""
    else if |ws| == 1 then ws[0]
    else Join(ws[..|ws| - 1]) + " " + ws[|ws| - 1]
  }

  /**
    `s.split(' ')`: the pieces between single spaces, empty pieces included, so
    that joining them again with single spaces gives `s` back.
  */
  function Split(s: string): (r: seq<string>)
    ensures |r| >= 1
    ensures forall i :: 0 <= i < |r| ==> ' ' !in r[i]
    ensures Join(r) == s
  {
    if s == [] then [""]
    else
      var init := Split(s[..|s| - 1]);
      var c := s[|s| - 1];
      assert s == s[..|s| - 1] + [c];
      if c == ' ' then
        SplitEndsWithSpace(init);
        init + [""]
      else
        SplitExtendsWord(init, c);
        init[..|init| - 1] + [init[|init| - 1] + [c]]
  }

  /** The step of `Split` for a trailing space: a new empty piece. */
  lemma SplitEndsWithSpace(init: seq<string>)
    requires |init| >= 1
    ensures Join(init + [""]) == Join(init) + " "
  {
    assert (init + [""])[..|init|] == init;
  }

  /** The step of `Split` for any other character: it extends the last piece. */
  lemma SplitExtendsWord(init: seq<string>, c: char)
    requires |init| >= 1
    requires forall i :: 0 <= i < |init| ==> ' ' !in init[i]
    requires c != ' '
    ensures var r := init[..|init| - 1] + [init[|init| - 1] + [c]];
      && |r| == |init|
      && (forall i :: 0 <= i < |r| ==> ' ' !in r[i])
      && Join(r) == Join(init) + [c]
  {
    var n := |init|;
    var r := init[..n - 1] + [init[n - 1] + [c]];
    assert r[..n - 1] == init[..n - 1];
    forall i | 0 <= i < |r| ensures ' ' !in r[i] {
      if i < n - 1 {
        assert r[i] == init[i];
      } else {
        assert r[i] == init[n - 1] + [c];
      }
    }
  }

  /** `s.startsWith(p)`. */
  predicate StartsWith(s: string, p: string)
  {
    |p| <= |s| && s[..|p|] == p
  }

  /** Joining two non-empty lists is joining their joins. */
  lemma {:induction false} JoinAppend(a: seq<string>, b: seq<string>)
    requires a != [] && b != []
    ensures Join(a + b) == Join(a) + " " + Join(b)
    decreases |b|
  {
    var n := |b|;
    if n == 1 {
      assert (a + b)[..|a|] == a;
    } else {
      assert (a + b)[..|a + b| - 1] == a + b[..n - 1];
      JoinAppend(a, b[..n - 1]);
    }
  }

  /** Joining a prefix of a list is never longer than joining the whole list. */
  lemma {:induction false} JoinPrefixLength(ws: seq<string>, k: nat)
    requires 1 <= k <= |ws|
    ensures |Join(ws[..k])| <= |Join(ws)|
    decreases |ws|
  {
    if k < |ws| {
      var init := ws[..|ws| - 1];
      assert init[..k] == ws[..k];
      JoinPrefixLength(init, k);
    } else {
      assert ws[..k] == ws;
    }
  }

  /** Splitting on single spaces after appending a space and a space-free word. */
  lemma {:induction false} SplitAppendWord(s: string, w: string)
    requires ' ' !in w
    ensures Split(s + " " + w) == Split(s) + [w]
    decreases |w|
  {
    var x := s + " " + w;
    if w == [] {
      assert x[..|x| - 1] == s;
      SplitLast(x);
    } else {
      var c := w[|w| - 1];
      var u := w[..|w| - 1];
      assert w == u + [c];
      assert ' ' !in u by {
        forall i | 0 <= i < |u| ensures u[i] != ' ' { assert u[i] == w[i]; }
      }
      assert x[..|x| - 1] == s + " " + u;
      SplitAppendWord(s, u);
      SplitLast(x);
      var init := Split(s) + [u];
      assert init[..|init| - 1] == Split(s);
    }
  }

  /** One unfolding of `Split` on its last character. */
  lemma SplitLast(x: string)
    requires x != []
    ensures var init := Split(x[..|x| - 1]);
      Split(x) == if x[|x| - 1] == ' ' then init + [""]
                  else init[..|init| - 1] + [init[|init| - 1] + [x[|x| - 1]]]
  {
  }

  /** `split(' ')` undoes `join(' ')` on non-empty lists of space-free words. */
  lemma {:induction false} SplitJoin(ws: seq<string>)
    requires |ws| >= 1
    requires forall i :: 0 <= i < |ws| ==> ' ' !in ws[i]
    ensures Split(Join(ws)) == ws
    decreases |ws|
  {
    var n := |ws|;
    if n == 1 {
      SplitWord(ws[0]);
    } else {
      var init := ws[..n - 1];
      SplitJoin(init);
      SplitAppendWord(Join(init), ws[n - 1]);
      assert ws == init + [ws[n - 1]];
    }
  }

  /** A space-free string splits into itself alone. */
  lemma {:induction false} SplitWord(w: string)
    requires ' ' !in w
    ensures Split(w) == [w]
    decreases |w|
  {
    if w != [] {
      var u := w[..|w| - 1];
      assert ' ' !in u by {
        forall i | 0 <= i < |u| ensures u[i] != ' ' { assert u[i] == w[i]; }
      }
      SplitWord(u);
      assert w == u + [w[|w| - 1]];
    }
  }
}
