/**
 * The pieces of Go's strings package that the modelled code uses: TrimSpace, Index and LastIndex.
 * Strings are sequences of characters.
 */
module Text {

  /** unicode.IsSpace. */
  predicate IsSpace(c: char) {
    var n := c as int;
    || 9 <= n <= 13 || n == 32 || n == 0x85 || n == 0xA0 || n == 0x1680 || 0x2000 <= n <= 0x200A
    || n == 0x2028 || n == 0x2029 || n == 0x202F || n == 0x205F || n == 0x3000
  }

  predicate Blank(s: string) {
    forall i :: 0 <= i < |s| ==> IsSpace(s[i])
  }

  function TrimLeft(s: string): string {
    if s != "" && IsSpace(s[0]) then TrimLeft(s[1..]) else s
  }

  function TrimRight(s: string): string {
    if s != "" && IsSpace(s[|s| - 1]) then TrimRight(s[..|s| - 1]) else s
  }

  function Trim(s: string): string {
    TrimRight(TrimLeft(s))
  }

  predicate At(s: string, pat: string, i: int) {
    0 <= i <= |s| - |pat| && s[i..i + |pat|] == pat
  }

  /** The first occurrence at or after `from`, or -1. */
  function IndexFrom(s: string, pat: string, from: nat): (r: int)
    ensures -1 <= r <= |s| - |pat| || r == -1
    decreases |s| - from
  {
    if from + |pat| > |s| then -1
    else if At(s, pat, from) then from
    else IndexFrom(s, pat, from + 1)
  }

  function Index(s: string, pat: string): int {
    IndexFrom(s, pat, 0)
  }

  /** The last occurrence at or before `upTo`, or -1. */
  function LastIndexFrom(s: string, pat: string, upTo: int): (r: int)
    ensures -1 <= r <= |s| - |pat| || r == -1
    decreases upTo
  {
    if upTo < 0 then -1
    else if At(s, pat, upTo) then upTo
    else LastIndexFrom(s, pat, upTo - 1)
  }

  function LastIndex(s: string, pat: string): int {
    LastIndexFrom(s, pat, |s| - |pat|)
  }

  lemma {:induction false} TrimLeftMeans(s: string)
    ensures |TrimLeft(s)| <= |s|
    ensures s == s[..|s| - |TrimLeft(s)|] + TrimLeft(s)
    ensures Blank(s[..|s| - |TrimLeft(s)|])
    ensures TrimLeft(s) != "" ==> !IsSpace(TrimLeft(s)[0])
    decreases |s|
  {
    if s != "" && IsSpace(s[0]) {
      TrimLeftMeans(s[1..]);
      var n := |s| - |TrimLeft(s)|;
      assert s[..n] == [s[0]] + s[1..][..n - 1];
    }
  }

  lemma {:induction false} TrimRightMeans(s: string)
    ensures |TrimRight(s)| <= |s|
    ensures s == TrimRight(s) + s[|TrimRight(s)|..]
    ensures Blank(s[|TrimRight(s)|..])
    ensures TrimRight(s) != "" ==> !IsSpace(TrimRight(s)[|TrimRight(s)| - 1])
    decreases |s|
  {
    if s != "" && IsSpace(s[|s| - 1]) {
      var init := s[..|s| - 1];
      TrimRightMeans(init);
      SnocSuffix(s, |TrimRight(init)|);
    }
  }

  lemma SnocSuffix(s: string, n: nat)
    requires n < |s| && IsSpace(s[|s| - 1]) && Blank(s[..|s| - 1][n..])
    ensures s[..|s| - 1][..n] + s[n..] == s && Blank(s[n..])
  {
    assert s[n..] == s[..|s| - 1][n..] + [s[|s| - 1]];
  }

  lemma {:induction false} IndexFromMeans(s: string, pat: string, from: nat)
    ensures var r := IndexFrom(s, pat, from);
            && (r >= 0 ==> from <= r && At(s, pat, r))
            && forall i :: from <= i && (r < 0 || i < r) ==> !At(s, pat, i)
    decreases |s| - from
  {
    if from + |pat| <= |s| && !At(s, pat, from) {
      IndexFromMeans(s, pat, from + 1);
    }
  }

  lemma {:induction false} LastIndexFromMeans(s: string, pat: string, upTo: int)
    ensures var r := LastIndexFrom(s, pat, upTo);
            && (r >= 0 ==> r <= upTo && At(s, pat, r))
            && forall i :: r < i <= upTo ==> !At(s, pat, i)
    decreases upTo
  {
    if upTo >= 0 && !At(s, pat, upTo) {
      LastIndexFromMeans(s, pat, upTo - 1);
    }
  }

  // ---- Trimming around a middle part ----

  lemma {:induction false} TrimLeftOf(x: string, y: string)
    ensures TrimLeft(x + y) == if Blank(x) then TrimLeft(y) else TrimLeft(x) + y
    decreases |x|
  {
    if x == "" {
      assert x + y == y;
    } else {
      assert (x + y)[1..] == x[1..] + y;
      if IsSpace(x[0]) {
        TrimLeftOf(x[1..], y);
        assert x == [x[0]] + x[1..];
        assert Blank(x) <==> Blank(x[1..]);
      }
    }
  }

  lemma {:induction false} TrimRightOf(x: string, y: string)
    ensures TrimRight(x + y) == if Blank(y) then TrimRight(x) else x + TrimRight(y)
    decreases |y|
  {
    if y == "" {
      assert x + y == x;
    } else {
      var init, last := y[..|y| - 1], y[|y| - 1];
      assert y == init + [last];
      assert (x + y)[..|x| + |y| - 1] == x + init;
      if IsSpace(last) {
        TrimRightOf(x, init);
        assert Blank(y) <==> Blank(init);
      }
    }
  }

  /** A text that begins and ends with something visible. */
  predicate Visible(s: string) {
    s != "" && !IsSpace(s[0]) && !IsSpace(s[|s| - 1])
  }

  lemma BlankTrims(s: string)
    requires Blank(s)
    ensures TrimLeft(s) == "" && TrimRight(s) == ""
  {
    TrimLeftOf(s, "");
    TrimRightOf("", s);
    assert s + "" == s && "" + s == s;
  }

  lemma TrimLeftAround(p: string, y: string)
    requires y != "" && !IsSpace(y[0])
    ensures TrimLeft(p + y) == TrimLeft(p) + y
  {
    TrimLeftOf(p, y);
    if Blank(p) { BlankTrims(p); assert "" + y == y; }
  }

  lemma TrimRightAround(x: string, q: string)
    requires x != "" && !IsSpace(x[|x| - 1])
    ensures TrimRight(x + q) == x + TrimRight(q)
  {
    TrimRightOf(x, q);
    if Blank(q) { BlankTrims(q); assert x + "" == x; }
  }

  /** Around a visible text, trimming removes the outer space only. */
  lemma TrimAround(p: string, mid: string, q: string)
    requires Visible(mid)
    ensures Trim(p + mid + q) == TrimLeft(p) + mid + TrimRight(q)
  {
    hide TrimLeft, TrimRight;
    assert p + mid + q == p + (mid + q);
    TrimLeftAround(p, mid + q);
    assert TrimLeft(p) + (mid + q) == (TrimLeft(p) + mid) + q;
    TrimRightAround(TrimLeft(p) + mid, q);
  }

  lemma TrimIsSmaller(s: string)
    ensures |Trim(s)| <= |s|
  {
    TrimLeftMeans(s);
    TrimRightMeans(TrimLeft(s));
  }

  lemma TrimTwice(s: string)
    ensures Trim(TrimLeft(s)) == Trim(s) && TrimRight(TrimRight(s)) == TrimRight(s)
  {
    TrimLeftMeans(s);
    TrimRightMeans(s);
  }

  lemma TrimKeepsOut(c: char, p: string)
    requires c !in p
    ensures c !in TrimLeft(p) && c !in TrimRight(p)
  {
    TrimLeftMeans(p);
    TrimRightMeans(p);
  }
}
