/**
 * Finding the JSON object in a model's answer, which may wrap it in prose or in a code fence
 * (internal/translate/client.go).
 */
module JsonExtraction {

  import opened Text

  const FENCE := "```"

  // ---- The function and its code ----

  /** The Go expression s[i:k]; the code takes no other kind of piece. */
  function Slice(s: string, i: nat, k: nat): string
    requires i <= k <= |s|
  {
    s[i..k]
  }

  function WithoutFirstLine(s: string): string {
    var j := Index(s, "\n");
    if j >= 0 then Trim(Slice(s, j + 1, |s|)) else s
  }

  function UpToLast(s: string, fence: string): string {
    var k := LastIndex(s, fence);
    if k >= 0 then Trim(Slice(s, 0, k)) else s
  }

  /** From the first opening brace to the last closing one, if they are in that order. */
  function Braces(s: string): string {
    var first, last := Index(s, "{"), LastIndex(s, "}");
    if first < 0 || last <= first then s else Slice(s, first, last + 1)
  }

  /** `fence` is always FENCE; naming it keeps the proofs about it general. */
  function InFence(t: string, fence: string): string {
    var i := Index(t, fence);
    if i >= 0 then UpToLast(WithoutFirstLine(Trim(Slice(t, i + |fence|, |t|))), fence) else t
  }

  function ExtractFrom(s: string, fence: string): string {
    Braces(InFence(Trim(s), fence))
  }

  function Extract(s: string): string {
    ExtractFrom(s, FENCE)
  }

  method ExtractJSONObject(input: string) returns (s: string)
    ensures s == Extract(input)
  {
    hide Trim, IndexFrom, LastIndexFrom, Slice;
    s := Trim(input);
    var i := Index(s, FENCE);
    if i >= 0 {
      s := Trim(Slice(s, i + |FENCE|, |s|));
      var j := Index(s, "\n");
      if j >= 0 {
        s := Trim(Slice(s, j + 1, |s|));
      }
      var k := LastIndex(s, FENCE);
      if k >= 0 {
        s := Trim(Slice(s, 0, k));
      }
    }
    var start := Index(s, "{");
    var end := LastIndex(s, "}");
    if start < 0 || end <= start {
      return s;
    }
    s := Slice(s, start, end + 1);
  }

  // ---- An object in prose ----

  /** A text that looks like an object from both ends. */
  predicate Object(j: string) {
    |j| >= 2 && j[0] == '{' && j[|j| - 1] == '}'
  }

  ghost predicate Free(s: string, fence: string) {
    forall i :: !At(s, fence, i)
  }

  lemma AtChar(s: string, c: char, i: int)
    requires 0 <= i < |s|
    ensures At(s, [c], i) <==> s[i] == c
  {
    assert s[i..i + 1] == [s[i]];
  }

  lemma CharIndex(s: string, c: char)
    ensures var r := Index(s, [c]);
            && (r >= 0 ==> r < |s| && s[r] == c)
            && forall i :: 0 <= i < |s| && (r < 0 || i < r) ==> s[i] != c
    ensures var r := LastIndex(s, [c]);
            && (r >= 0 ==> r < |s| && s[r] == c)
            && forall i :: r < i < |s| && i >= 0 ==> s[i] != c
  {
    IndexFromMeans(s, [c], 0);
    LastIndexFromMeans(s, [c], |s| - 1);
    forall i | 0 <= i < |s| ensures At(s, [c], i) <==> s[i] == c { AtChar(s, c, i); }
    hide IndexFrom, LastIndexFrom, At;
    var first, last := Index(s, [c]), LastIndex(s, [c]);
    assert first >= 0 ==> At(s, [c], first);
    assert last >= 0 ==> At(s, [c], last);
  }

  lemma FirstBrace(p: string, t: string)
    requires t != "" && t[0] == '{'
    ensures 0 <= Index(p + t, "{") <= |p| && (Index(p + t, "{") < |p| <==> '{' in p)
  {
    hide IndexFrom;
    var s := p + t;
    CharIndex(s, '{');
    assert s[|p|] == t[0];
    assert forall i :: 0 <= i < |p| ==> s[i] == p[i];
  }

  lemma LastBrace(t: string, q: string)
    requires t != "" && t[|t| - 1] == '}'
    ensures |t| - 1 <= LastIndex(t + q, "}") < |t + q| && (LastIndex(t + q, "}") >= |t| <==> '}' in q)
  {
    hide LastIndexFrom;
    var s := t + q;
    CharIndex(s, '}');
    assert s[|t| - 1] == t[|t| - 1];
    assert forall i :: 0 <= i < |q| ==> s[|t| + i] == q[i];
  }

  /** Where the braces of p + j + q lead. */
  lemma BracesAround(p: string, j: string, q: string)
    requires Object(j)
    ensures Braces(p + j + q) == j <==> '{' !in p && '}' !in q
  {
    hide IndexFrom, LastIndexFrom;
    var s := p + j + q;
    assert s == p + (j + q);
    FirstBrace(p, j + q);
    LastBrace(p + j, q);
    assert s[|p|..|p| + |j|] == j;
  }

  lemma StartsInPrefix(p: string, t: string, fence: string, i: int)
    requires fence != "" && At(p + t, fence, i) && i < |p|
    ensures fence[0] in p
  {
    assert (p + t)[i..i + |fence|][0] == p[i];
  }

  lemma EndsInSuffix(t: string, q: string, fence: string, i: int)
    requires fence != "" && At(t + q, fence, i) && i + |fence| > |t|
    ensures fence[|fence| - 1] in q
  {
    var n := |fence| - 1;
    assert (t + q)[i..i + |fence|][n] == q[i + n - |t|];
  }

  lemma AtInside(a: string, s: string, b: string, fence: string, i: int)
    requires At(s, fence, i)
    ensures At(a + s + b, fence, |a| + i)
  {
    assert (a + s + b)[|a| + i..|a| + i + |fence|] == s[i..i + |fence|];
  }

  lemma AtMiddle(a: string, s: string, b: string, fence: string, i: int)
    requires At(a + s + b, fence, i) && |a| <= i && i + |fence| <= |a| + |s|
    ensures At(s, fence, i - |a|)
  {
    assert (a + s + b)[i..i + |fence|] == s[i - |a|..i - |a| + |fence|];
  }

  lemma FreeInside(a: string, s: string, b: string, fence: string)
    requires Free(a + s + b, fence)
    ensures Free(s, fence)
  {
    forall i
      ensures !At(s, fence, i)
    {
      if At(s, fence, i) { AtInside(a, s, b, fence, i); }
    }
  }

  lemma TrimKeepsBraces(p: string, q: string)
    ensures '{' in TrimLeft(p) <==> '{' in p
    ensures '}' in TrimRight(q) <==> '}' in q
  {
    TrimLeftMeans(p);
    TrimRightMeans(q);
    assert !IsSpace('{') && !IsSpace('}');
    var space := p[..|p| - |TrimLeft(p)|];
    assert '{' !in space;
    assert p == space + TrimLeft(p);
    assert '}' !in q[|TrimRight(q)|..];
  }

  lemma RegroupTrimmed(p: string, l: string, j: string, q: string, r: string, a: string, b: string)
    requires p == a + l && q == r + b
    ensures p + j + q == a + (l + j + r) + b
  {
  }

  /** Without fences the object comes back exactly when no brace of the prose reaches over it. */
  lemma ProseRoundTrip(p: string, j: string, q: string)
    requires Object(j) && Free(p + j + q, FENCE)
    ensures Extract(p + j + q) == j <==> '{' !in p && '}' !in q
  {
    var l, r := TrimLeft(p), TrimRight(q);
    TrimLeftMeans(p);
    TrimRightMeans(q);
    TrimAround(p, j, q);
    RegroupTrimmed(p, l, j, q, r, p[..|p| - |l|], q[|r|..]);
    FreeInside(p[..|p| - |l|], l + j + r, q[|r|..], FENCE);
    IndexFromMeans(l + j + r, FENCE, 0);
    BracesAround(l, j, r);
    TrimKeepsBraces(p, q);
  }

  /** Prose without backticks around an object without a fence contains no fence. */
  lemma PlainProse(p: string, j: string, q: string, fence: string)
    requires fence != "" && fence[0] !in p && fence[|fence| - 1] !in q && Free(j, fence)
    ensures Free(p + j + q, fence)
  {
    forall i
      ensures !At(p + j + q, fence, i)
    {
      if At(p + j + q, fence, i) {
        assert p + j + q == p + (j + q);
        if i < |p| {
          StartsInPrefix(p, j + q, fence, i);
        } else if i + |fence| > |p| + |j| {
          EndsInSuffix(p + j, q, fence, i);
        } else {
          AtMiddle(p, j, q, fence, i);
        }
      }
    }
  }

  // ---- An object in a fence ----

  /** The first fence is the one that text without its first character leads up to. */
  lemma FirstFence(p: string, fence: string, y: string)
    requires fence != "" && fence[0] !in p
    ensures Index(p + fence + y, fence) == |p| && Slice(p + fence + y, |p| + |fence|, |p| + |fence| + |y|) == y
  {
    var s := p + fence + y;
    IndexFromMeans(s, fence, 0);
    assert s[|p|..|p| + |fence|] == fence;
    assert At(s, fence, |p|);
    assert s == p + (fence + y);
    var i := Index(s, fence);
    if i < |p| { StartsInPrefix(p, fence + y, fence, i); }
  }

  /** The last fence is the one that text without its last character follows. */
  lemma LastFence(x: string, fence: string, q: string)
    requires fence != "" && fence[|fence| - 1] !in q
    ensures LastIndex(x + fence + q, fence) == |x| && Slice(x + fence + q, 0, |x|) == x
  {
    var s := x + fence + q;
    LastIndexFromMeans(s, fence, |s| - |fence|);
    assert s[|x|..|x| + |fence|] == fence;
    assert At(s, fence, |x|);
    var k := LastIndex(s, fence);
    if k > |x| { EndsInSuffix(x + fence, q, fence, k); }
  }

  lemma FirstLineOf(line: string, rest: string)
    requires '\n' !in line
    ensures WithoutFirstLine(line + "\n" + rest) == Trim(rest)
  {
    FirstFence(line, "\n", rest);
  }

  lemma UpToLastOf(x: string, fence: string, q: string)
    requires Visible(fence) && fence[|fence| - 1] !in q && TrimRight(q) == q
    ensures UpToLast(Trim(x + fence + q), fence) == Trim(x)
  {
    TrimAround(x, fence, q);
    LastFence(TrimLeft(x), fence, q);
    TrimTwice(x);
  }

  lemma Regroup(a: string, b: string, c: string, d: string, e: string)
    ensures a + (b + c + d) + e == a + b + (c + d + e)
  {
  }

  /** The first fence opens, and what follows it is all that counts. */
  lemma Opened(p: string, fence: string, inner: string, q: string)
    requires Visible(fence) && fence[0] !in p
    ensures ExtractFrom(p + (fence + inner + fence) + q, fence)
         == Braces(UpToLast(WithoutFirstLine(Trim(inner + fence + TrimRight(q))), fence))
  {
    hide Trim, IndexFrom, LastIndexFrom, Slice, WithoutFirstLine, UpToLast, Braces;
    var l, r := TrimLeft(p), TrimRight(q);
    TrimAround(p, fence + inner + fence, q);
    Regroup(l, fence, inner, fence, r);
    TrimKeepsOut(fence[0], p);
    FirstFence(l, fence, inner + fence + r);
  }

  /** Of what follows the opening fence, the first line goes and the closing fence goes. */
  lemma Unfenced(line: string, x: string, fence: string, q: string, inner: string)
    requires Visible(fence) && fence[|fence| - 1] !in q && TrimRight(q) == q
    requires '\n' !in line && TrimLeft(inner) == line + "\n" + x
    ensures UpToLast(WithoutFirstLine(Trim(inner + fence + q)), fence) == Trim(x)
  {
    TrimAround(inner, fence, q);
    RegroupLine(line, x, fence, q);
    FirstLineOf(line, x + fence + q);
    UpToLastOf(x, fence, q);
  }

  lemma RegroupLine(line: string, x: string, fence: string, q: string)
    ensures (line + "\n" + x) + fence + q == line + "\n" + (x + fence + q)
  {
  }

  lemma ObjectTrims(j: string)
    requires Object(j)
    ensures Braces(Trim(j + "\n")) == j
  {
    TrimAround("", j, "\n");
    assert "" + j + "\n" == j + "\n";
    assert TrimRight("\n") == "";
    assert "" + j + "" == j;
    BracesAround("", j, "");
  }

  lemma SplitLine(x: string) returns (line: string, rest: string)
    requires '\n' in x
    ensures x == line + "\n" + rest && '\n' !in line
  {
    CharIndex(x, '\n');
    var i := Index(x, "\n");
    line, rest := x[..i], x[i + 1..];
  }

  lemma TaggedInner(tag: string, x: string)
    requires '\n' !in tag && !Blank(tag)
    ensures TrimLeft(tag + ("\n" + x)) == TrimLeft(tag) + "\n" + x && '\n' !in TrimLeft(tag)
  {
    TrimLeftOf(tag, "\n" + x);
    TrimKeepsOut('\n', tag);
    assert TrimLeft(tag) + ("\n" + x) == TrimLeft(tag) + "\n" + x;
  }

  lemma BareInner(tag: string, x: string) returns (line: string, rest: string)
    requires Blank(tag) && x != "" && !IsSpace(x[0]) && '\n' in x
    ensures TrimLeft(tag + ("\n" + x)) == line + "\n" + rest && '\n' !in line && |rest| <= |x| - 2
  {
    TrimLeftOf(tag, "\n" + x);
    TrimLeftOf("\n", x);
    line, rest := SplitLine(x);
    assert x[|line|] == '\n';
  }

  /** A fence line that names something is dropped, and the object comes back unchanged. */
  lemma TaggedFence(p: string, fence: string, tag: string, j: string, q: string)
    requires Visible(fence) && fence[0] !in p && fence[|fence| - 1] !in q
    requires Object(j) && '\n' !in tag && !Blank(tag)
    ensures ExtractFrom(p + (fence + (tag + ("\n" + (j + "\n"))) + fence) + q, fence) == j
  {
    var x := j + "\n";
    var inner := tag + ("\n" + x);
    Opened(p, fence, inner, q);
    TaggedInner(tag, x);
    TrimKeepsOut(fence[|fence| - 1], q);
    TrimTwice(q);
    Unfenced(TrimLeft(tag), x, fence, TrimRight(q), inner);
    ObjectTrims(j);
  }

  lemma BracesAreSmaller(s: string)
    ensures |Braces(s)| <= |s|
  {
  }

  lemma BareUnfenced(tag: string, x: string, fence: string, q: string)
    requires Visible(fence) && fence[|fence| - 1] !in q && TrimRight(q) == q
    requires Blank(tag) && |x| >= 2 && !IsSpace(x[0]) && x[|x| - 1] == '\n'
    ensures |UpToLast(WithoutFirstLine(Trim(tag + ("\n" + x) + fence + q)), fence)| <= |x| - 2
  {
    var line, rest := BareInner(tag, x);
    Unfenced(line, rest, fence, q, tag + ("\n" + x));
    TrimIsSmaller(rest);
  }

  lemma BareFenceShrinks(p: string, fence: string, tag: string, x: string, q: string)
    requires Visible(fence) && fence[0] !in p && fence[|fence| - 1] !in q
    requires Blank(tag) && |x| >= 2 && !IsSpace(x[0]) && x[|x| - 1] == '\n'
    ensures |ExtractFrom(p + (fence + (tag + ("\n" + x)) + fence) + q, fence)| <= |x| - 2
  {
    Opened(p, fence, tag + ("\n" + x), q);
    TrimKeepsOut(fence[|fence| - 1], q);
    TrimTwice(q);
    BareUnfenced(tag, x, fence, TrimRight(q));
    BracesAreSmaller(UpToLast(WithoutFirstLine(Trim(tag + ("\n" + x) + fence + TrimRight(q))), fence));
  }

  /** A bare fence costs the object its first line: the newline after the fence has been trimmed away. */
  lemma BareFence(p: string, fence: string, tag: string, j: string, q: string)
    requires Visible(fence) && fence[0] !in p && fence[|fence| - 1] !in q
    requires Object(j) && Blank(tag)
    ensures |ExtractFrom(p + (fence + (tag + ("\n" + (j + "\n"))) + fence) + q, fence)| < |j|
  {
    BareFenceShrinks(p, fence, tag, j + "\n", q);
  }

  function Fenced(p: string, tag: string, j: string, q: string): string {
    p + (FENCE + (tag + ("\n" + (j + "\n"))) + FENCE) + q
  }

  /**
   * In a fence the object comes back exactly when the fence line names something.  The object
   * itself may hold newlines, braces and even fences.
   */
  lemma FenceRoundTrip(p: string, tag: string, j: string, q: string)
    requires Object(j) && '`' !in p && '`' !in q && '\n' !in tag
    ensures Extract(Fenced(p, tag, j, q)) == j <==> !Blank(tag)
  {
    assert FENCE[0] == '`' && FENCE[2] == '`';
    if Blank(tag) {
      BareFence(p, FENCE, tag, j, q);
    } else {
      TaggedFence(p, FENCE, tag, j, q);
    }
  }

  // ---- Fences that are not closed, or not on lines of their own ----

  lemma UnclosedLine(tag: string, j: string, r: string)
    requires Object(j) && '\n' !in tag && !Blank(tag) && TrimRight(r) == r
    ensures WithoutFirstLine(Trim(tag + ("\n" + j) + r)) == j + r
  {
    hide IndexFrom, Slice, TrimLeft, TrimRight, WithoutFirstLine;
    assert tag + ("\n" + j) + r == (tag + "\n") + j + r;
    TrimAround(tag + "\n", j, r);
    TrimLeftOf(tag, "\n");
    TrimKeepsOut('\n', tag);
    assert (TrimLeft(tag) + "\n") + j + r == TrimLeft(tag) + "\n" + (j + r);
    FirstLineOf(TrimLeft(tag), j + r);
    TrimFrom(j, r);
  }

  /** What starts with the object keeps it at its start. */
  lemma TrimFrom(j: string, r: string)
    requires Object(j)
    ensures Trim(j + r) == j + TrimRight(r)
  {
    TrimAround("", j, r);
    assert "" + j + r == j + r && TrimLeft("") + j + TrimRight(r) == j + TrimRight(r);
  }

  lemma FreeTrimmed(j: string, q: string, fence: string)
    requires Free(j + q, fence)
    ensures Free(j + TrimRight(q), fence)
  {
    TrimRightMeans(q);
    var r := TrimRight(q);
    assert j + q == "" + (j + r) + q[|r|..];
    FreeInside("", j + r, q[|r|..], fence);
  }

  lemma BracesFrom(j: string, r: string)
    requires Object(j)
    ensures Braces(j + r) == j <==> '}' !in r
  {
    hide Braces;
    assert "" + j + r == j + r;
    BracesAround("", j, r);
  }

  /** An answer cut off before its closing fence still yields the object, unless a brace follows it. */
  lemma UnclosedFence(p: string, fence: string, tag: string, j: string, q: string)
    requires Visible(fence) && fence[0] !in p && Free(j + q, fence)
    requires Object(j) && '\n' !in tag && !Blank(tag)
    ensures ExtractFrom(p + (fence + (tag + ("\n" + j))) + q, fence) == j <==> '}' !in q
  {
    hide IndexFrom, LastIndexFrom, TrimLeft, TrimRight, Slice, Braces, WithoutFirstLine, Free;
    var l, r, inner := TrimLeft(p), TrimRight(q), tag + ("\n" + j);
    TrimAround(p, fence + inner, q);
    assert l + (fence + inner) + r == l + fence + (inner + r);
    TrimKeepsOut(fence[0], p);
    FirstFence(l, fence, inner + r);
    TrimTwice(q);
    UnclosedLine(tag, j, r);
    FreeTrimmed(j, q, fence);
    NotFound(j + r, fence);
    BracesFrom(j, r);
    TrimKeepsBraces(p, q);
  }

  lemma NotFound(s: string, fence: string)
    requires Free(s, fence)
    ensures UpToLast(s, fence) == s
  {
    LastIndexFromMeans(s, fence, |s| - |fence|);
  }

  lemma OneLine(s: string)
    requires '\n' !in s
    ensures WithoutFirstLine(s) == s
  {
    CharIndex(s, '\n');
  }

  lemma LineOfFence(inner: string, fence: string, q: string)
    requires Visible(fence) && '\n' !in inner && '\n' !in fence && '\n' !in TrimRight(q)
    ensures WithoutFirstLine(Trim(inner + fence + TrimRight(q))) == TrimLeft(inner) + fence + TrimRight(q)
  {
    hide IndexFrom, Slice, WithoutFirstLine;
    TrimAround(inner, fence, TrimRight(q));
    TrimTwice(q);
    TrimKeepsOut('\n', inner);
    OneLine(TrimLeft(inner) + fence + TrimRight(q));
  }

  /** A fence opened and closed on one line, with nothing below it: only braces beside the object disturb it. */
  lemma OneLineFence(p: string, fence: string, a: string, j: string, b: string, q: string)
    requires Visible(fence) && fence[0] !in p && fence[|fence| - 1] !in q && '\n' !in fence
    requires Object(j) && '\n' !in a + j + b && '\n' !in TrimRight(q)
    ensures ExtractFrom(p + (fence + (a + j + b) + fence) + q, fence) == j <==> '{' !in a && '}' !in b
  {
    hide IndexFrom, LastIndexFrom, TrimLeft, TrimRight, Slice, Braces, WithoutFirstLine, UpToLast;
    var inner, r := a + j + b, TrimRight(q);
    Opened(p, fence, inner, q);
    LineOfFence(inner, fence, q);
    TrimKeepsOut(fence[|fence| - 1], q);
    LastPiece(TrimLeft(inner), fence, r);
    TrimTwice(inner);
    TrimAround(a, j, b);
    BracesAround(TrimLeft(a), j, TrimRight(b));
    TrimKeepsBraces(a, b);
  }

  lemma LastPiece(x: string, fence: string, q: string)
    requires fence != "" && fence[|fence| - 1] !in q
    ensures UpToLast(x + fence + q, fence) == Trim(x)
  {
    hide TrimLeft, TrimRight;
    LastFence(x, fence, q);
  }

  /** With text on the lines below such a fence the object is dropped unread: only that text is searched. */
  lemma OneLineFenceThenProse(
    p: string, fence: string, inner: string, q: string, line: string, rest: string)
    requires Visible(fence) && fence[0] !in p && fence[|fence| - 1] !in q && '\n' !in fence
    requires '\n' !in inner && '\n' !in line && TrimRight(q) == line + "\n" + rest
    ensures Within(ExtractFrom(p + (fence + inner + fence) + q, fence), rest)
  {
    hide IndexFrom, LastIndexFrom, TrimLeft, TrimRight, Slice, Braces, WithoutFirstLine, UpToLast, Within, Free;
    Opened(p, fence, inner, q);
    TrimAround(inner, fence, TrimRight(q));
    TrimTwice(q);
    TrimKeepsOut('\n', inner);
    var first := TrimLeft(inner) + fence + line;
    assert TrimLeft(inner) + fence + (line + "\n" + rest) == first + "\n" + rest;
    FirstLineOf(first, rest);
    UpToLastWithin(Trim(rest), fence);
    TrimWithin(rest);
    WithinTransitive(UpToLast(Trim(rest), fence), Trim(rest), rest);
    BracesWithin(UpToLast(Trim(rest), fence));
    WithinTransitive(Braces(UpToLast(Trim(rest), fence)), UpToLast(Trim(rest), fence), rest);
  }

  // ---- Any answer ----

  /** `r` is a piece of `s`. */
  ghost predicate Within(r: string, s: string) {
    exists a, b :: s == a + r + b
  }

  lemma WithinTransitive(a: string, b: string, c: string)
    requires Within(a, b) && Within(b, c)
    ensures Within(a, c)
  {
    var p, q :| b == p + a + q;
    var l, m :| c == l + b + m;
    assert c == (l + p) + a + (q + m);
  }

  lemma WholeWithin(s: string)
    ensures Within(s, s)
  {
    assert s == "" + s + "";
  }

  lemma SliceWithin(s: string, i: nat, k: nat)
    requires i <= k <= |s|
    ensures Within(Slice(s, i, k), s)
  {
    assert s == s[..i] + s[i..k] + s[k..];
  }

  lemma TrimLeftWithin(s: string)
    ensures Within(TrimLeft(s), s)
  {
    TrimLeftMeans(s);
    assert s == s[..|s| - |TrimLeft(s)|] + TrimLeft(s) + "";
  }

  lemma TrimRightWithin(s: string)
    ensures Within(TrimRight(s), s)
  {
    TrimRightMeans(s);
    assert s == "" + TrimRight(s) + s[|TrimRight(s)|..];
  }

  lemma TrimWithin(s: string)
    ensures Within(Trim(s), s)
  {
    TrimLeftWithin(s);
    TrimRightWithin(TrimLeft(s));
    WithinTransitive(Trim(s), TrimLeft(s), s);
  }

  lemma TrimmedPieceWithin(r: string, s: string)
    requires Within(r, s)
    ensures Within(Trim(r), s)
  {
    TrimWithin(r);
    WithinTransitive(Trim(r), r, s);
  }

  lemma FirstLineWithin(s: string)
    ensures Within(WithoutFirstLine(s), s)
  {
    hide Trim, IndexFrom, Slice, Within;
    WholeWithin(s);
    var j := Index(s, "\n");
    if j >= 0 {
      SliceWithin(s, j + 1, |s|);
      TrimmedPieceWithin(Slice(s, j + 1, |s|), s);
    }
  }

  lemma UpToLastWithin(s: string, fence: string)
    ensures Within(UpToLast(s, fence), s)
  {
    hide Trim, LastIndexFrom, Slice, Within;
    WholeWithin(s);
    var k := LastIndex(s, fence);
    if k >= 0 {
      SliceWithin(s, 0, k);
      TrimmedPieceWithin(Slice(s, 0, k), s);
    }
  }

  lemma BracesWithin(s: string)
    ensures Within(Braces(s), s)
  {
    WholeWithin(s);
    var first, last := Index(s, "{"), LastIndex(s, "}");
    if 0 <= first < last { SliceWithin(s, first, last + 1); }
  }

  lemma LinesWithin(u: string, fence: string, t: string)
    requires Within(u, t)
    ensures Within(UpToLast(WithoutFirstLine(u), fence), t)
  {
    FirstLineWithin(u);
    WithinTransitive(WithoutFirstLine(u), u, t);
    UpToLastWithin(WithoutFirstLine(u), fence);
    WithinTransitive(UpToLast(WithoutFirstLine(u), fence), WithoutFirstLine(u), t);
  }

  lemma InFenceWithin(t: string, fence: string)
    requires fence != ""
    ensures Within(InFence(t, fence), t)
  {
    hide Trim, IndexFrom, Slice, Within, WithoutFirstLine, UpToLast;
    var i := Index(t, fence);
    if i < 0 {
      WholeWithin(t);
    } else {
      SliceWithin(t, i + |fence|, |t|);
      TrimmedPieceWithin(Slice(t, i + |fence|, |t|), t);
      LinesWithin(Trim(Slice(t, i + |fence|, |t|)), fence, t);
    }
  }

  lemma ExtractFromIsWithin(s: string, fence: string)
    requires fence != ""
    ensures Within(ExtractFrom(s, fence), s)
  {
    var t := Trim(s);
    TrimWithin(s);
    InFenceWithin(t, fence);
    WithinTransitive(InFence(t, fence), t, s);
    BracesWithin(InFence(t, fence));
    WithinTransitive(ExtractFrom(s, fence), InFence(t, fence), s);
  }

  /** Whatever the model answers, the result is a piece of the answer: nothing is invented or rearranged. */
  lemma ExtractIsWithin(s: string)
    ensures Within(Extract(s), s)
  {
    ExtractFromIsWithin(s, FENCE);
  }
}
