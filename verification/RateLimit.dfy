/**
 * The per-key fixed-window counter that guards the public endpoints
 * (internal/ratelimit/window.go).
 *
 * The counter is specified by what one call does to a table of entries; the class
 * below is proved to do exactly that with mutable entries behind a map.  The
 * theorems then bound whole traces of calls, for one key among many.
 */
module RateLimit {

  datatype Entry = Entry(count: int, reset: int)

  /** One call of Allow; `now` is the instant sampled before the lock is taken. */
  datatype Call = Call(key: string, limit: int, window: int, now: int)

  type Table = map<string, Entry>

  predicate Opens(m: Table, c: Call) {
    c.key !in m || c.now > m[c.key].reset
  }

  predicate Admitted(m: Table, c: Call) {
    c.limit <= 0 || Opens(m, c) || m[c.key].count < c.limit
  }

  function After(m: Table, c: Call): Table {
    if c.limit <= 0 then m
    else if Opens(m, c) then m[c.key := Entry(1, c.now + c.window)]
    else if m[c.key].count < c.limit then m[c.key := Entry(m[c.key].count + 1, m[c.key].reset)]
    else m
  }

  /** The table after a whole trace, calls in the order in which they took the lock. */
  function Final(m: Table, cs: seq<Call>): Table {
    if cs == [] then m else After(Final(m, cs[..|cs| - 1]), cs[|cs| - 1])
  }

  /** How many calls for `key` with a time in the closed interval [a, b] the trace admitted. */
  function Admits(m: Table, cs: seq<Call>, key: string, a: int, b: int): nat
    decreases |cs|
  {
    if cs == [] then 0
    else
      var c := cs[0];
      (if c.key == key && a <= c.now <= b && Admitted(m, c) then 1 else 0)
      + Admits(After(m, c), cs[1..], key, a, b)
  }

  // ---- The class ----

  class WindowEntry {
    var count: int
    var reset: int

    constructor (count: int, reset: int)
      ensures this.count == count && this.reset == reset
    {
      this.count, this.reset := count, reset;
    }
  }

  class Window {
    var m: map<string, WindowEntry>
    ghost var history: seq<Call>

    ghost function View(): Table
      reads this`m, m.Values
    {
      map k | k in m :: Entry(m[k].count, m[k].reset)
    }

    /** Keys never share an entry, so that updating one in place leaves the others alone. */
    ghost predicate Unshared()
      reads this`m, m.Values
    {
      forall k, l :: k in m && l in m && k != l ==> m[k] != m[l]
    }

    ghost predicate Valid()
      reads this, m.Values
    {
      Unshared() && View() == Final(map[], history)
    }

    constructor ()
      ensures Valid() && history == [] && View() == map[] && m.Values == {}
    {
      m, history := map[], [];
    }

    /** Installs a fresh entry with the first call of a window. */
    method Open(key: string, reset: int)
      requires Unshared()
      modifies this`m
      ensures Unshared() && fresh(m.Values - old(m.Values))
      ensures View() == old(View())[key := Entry(1, reset)]
    {
      var e := new WindowEntry(1, reset);
      m := m[key := e];
    }

    /** Counts one more call in the entry of `key`, in place. */
    method Increment(key: string)
      requires Unshared() && key in m
      modifies m[key]
      ensures Unshared()
      ensures View() == old(View())[key := Entry(old(m[key].count) + 1, old(m[key].reset))]
    {
      var e := m[key];
      e.count := e.count + 1;
    }

    ghost method Record(c: Call)
      requires Unshared() && View() == After(Final(map[], history), c)
      modifies this`history
      ensures Valid() && history == old(history) + [c]
    {
      FinalSnoc(history, c);
      history := history + [c];
    }

    method Allow(key: string, limit: int, window: int, now: int) returns (ok: bool)
      requires Valid()
      modifies this, m.Values
      ensures Valid() && fresh(m.Values - old(m.Values))
      ensures history == old(history) + [Call(key, limit, window, now)]
      ensures ok == Admitted(old(View()), Call(key, limit, window, now))
      ensures limit <= 0 ==> ok && View() == old(View())
      ensures forall k :: k != key ==>
                (k in View() <==> k in old(View())) && (k in View() ==> View()[k] == old(View())[k])
      ensures View() == After(old(View()), Call(key, limit, window, now))
    {
      ghost var c, before := Call(key, limit, window, now), View();
      if limit <= 0 {
        ok := true;
      } else if key !in m || now > m[key].reset {
        Open(key, now + window);
        ok := true;
      } else if m[key].count >= limit {
        ok := false;
      } else {
        Increment(key);
        ok := true;
      }
      assert View() == After(before, c);
      Record(c);
    }
  }

  lemma FinalSnoc(cs: seq<Call>, c: Call)
    ensures Final(map[], cs + [c]) == After(Final(map[], cs), c)
  {
    assert (cs + [c])[..|cs|] == cs;
  }

  // ---- Traces of one key ----

  /** Every call for `key` carries the same limit and window. */
  ghost predicate Uniform(cs: seq<Call>, key: string, limit: int, window: int) {
    forall i :: 0 <= i < |cs| && cs[i].key == key ==> cs[i].limit == limit && cs[i].window == window
  }

  /**
   * Calls for `key` take the lock at most `skew` later than a call sampled after them;
   * skew 0 says that their times never decrease.
   */
  ghost predicate Skewed(cs: seq<Call>, key: string, skew: int) {
    forall i, j :: 0 <= i < j < |cs| && cs[i].key == key && cs[j].key == key ==> cs[j].now >= cs[i].now - skew
  }

  /** Calls that fit into the windows covering a stretch of length `d`: one full limit for each. */
  function Capacity(limit: int, d: int, w: int): int
    requires w > 0
    decreases d
  {
    if d <= 0 then 0 else limit + Capacity(limit, d - w, w)
  }

  /** The most calls any closed interval of length `d` can see. */
  function Bound(limit: int, w: int, d: int): int
    requires w > 0
  {
    if d <= 0 then limit else limit - 1 + Capacity(limit, d, w)
  }

  lemma {:induction false} CapacityMonotone(limit: int, d: int, e: int, w: int)
    requires w > 0 && d <= e && limit >= 0
    ensures 0 <= Capacity(limit, d, w) <= Capacity(limit, e, w)
    decreases e
  {
    if e > 0 {
      CapacityMonotone(limit, d - w, e - w, w);
    }
  }

  /** Capacity is the limit times the length over the window, rounded up. */
  lemma {:induction false} CapacityIsCeiling(limit: int, d: int, w: int, n: nat)
    requires w > 0 && n >= 1 && (n - 1) * w < d <= n * w
    ensures Capacity(limit, d, w) == n * limit
    decreases n
  {
    if n == 1 {
      assert n * w == w;
    } else {
      assert (n - 1) * w == (n - 2) * w + w && n * w == (n - 1) * w + w;
      CapacityIsCeiling(limit, d - w, w, n - 1);
      assert n * limit == (n - 1) * limit + limit;
    }
  }

  /** What the entry of `key` still allows inside [a, b]; `e` is b plus the skew. */
  function Credit(m: Table, key: string, limit: int, w: int, a: int, e: int): int
    requires w > 0
  {
    if key !in m || m[key].reset < a then Bound(limit, w, e - a)
    else limit - m[key].count + Capacity(limit, e - m[key].reset, w)
  }

  ghost predicate Counted(m: Table, key: string, limit: int) {
    key in m ==> m[key].count <= limit
  }

  lemma {:induction false} NothingAfter(m: Table, cs: seq<Call>, key: string, a: int, b: int)
    requires forall i :: 0 <= i < |cs| && cs[i].key == key ==> cs[i].now > b
    ensures Admits(m, cs, key, a, b) == 0
    decreases |cs|
  {
    if cs != [] {
      NothingAfter(After(m, cs[0]), cs[1..], key, a, b);
    }
  }

  /** One call for `key` no later than `e` pays for itself out of the credit. */
  lemma CreditPays(m: Table, c: Call, a: int, b: int, e: int)
    requires c.limit >= 1 && c.window > 0 && a <= b <= e && c.now <= e
    requires Counted(m, c.key, c.limit)
    ensures Counted(After(m, c), c.key, c.limit)
    ensures (if a <= c.now <= b && Admitted(m, c) then 1 else 0)
            + Credit(After(m, c), c.key, c.limit, c.window, a, e)
            <= Credit(m, c.key, c.limit, c.window, a, e)
  {
    var l, w := c.limit, c.window;
    if Opens(m, c) {
      var r := c.now + w;
      if r >= a {
        CapacityMonotone(l, e - r, e - a, w);
      }
      if c.key in m && m[c.key].reset >= a {
        CapacityMonotone(l, e - r, e - m[c.key].reset - w, w);
      } else if c.now >= a {
        CapacityMonotone(l, e - r, e - a - w, w);
      }
    }
  }

  lemma {:induction false} AdmitsWithinCredit(
      m: Table, cs: seq<Call>, key: string, limit: int, w: int, skew: int, a: int, b: int)
    requires limit >= 1 && w > 0 && skew >= 0 && a <= b
    requires Uniform(cs, key, limit, w) && Skewed(cs, key, skew)
    requires Counted(m, key, limit)
    ensures Admits(m, cs, key, a, b) <= Credit(m, key, limit, w, a, b + skew)
    decreases |cs|
  {
    if cs == [] {
      CapacityMonotone(limit, b + skew - a, b + skew - a, w);
      if key in m {
        CapacityMonotone(limit, b + skew - m[key].reset, b + skew - m[key].reset, w);
      }
    } else {
      var c, rest := cs[0], cs[1..];
      assert Uniform(rest, key, limit, w) && Skewed(rest, key, skew);
      if c.key == key && c.now > b + skew {
        NothingAfter(After(m, c), rest, key, a, b);
        CapacityMonotone(limit, b + skew - a, b + skew - a, w);
        if key in m {
          CapacityMonotone(limit, b + skew - m[key].reset, b + skew - m[key].reset, w);
        }
      } else {
        if c.key == key {
          CreditPays(m, c, a, b, b + skew);
        }
        AdmitsWithinCredit(After(m, c), rest, key, limit, w, skew, a, b);
      }
    }
  }

  /**
   * The rate limit over every trace: a closed interval [a, b] sees at most
   * limit - 1 calls left over from a window begun earlier, plus one full limit for
   * each window that fits, even when lock order and clock order disagree by `skew`.
   */
  lemma SlidingBound(cs: seq<Call>, key: string, limit: int, w: int, skew: int, a: int, b: int)
    requires limit >= 1 && w > 0 && skew >= 0 && a <= b
    requires Uniform(cs, key, limit, w) && Skewed(cs, key, skew)
    ensures Admits(map[], cs, key, a, b) <= Bound(limit, w, b - a + skew)
  {
    AdmitsWithinCredit(map[], cs, key, limit, w, skew, a, b);
  }

  /** With times that never decrease, n consecutive windows see at most (n + 1) * limit - 1 admitted calls. */
  lemma SlidingBoundInWindows(cs: seq<Call>, key: string, limit: int, w: int, n: nat, a: int)
    requires limit >= 1 && w > 0 && n >= 1
    requires Uniform(cs, key, limit, w) && Skewed(cs, key, 0)
    ensures Admits(map[], cs, key, a, a + n * w) <= (n + 1) * limit - 1
  {
    assert n * w == (n - 1) * w + w;
    SlidingBound(cs, key, limit, w, 0, a, a + n * w);
    CapacityIsCeiling(limit, n * w, w, n);
    assert limit - 1 + n * limit == (n + 1) * limit - 1;
  }

  // ---- The bound is attained ----

  function Repeat(c: Call, n: nat): (r: seq<Call>)
    ensures |r| == n && forall i :: 0 <= i < n ==> r[i] == c
  {
    if n == 0 then [] else [c] + Repeat(c, n - 1)
  }

  /** n full bursts, the first at `t` and each one tick after the previous window closed. */
  function Bursts(key: string, limit: nat, w: nat, t: int, n: nat): seq<Call>
    decreases n
  {
    if n == 0 then [] else Repeat(Call(key, limit, w, t), limit) + Bursts(key, limit, w, t + w + 1, n - 1)
  }

  /** One call at 0, limit - 1 calls at the last instant of its window, then n full bursts. */
  function WorstCase(key: string, limit: nat, w: nat, n: nat): seq<Call>
    requires limit >= 1
  {
    [Call(key, limit, w, 0)] + (Repeat(Call(key, limit, w, w), limit - 1) + Bursts(key, limit, w, w + 1, n))
  }

  lemma {:induction false} BurstsInOrder(key: string, limit: nat, w: nat, t: int, n: nat)
    ensures Uniform(Bursts(key, limit, w, t, n), key, limit, w)
    ensures Skewed(Bursts(key, limit, w, t, n), key, 0)
    ensures forall c :: c in Bursts(key, limit, w, t, n) ==> c.now >= t
    decreases n
  {
    if n > 0 {
      BurstsInOrder(key, limit, w, t + w + 1, n - 1);
      var later := Bursts(key, limit, w, t + w + 1, n - 1);
      assert forall i :: 0 <= i < |later| ==> later[i] in later;
    }
  }

  lemma WorstCaseInOrder(key: string, limit: nat, w: nat, n: nat)
    requires limit >= 1
    ensures Uniform(WorstCase(key, limit, w, n), key, limit, w)
    ensures Skewed(WorstCase(key, limit, w, n), key, 0)
  {
    BurstsInOrder(key, limit, w, w + 1, n);
    var bursts := Bursts(key, limit, w, w + 1, n);
    assert forall i :: 0 <= i < |bursts| ==> bursts[i] in bursts;
  }

  lemma {:induction false} RepeatFills(m: Table, c: Call, n: nat, rest: seq<Call>, a: int, b: int)
    requires c.limit >= 1 && c.key in m && c.now <= m[c.key].reset && m[c.key].count + n <= c.limit
    requires a <= c.now <= b
    ensures var m' := m[c.key := Entry(m[c.key].count + n, m[c.key].reset)];
            Admits(m, Repeat(c, n) + rest, c.key, a, b) == n + Admits(m', rest, c.key, a, b)
    decreases n
  {
    if n == 0 {
      assert Repeat(c, n) + rest == rest;
      assert m[c.key := Entry(m[c.key].count, m[c.key].reset)] == m;
    } else {
      assert Repeat(c, n) + rest == [c] + (Repeat(c, n - 1) + rest);
      RepeatFills(After(m, c), c, n - 1, rest, a, b);
      assert After(m, c)[c.key := Entry(m[c.key].count + n, m[c.key].reset)]
          == m[c.key := Entry(m[c.key].count + n, m[c.key].reset)];
    }
  }

  lemma {:induction false} BurstsAllAdmitted(m: Table, key: string, limit: nat, w: nat, t: int, n: nat, a: int, b: int)
    requires limit >= 1 && key in m && m[key].reset < t
    requires a <= t && t + (n - 1) * (w + 1) <= b
    ensures Admits(m, Bursts(key, limit, w, t, n), key, a, b) == n * limit
    decreases n
  {
    if n > 0 {
      assert (n - 1) * (w + 1) == (n - 2) * (w + 1) + (w + 1) && (n - 1) * (w + 1) >= 0;
      var c := Call(key, limit, w, t);
      var later := Bursts(key, limit, w, t + w + 1, n - 1);
      var begun := After(m, c);
      assert Repeat(c, limit) + later == [c] + (Repeat(c, limit - 1) + later);
      RepeatFills(begun, c, limit - 1, later, a, b);
      BurstsAllAdmitted(begun[key := Entry(limit, t + w)], key, limit, w, t + w + 1, n - 1, a, b);
      assert limit + (n - 1) * limit == n * limit;
    }
  }

  /**
   * The bound of SlidingBoundInWindows cannot be lowered: for every limit and window there is a
   * trace that meets it, as long as integer time leaves room for n openings one tick apart.
   */
  lemma BoundIsAttained(key: string, limit: nat, w: nat, n: nat)
    requires limit >= 1 && 1 <= n <= w
    ensures Uniform(WorstCase(key, limit, w, n), key, limit, w)
    ensures Skewed(WorstCase(key, limit, w, n), key, 0)
    ensures Admits(map[], WorstCase(key, limit, w, n), key, w, w + n * w) == (n + 1) * limit - 1
  {
    WorstCaseInOrder(key, limit, w, n);
    var b := w + n * w;
    assert w + 1 + (n - 1) * (w + 1) <= b && w <= b;
    var first, second := Call(key, limit, w, 0), Call(key, limit, w, w);
    var bursts := Bursts(key, limit, w, w + 1, n);
    var begun := After(map[], first);
    RepeatFills(begun, second, limit - 1, bursts, w, b);
    BurstsAllAdmitted(begun[key := Entry(limit, w)], key, limit, w, w + 1, n, w, b);
    assert limit - 1 + n * limit == (n + 1) * limit - 1;
  }

  // ---- A refusal is always earned ----

  lemma {:induction false} AdmitsSnoc(m: Table, cs: seq<Call>, c: Call, key: string, a: int, b: int)
    ensures Admits(m, cs + [c], key, a, b)
         == Admits(m, cs, key, a, b)
            + (if c.key == key && a <= c.now <= b && Admitted(Final(m, cs), c) then 1 else 0)
    decreases |cs|
  {
    if cs == [] {
      assert cs + [c] == [c];
    } else {
      assert (cs + [c])[1..] == cs[1..] + [c];
      AdmitsSnoc(After(m, cs[0]), cs[1..], c, key, a, b);
      FinalCons(m, cs);
    }
  }

  lemma {:induction false} FinalCons(m: Table, cs: seq<Call>)
    requires cs != []
    ensures Final(m, cs) == Final(After(m, cs[0]), cs[1..])
    decreases |cs|
  {
    var init := cs[..|cs| - 1];
    if init != [] {
      FinalCons(m, init);
      assert cs[1..][..|cs| - 2] == init[1..];
    }
  }

  /** The entry's window was begun by a call of the trace, and its count is backed by admitted calls. */
  lemma {:induction false} EntryIsBacked(cs: seq<Call>, key: string, limit: int, w: int, skew: int, lo: int, hi: int)
    requires limit >= 1 && skew >= 0 && Uniform(cs, key, limit, w) && Skewed(cs, key, skew)
    requires key in Final(map[], cs) && lo <= Final(map[], cs)[key].reset - w - skew
    requires forall i :: 0 <= i < |cs| && cs[i].key == key ==> cs[i].now <= hi
    ensures exists i :: 0 <= i < |cs| && cs[i].key == key && cs[i].now == Final(map[], cs)[key].reset - w
    ensures Final(map[], cs)[key].count <= Admits(map[], cs, key, lo, hi)
    decreases |cs|
  {
    if cs != [] {
      var init, c := cs[..|cs| - 1], cs[|cs| - 1];
      assert cs == init + [c];
      var m := Final(map[], init);
      AdmitsSnoc(map[], init, c, key, lo, hi);
      if c.key == key && Opens(m, c) {
        assert cs[|cs| - 1].now == Final(map[], cs)[key].reset - w;
      } else {
        EntryIsBacked(init, key, limit, w, skew, lo, hi);
        var i :| 0 <= i < |init| && init[i].key == key && init[i].now == m[key].reset - w;
        assert cs[i] == init[i];
      }
    }
  }

  /** A call is refused only when `limit` calls were admitted within one window length before it (up to the skew). */
  lemma RefusalIsEarned(cs: seq<Call>, c: Call, skew: int)
    requires c.limit >= 1 && skew >= 0
    requires Uniform(cs, c.key, c.limit, c.window) && Skewed(cs + [c], c.key, skew)
    requires !Admitted(Final(map[], cs), c)
    ensures Admits(map[], cs, c.key, c.now - c.window - skew, c.now + skew) >= c.limit
  {
    var all := cs + [c];
    forall i, j | 0 <= i < j < |cs| && cs[i].key == c.key && cs[j].key == c.key
      ensures cs[j].now >= cs[i].now - skew
    {
      assert all[i] == cs[i] && all[j] == cs[j];
    }
    forall i | 0 <= i < |cs| && cs[i].key == c.key
      ensures cs[i].now <= c.now + skew
    {
      assert all[i] == cs[i] && all[|cs|] == c;
    }
    EntryIsBacked(cs, c.key, c.limit, c.window, skew, c.now - c.window - skew, c.now + skew);
  }
}
