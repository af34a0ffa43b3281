/**
 * The monthly free-translation quota: check, long translation, charge
 * (internal/server/routes_api_v1.go, internal/monthlycontexttranslation/repo.go).
 *
 * The check and the charge are separate statements with a call to the model in between, so
 * requests overlap freely.  Each statement is one atomic step of any number of requests.
 */
module Quota {
  import opened Base

  type User = nat
  type Period = nat
  type Pid = nat
  type Key = (User, Period)

  datatype Row = Row(limit: int, used: int)

  /** `slots` are the requests let through by the check whose translation is still running. */
  datatype State = State(rows: map<Key, Row>, slots: map<Pid, Key>)

  const INITIAL := State(map[], map[])

  datatype Ending = TranslationFailed | ChargeFailed | Charged

  datatype Event =
    | InsertInitial(key: Key, limit: int)
    | Ensure(p: Pid, key: Key, defaultLimit: int)
    | End(p: Pid, how: Ending)

  /**
   * INSERT ... ON CONFLICT DO UPDATE SET updated_at = updated_at.  A negative limit breaks a CHECK,
   * which is looked at before the conflict is.
   */
  function Ensured(rows: map<Key, Row>, key: Key, defaultLimit: int): map<Key, Row> {
    if key in rows || defaultLimit < 0 then rows else rows[key := Row(defaultLimit, 0)]
  }

  predicate Remaining(r: Row) {
    r.limit - r.used > 0
  }

  predicate Admits(s: State, ev: Event) {
    && ev.Ensure? && ev.p !in s.slots && ev.defaultLimit >= 0
    && var rows := Ensured(s.rows, ev.key, ev.defaultLimit);
       ev.key in rows && Remaining(rows[ev.key])
  }

  predicate Charges(s: State, ev: Event) {
    ev.End? && ev.how == Charged && ev.p in s.slots && s.slots[ev.p] in s.rows
  }

  function Step(s: State, ev: Event): State {
    match ev
    case InsertInitial(key, limit) =>
      if key in s.rows || limit < 0 then s else s.(rows := s.rows[key := Row(limit, 0)])
    case Ensure(p, key, defaultLimit) =>
      if p in s.slots then s
      else State(Ensured(s.rows, key, defaultLimit), if Admits(s, ev) then s.slots[p := key] else s.slots)
    case End(p, how) =>
      if p !in s.slots then s
      else
        var key := s.slots[p];
        State(if Charges(s, ev) then s.rows[key := Row(s.rows[key].limit, s.rows[key].used + 1)] else s.rows,
              s.slots - {p})
  }

  function Run(s: State, evs: seq<Event>): State {
    if evs == [] then s else Step(Run(s, evs[..|evs| - 1]), evs[|evs| - 1])
  }

  // ---- The handler, in a world that moves while the model translates ----

  datatype Reply = Exhausted | InternalError | TranslateError | Ok(quota: Option<Row>)

  function Outcome(translationOk: bool, chargeOk: bool): Ending {
    if !translationOk then TranslationFailed else if chargeOk then Charged else ChargeFailed
  }

  class QuotaStore {
    var rows: map<Key, Row>
    var slots: map<Pid, Key>

    function View(): State
      reads this
    {
      State(rows, slots)
    }

    constructor ()
      ensures View() == INITIAL
    {
      rows, slots := map[], map[];
    }

    /** Any steps of other requests. */
    method Others(evs: seq<Event>)
      modifies this
      ensures View() == Run(old(View()), evs)
    {
      var i := 0;
      while i < |evs|
        invariant 0 <= i <= |evs|
        invariant View() == Run(old(View()), evs[..i])
      {
        assert evs[..i + 1][..i] == evs[..i];
        var s := Step(View(), evs[i]);
        rows, slots := s.rows, s.slots;
        i := i + 1;
      }
      assert evs[..i] == evs;
    }

    method InsertInitialRow(key: Key, limit: int) returns (ok: bool)
      modifies this
      ensures ok == (key !in old(rows) && limit >= 0)
      ensures rows == if ok then old(rows)[key := Row(limit, 0)] else old(rows)
      ensures View() == Step(old(View()), InsertInitial(key, limit))
    {
      ok := key !in rows && limit >= 0;
      if ok {
        rows := rows[key := Row(limit, 0)];
      }
    }

    /** Returns the row, inserting it on the first request of the month; None is a database error. */
    method EnsureCurrentMonthRow(key: Key, defaultLimit: int) returns (row: Option<Row>)
      modifies this`rows
      ensures rows == Ensured(old(rows), key, defaultLimit)
      ensures defaultLimit < 0 || key in old(rows) ==> rows == old(rows)
      ensures defaultLimit >= 0 && key !in old(rows) ==> rows == old(rows)[key := Row(defaultLimit, 0)]
      ensures row == if defaultLimit >= 0 then Some(rows[key]) else None
    {
      if defaultLimit < 0 {
        return None;
      }
      if key !in rows {
        rows := rows[key := Row(defaultLimit, 0)];
      }
      row := Some(rows[key]);
    }

    method IncrementUsedCount(key: Key) returns (row: Option<Row>)
      modifies this`rows
      ensures key !in old(rows) ==> row == None && rows == old(rows)
      ensures key in old(rows) ==>
                && row == Some(Row(old(rows)[key].limit, old(rows)[key].used + 1))
                && rows == old(rows)[key := row.value]
    {
      if key !in rows {
        return None;
      }
      rows := rows[key := rows[key].(used := rows[key].used + 1)];
      row := Some(rows[key]);
    }

    /** The check: a reply ends the request, None lets it through. */
    method CheckQuota(p: Pid, key: Key, defaultLimit: int) returns (stop: Option<Reply>)
      requires p !in slots
      modifies this
      ensures View() == Step(old(View()), Ensure(p, key, defaultLimit))
      ensures stop.None? <==> Admits(old(View()), Ensure(p, key, defaultLimit))
      ensures stop.None? <==>
                && defaultLimit >= 0
                && (if key in old(rows) then old(rows)[key].limit > old(rows)[key].used else defaultLimit > 0)
      ensures stop.Some? ==> p !in slots && stop == Some(if defaultLimit >= 0 then Exhausted else InternalError)
      ensures stop.None? ==> p in slots && slots[p] == key && key in rows
    {
      var row := EnsureCurrentMonthRow(key, defaultLimit);
      if row.None? {
        return Some(InternalError);
      }
      var rem := row.value.limit - row.value.used;
      if rem < 0 {
        rem := 0;
      }
      if rem == 0 {
        return Some(Exhausted);
      }
      slots := slots[p := key];
      return None;
    }

    /** After the translation: only a successful one is charged, to the month of its check. */
    method Charge(p: Pid, translationOk: bool, chargeOk: bool) returns (reply: Reply)
      requires p in slots && slots[p] in rows
      modifies this
      ensures View() == Step(old(View()), End(p, Outcome(translationOk, chargeOk)))
      ensures slots == old(slots) - {p}
      ensures var key, row := old(slots[p]), old(rows[slots[p]]);
              && rows == (if translationOk && chargeOk then old(rows)[key := Row(row.limit, row.used + 1)]
                          else old(rows))
              && reply == if !translationOk then TranslateError
                          else if !chargeOk then InternalError
                          else Ok(Some(Row(row.limit, row.used + 1)))
    {
      var key := slots[p];
      slots := slots - {p};
      if !translationOk {
        reply := TranslateError;
      } else if !chargeOk {
        reply := InternalError;
      } else {
        var charged := IncrementUsedCount(key);
        reply := Ok(charged);
      }
    }

    /**
     * One translate request of a signed-in user; `others` runs while the model works.  A Pro
     * user is neither checked nor charged.  `proKnown` and `quotaKnown` say that the two
     * queries of the check were answered.
     */
    method Translate(
        p: Pid, isPro: bool, key: Key, defaultLimit: int, proKnown: bool, quotaKnown: bool,
        translationOk: bool, chargeOk: bool, others: seq<Event>)
      returns (reply: Reply, ghost trace: seq<Event>)
      requires p !in slots && Spares(others, p)
      modifies this
      ensures View() == Run(old(View()), trace) && p !in slots
      ensures !proKnown || (!isPro && !quotaKnown) ==> trace == [] && reply == InternalError
      ensures proKnown && isPro ==> trace == others && reply == if translationOk then Ok(None) else TranslateError
      ensures proKnown && !isPro && quotaKnown && !Admits(old(View()), Ensure(p, key, defaultLimit)) ==>
                && trace == [Ensure(p, key, defaultLimit)]
                && reply == if defaultLimit >= 0 then Exhausted else InternalError
      ensures proKnown && !isPro && quotaKnown && Admits(old(View()), Ensure(p, key, defaultLimit)) ==>
                && trace == [Ensure(p, key, defaultLimit)] + others + [End(p, Outcome(translationOk, chargeOk))]
                && (if !translationOk then reply == TranslateError
                    else if !chargeOk then reply == InternalError
                    else key in rows && reply == Ok(Some(rows[key])))
      ensures proKnown && !isPro && quotaKnown && Admits(old(View()), Ensure(p, key, defaultLimit)) ==>
                var mid := Run(Step(old(View()), Ensure(p, key, defaultLimit)), others).rows;
                && key in mid
                && rows == if translationOk && chargeOk then mid[key := Row(mid[key].limit, mid[key].used + 1)] else mid
    {
      ghost var s0 := View();
      if !proKnown || (!isPro && !quotaKnown) {
        return InternalError, [];
      }
      if isPro {
        Others(others);
        SparesRun(s0, others, p);
        return (if translationOk then Ok(None) else TranslateError), others;
      }
      var stop := CheckQuota(p, key, defaultLimit);
      trace := Extend(s0, [], Ensure(p, key, defaultLimit));
      if stop.Some? {
        return stop.value, trace;
      }
      ghost var s1 := View();
      Others(others);
      SparesRun(s1, others, p);
      RunConcat(s0, trace, others);
      trace := trace + others;
      reply := Charge(p, translationOk, chargeOk);
      trace := Extend(s0, trace, End(p, Outcome(translationOk, chargeOk)));
    }
  }

  ghost predicate Spares(evs: seq<Event>, p: Pid) {
    forall i :: 0 <= i < |evs| ==> evs[i].InsertInitial? || evs[i].p != p
  }

  lemma Snoc(s: State, evs: seq<Event>, ev: Event)
    ensures Run(s, evs + [ev]) == Step(Run(s, evs), ev)
  {
    assert (evs + [ev])[..|evs|] == evs;
  }

  lemma Extend(s: State, trace: seq<Event>, ev: Event) returns (all: seq<Event>)
    ensures all == trace + [ev] && Run(s, all) == Step(Run(s, trace), ev)
  {
    all := trace + [ev];
    Snoc(s, trace, ev);
  }

  lemma {:induction false} RunConcat(s: State, a: seq<Event>, b: seq<Event>)
    ensures Run(s, a + b) == Run(Run(s, a), b)
    decreases |b|
  {
    if b == [] {
      assert a + b == a;
    } else {
      assert (a + b)[..|a + b| - 1] == a + b[..|b| - 1];
      RunConcat(s, a, b[..|b| - 1]);
    }
  }

  /** Rows stay, with the limit they were inserted with, and are only ever charged upwards. */
  lemma StepKeepsRows(s: State, ev: Event, key: Key)
    requires key in s.rows
    ensures key in Step(s, ev).rows
    ensures Step(s, ev).rows[key].limit == s.rows[key].limit
    ensures s.rows[key].used <= Step(s, ev).rows[key].used <= s.rows[key].used + 1
  {
  }

  lemma {:induction false} SparesRun(s: State, evs: seq<Event>, p: Pid)
    requires Spares(evs, p)
    ensures p in s.slots <==> p in Run(s, evs).slots
    ensures p in s.slots ==> Run(s, evs).slots[p] == s.slots[p]
    ensures forall key :: key in s.rows ==> key in Run(s, evs).rows
  {
    if evs != [] {
      var init, ev := evs[..|evs| - 1], evs[|evs| - 1];
      SparesRun(s, init, p);
      forall key | key in Run(s, init).rows
        ensures key in Run(s, evs).rows
      {
        StepKeepsRows(Run(s, init), ev, key);
      }
    }
  }

  lemma {:induction false} LimitIsFixed(evs: seq<Event>, more: seq<Event>, key: Key)
    requires key in Run(INITIAL, evs).rows
    ensures key in Run(INITIAL, evs + more).rows
    ensures Run(INITIAL, evs + more).rows[key].limit == Run(INITIAL, evs).rows[key].limit
    ensures Run(INITIAL, evs + more).rows[key].used >= Run(INITIAL, evs).rows[key].used
    decreases |more|
  {
    if more == [] {
      assert evs + more == evs;
    } else {
      var init, ev := evs + more[..|more| - 1], more[|more| - 1];
      assert (evs + more)[..|evs + more| - 1] == init;
      LimitIsFixed(evs, more[..|more| - 1], key);
      StepKeepsRows(Run(INITIAL, init), ev, key);
    }
  }

  // ---- Conservation ----

  ghost function InFlight(s: State, key: Key): set<Pid> {
    set p | p in s.slots && s.slots[p] == key
  }

  ghost function Count(evs: seq<Event>, key: Key, counts: (State, Event, Key) -> bool): nat {
    if evs == [] then 0 else
    var init, ev := evs[..|evs| - 1], evs[|evs| - 1];
    Count(init, key, counts) + if counts(Run(INITIAL, init), ev, key) then 1 else 0
  }

  const ADMISSION := (s: State, ev: Event, key: Key) => Admits(s, ev) && ev.key == key
  const CHARGE := (s: State, ev: Event, key: Key) => Charges(s, ev) && s.slots[ev.p] == key
  const DROP := (s: State, ev: Event, key: Key) =>
    ev.End? && ev.p in s.slots && s.slots[ev.p] == key && !Charges(s, ev)

  /**
   * The counter is exactly the charges of requests admitted in that month; whoever was admitted
   * has been charged, has failed, or is still running; and every running request has its row.
   */
  lemma {:induction false} UsedCountsCharges(evs: seq<Event>, key: Key)
    ensures var s := Run(INITIAL, evs);
            && (key in s.rows ==> s.rows[key].used == Count(evs, key, CHARGE))
            && (key !in s.rows ==> Count(evs, key, CHARGE) == 0 && InFlight(s, key) == {})
            && Count(evs, key, ADMISSION) == Count(evs, key, CHARGE) + Count(evs, key, DROP) + |InFlight(s, key)|
  {
    if evs != [] {
      var init, ev := evs[..|evs| - 1], evs[|evs| - 1];
      UsedCountsCharges(init, key);
      UsedMoves(Run(INITIAL, init), ev, key);
      SlotsMove(Run(INITIAL, init), ev, key);
      hide Step, InFlight;
    }
  }

  /** How one step changes the count of `key`. */
  lemma UsedMoves(s: State, ev: Event, key: Key)
    ensures CHARGE(s, ev, key) ==> key in s.rows
    ensures key in s.rows ==>
              && key in Step(s, ev).rows
              && Step(s, ev).rows[key].used == s.rows[key].used + if CHARGE(s, ev, key) then 1 else 0
    ensures key !in s.rows && key in Step(s, ev).rows ==> Step(s, ev).rows[key].used == 0
    ensures key !in Step(s, ev).rows ==> key !in s.rows && !ADMISSION(s, ev, key)
    ensures !(ADMISSION(s, ev, key) && CHARGE(s, ev, key)) && !(CHARGE(s, ev, key) && DROP(s, ev, key))
    ensures !(ADMISSION(s, ev, key) && DROP(s, ev, key))
  {
  }

  /** How one step changes the requests in flight for `key`. */
  lemma SlotsMove(s: State, ev: Event, key: Key)
    ensures InFlight(Step(s, ev), key) ==
              if ADMISSION(s, ev, key) then InFlight(s, key) + {ev.p}
              else if CHARGE(s, ev, key) || DROP(s, ev, key) then InFlight(s, key) - {ev.p}
              else InFlight(s, key)
    ensures ADMISSION(s, ev, key) ==> ev.p !in InFlight(s, key)
    ensures CHARGE(s, ev, key) || DROP(s, ev, key) ==> ev.p in InFlight(s, key)
  {
  }

  // ---- The overshoot ----

  /** At no moment of the run are more than `k` requests of this user and month in flight. */
  ghost predicate AtMostInFlight(evs: seq<Event>, key: Key, k: nat) {
    forall i :: 0 <= i <= |evs| ==> |InFlight(Run(INITIAL, evs[..i]), key)| <= k
  }

  ghost predicate Potential(s: State, key: Key, k: nat)
    requires key in s.rows
  {
    var r := s.rows[key];
    && 0 <= r.limit
    && (r.limit >= 1 ==> r.used + |InFlight(s, key)| <= r.limit + k - 1)
    && (r.limit == 0 ==> r.used == 0 && InFlight(s, key) == {})
  }

  /**
   * The check-then-charge race costs at most k - 1 free translations.  The charge already booked
   * plus the charges still to come never exceed limit + k - 1: admission needs a remaining
   * unit, and a charge turns a pending unit into a booked one.
   */
  lemma {:induction false} OvershootIsBounded(evs: seq<Event>, key: Key, k: nat)
    requires AtMostInFlight(evs, key, k)
    requires key in Run(INITIAL, evs).rows
    ensures Potential(Run(INITIAL, evs), key, k)
  {
    if evs != [] {
      var init, ev := evs[..|evs| - 1], evs[|evs| - 1];
      var s := Run(INITIAL, init);
      assert evs[..|evs|] == evs;
      forall i | 0 <= i <= |init|
        ensures |InFlight(Run(INITIAL, init[..i]), key)| <= k
      {
        assert init[..i] == evs[..i];
      }
      if key in s.rows {
        OvershootIsBounded(init, key, k);
      } else {
        UsedCountsCharges(init, key);
      }
      StepKeepsPotential(s, ev, key, k);
    }
  }

  /** used + in flight grows only by an admission, which the remaining unit and k bound. */
  lemma StepKeepsPotential(s: State, ev: Event, key: Key, k: nat)
    requires key in Step(s, ev).rows && |InFlight(Step(s, ev), key)| <= k
    requires key !in s.rows ==> InFlight(s, key) == {}
    requires key in s.rows ==> Potential(s, key, k)
    ensures Potential(Step(s, ev), key, k)
  {
    SlotsMove(s, ev, key);
  }

  /** With requests one at a time the limit is exact. */
  lemma SerialRequestsStayWithinLimit(evs: seq<Event>, key: Key)
    requires AtMostInFlight(evs, key, 1) && key in Run(INITIAL, evs).rows
    ensures Run(INITIAL, evs).rows[key].used <= Run(INITIAL, evs).rows[key].limit
  {
    OvershootIsBounded(evs, key, 1);
  }

  // ---- The overshoot is attained ----

  function OneByOne(key: Key, limit: nat, n: nat): seq<Event> {
    if n == 0 then [] else OneByOne(key, limit, n - 1) + [Ensure(0, key, limit)] + [End(0, Charged)]
  }

  function AllEnter(key: Key, limit: nat, n: nat): seq<Event> {
    if n == 0 then [] else AllEnter(key, limit, n - 1) + [Ensure(n - 1, key, limit)]
  }

  function AllCharge(n: nat): seq<Event> {
    if n == 0 then [] else AllCharge(n - 1) + [End(n - 1, Charged)]
  }

  /** Use up all but one unit, let `k` requests in on the last one, then charge them all. */
  function Stampede(key: Key, limit: nat, k: nat): seq<Event>
    requires limit >= 1
  {
    OneByOne(key, limit, limit - 1) + AllEnter(key, limit, k) + AllCharge(k)
  }

  /** No request is running and `n` units of the limit are used; there is no row before the first. */
  ghost predicate Booked(s: State, key: Key, limit: nat, n: nat) {
    s.slots == map[] && s.rows == if n == 0 then map[] else map[key := Row(limit, n)]
  }

  /** A request alone: checked, translated, charged. */
  lemma OneRequest(evs: seq<Event>, key: Key, limit: nat, n: nat)
    requires n < limit && Booked(Run(INITIAL, evs), key, limit, n)
    ensures Booked(Run(INITIAL, evs + [Ensure(0, key, limit)] + [End(0, Charged)]), key, limit, n + 1)
  {
    var s := Run(INITIAL, evs);
    Snoc(INITIAL, evs, Ensure(0, key, limit));
    Snoc(INITIAL, evs + [Ensure(0, key, limit)], End(0, Charged));
    var s1 := Step(s, Ensure(0, key, limit));
    assert s1.rows == map[key := Row(limit, n)] && s1.slots == map[0 := key];
  }

  lemma {:induction false} OneByOneRuns(key: Key, limit: nat, n: nat)
    requires n <= limit
    ensures Booked(Run(INITIAL, OneByOne(key, limit, n)), key, limit, n)
    decreases n
  {
    if n > 0 {
      var before := OneByOne(key, limit, n - 1);
      OneByOneRuns(key, limit, n - 1);
      OneRequest(before, key, limit, n - 1);
      assert OneByOne(key, limit, n) == before + [Ensure(0, key, limit)] + [End(0, Charged)];
    }
  }

  /** Exactly the requests lo .. hi - 1 are in flight, all for `key`. */
  ghost predicate SlotsAre(s: State, key: Key, lo: nat, hi: nat) {
    && (forall p :: p in s.slots <==> lo <= p < hi)
    && (forall p :: p in s.slots ==> s.slots[p] == key)
  }

  lemma OneEnters(s: State, key: Key, limit: nat, n: nat)
    requires limit >= 1 && SlotsAre(s, key, 0, n)
    requires key in s.rows ==> Remaining(s.rows[key])
    ensures SlotsAre(Step(s, Ensure(n, key, limit)), key, 0, n + 1)
    ensures Step(s, Ensure(n, key, limit)).rows == Ensured(s.rows, key, limit)
  {
  }

  lemma EnsuredLeavesRoom(rows: map<Key, Row>, key: Key, limit: nat)
    requires limit >= 1 && (key in rows ==> Remaining(rows[key]))
    ensures var rows' := Ensured(rows, key, limit);
            key in rows' && Remaining(rows'[key]) && Ensured(rows', key, limit) == rows'
  {
  }

  lemma {:induction false} AllEnterRuns(s: State, key: Key, limit: nat, n: nat)
    requires s.slots == map[] && limit >= 1
    requires key in s.rows ==> Remaining(s.rows[key])
    ensures SlotsAre(Run(s, AllEnter(key, limit, n)), key, 0, n)
    ensures Run(s, AllEnter(key, limit, n)).rows == if n == 0 then s.rows else Ensured(s.rows, key, limit)
    decreases n
  {
    if n > 0 {
      var before := AllEnter(key, limit, n - 1);
      AllEnterRuns(s, key, limit, n - 1);
      EnsuredLeavesRoom(s.rows, key, limit);
      assert AllEnter(key, limit, n) == before + [Ensure(n - 1, key, limit)];
      Snoc(s, before, Ensure(n - 1, key, limit));
      OneEnters(Run(s, before), key, limit, n - 1);
    }
  }

  /** Of the requests 0 .. k - 1 in flight in `s`, the first `n` have been charged in `t`. */
  ghost predicate FirstCharged(s: State, t: State, key: Key, k: nat, n: nat) {
    && key in s.rows && SlotsAre(t, key, n, k)
    && t.rows == s.rows[key := Row(s.rows[key].limit, s.rows[key].used + n)]
  }

  lemma OneCharges(s: State, t: State, key: Key, k: nat, n: nat)
    requires n < k && FirstCharged(s, t, key, k, n)
    ensures FirstCharged(s, Step(t, End(n, Charged)), key, k, n + 1)
  {
  }

  lemma {:induction false} AllChargeRuns(s: State, key: Key, k: nat, n: nat)
    requires n <= k && SlotsAre(s, key, 0, k) && key in s.rows
    ensures FirstCharged(s, Run(s, AllCharge(n)), key, k, n)
    decreases n
  {
    if n > 0 {
      var before := AllCharge(n - 1);
      AllChargeRuns(s, key, k, n - 1);
      Snoc(s, before, End(n - 1, Charged));
      OneCharges(s, Run(s, before), key, k, n - 1);
    }
  }

  ghost predicate PidsBelow(evs: seq<Event>, k: nat) {
    forall i :: 0 <= i < |evs| ==> evs[i].InsertInitial? || evs[i].p < k
  }

  lemma {:induction false} FewRequestsInFlight(evs: seq<Event>, key: Key, k: nat)
    requires PidsBelow(evs, k)
    ensures forall p :: p in Run(INITIAL, evs).slots ==> p < k
    ensures |InFlight(Run(INITIAL, evs), key)| <= k
  {
    if evs != [] {
      FewRequestsInFlight(evs[..|evs| - 1], key, k);
    }
    Pigeonhole(InFlight(Run(INITIAL, evs), key), k);
  }

  lemma {:induction false} Pigeonhole(s: set<nat>, k: nat)
    requires forall p :: p in s ==> p < k
    ensures |s| <= k
    decreases k
  {
    if k > 0 {
      Pigeonhole(s - {k - 1}, k - 1);
    } else {
      assert s == {};
    }
  }

  lemma {:induction false} StampedePids(key: Key, limit: nat, k: nat, n: nat)
    requires k >= 1
    ensures PidsBelow(OneByOne(key, limit, n), k)
    ensures n <= k ==> PidsBelow(AllEnter(key, limit, n), k) && PidsBelow(AllCharge(n), k)
    decreases n
  {
    if n > 0 {
      StampedePids(key, limit, k, n - 1);
    }
  }

  /** For every limit and every k there is a run with k requests in flight that overshoots by k - 1. */
  lemma OvershootIsAttained(key: Key, limit: nat, k: nat)
    requires limit >= 1 && k >= 1
    ensures AtMostInFlight(Stampede(key, limit, k), key, k)
    ensures key in Run(INITIAL, Stampede(key, limit, k)).rows
    ensures Run(INITIAL, Stampede(key, limit, k)).rows[key] == Row(limit, limit + k - 1)
  {
    StampedePids(key, limit, k, limit - 1);
    StampedePids(key, limit, k, k);
    var evs := Stampede(key, limit, k);
    forall i | 0 <= i <= |evs|
      ensures |InFlight(Run(INITIAL, evs[..i]), key)| <= k
    {
      FewRequestsInFlight(evs[..i], key, k);
    }
    StampedeRuns(key, limit, k);
  }

  lemma StampedeRuns(key: Key, limit: nat, k: nat)
    requires limit >= 1 && k >= 1
    ensures key in Run(INITIAL, Stampede(key, limit, k)).rows
    ensures Run(INITIAL, Stampede(key, limit, k)).rows[key] == Row(limit, limit + k - 1)
  {
    var a, b, c := OneByOne(key, limit, limit - 1), AllEnter(key, limit, k), AllCharge(k);
    OneByOneRuns(key, limit, limit - 1);
    StampedeFrom(Run(INITIAL, a), key, limit, k);
    RunConcat(INITIAL, a, b);
    RunConcat(INITIAL, a + b, c);
  }

  lemma StampedeFrom(s: State, key: Key, limit: nat, k: nat)
    requires limit >= 1 && k >= 1 && Booked(s, key, limit, limit - 1)
    ensures key in Run(Run(s, AllEnter(key, limit, k)), AllCharge(k)).rows
    ensures Run(Run(s, AllEnter(key, limit, k)), AllCharge(k)).rows[key] == Row(limit, limit + k - 1)
  {
    AllEnterRuns(s, key, limit, k);
    AllChargeRuns(Run(s, AllEnter(key, limit, k)), key, k, k);
  }
}
