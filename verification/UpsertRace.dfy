/**
 * Entitlement upserts in overlapping transactions (internal/entitlement/store.go,
 * internal/entitlement/stripe.go, migrations/000002_entitlements.up.sql).
 *
 * No unique index protects active rows, and under read-committed visibility an UPDATE sees
 * only rows committed before it starts.  Overlapping upserts can therefore leave several
 * active rows.  This module shows how many: as many as were open at once, and no more.
 */
module UpsertRace {
  import opened Base
  import E = Entitlements

  type Tid = nat

  /**
   * An open transaction that has run its UPDATE: the rows that statement saw active and will
   * revoke.  The INSERT of an upsert is invisible to everyone else until the commit and is
   * folded into it.
   */
  datatype Tx = Tx(user: E.User, source: E.Source, upsert: bool, seen: set<Tid>)

  /**
   * Each upsert inserts one row, so rows carry the number of the transaction that inserted
   * them.  `stamp` orders the UPDATE statements of the run, and `peers` records which upserts
   * of the same user and source were open when each of them ran.
   */
  datatype State = State(
    rows: map<Tid, E.Row>, open: map<Tid, Tx>,
    stamp: map<Tid, nat>, peers: map<Tid, set<Tid>>)

  const INITIAL := State(map[], map[], map[], map[])

  datatype Event =
    | Update(t: Tid, user: E.User, source: E.Source, upsert: bool)
    | Commit(t: Tid, exp: Option<int>, now: int)
    | Rollback(t: Tid)

  /** The rows an UPDATE sees: committed and active. */
  function ActiveRows(s: State, user: E.User, source: E.Source): set<Tid> {
    set r | r in s.rows && E.Matches(s.rows[r], user, source)
  }

  function OpenUpserts(s: State, user: E.User, source: E.Source): set<Tid> {
    set t | t in s.open && s.open[t].user == user && s.open[t].source == source && s.open[t].upsert
  }

  function RevokeSeen(rows: map<Tid, E.Row>, tx: Tx): map<Tid, E.Row> {
    map r | r in rows ::
      if r in tx.seen && E.Matches(rows[r], tx.user, tx.source) then rows[r].(status := E.Revoked) else rows[r]
  }

  function Step(s: State, ev: Event): State {
    match ev
    case Update(t, user, source, upsert) =>
      if t in s.stamp then s
      else
        var begun := s.open[t := Tx(user, source, upsert, ActiveRows(s, user, source))];
        State(s.rows, begun, s.stamp[t := |s.stamp|],
              s.peers[t := OpenUpserts(State(s.rows, begun, s.stamp, s.peers), user, source)])
    case Commit(t, exp, now) =>
      if t !in s.open then s
      else
        var tx := s.open[t];
        var revoked := RevokeSeen(s.rows, tx);
        State(if tx.upsert then revoked[t := E.Row(tx.user, E.PRO, E.Active, tx.source, exp, now)] else revoked,
              s.open - {t}, s.stamp, s.peers)
    case Rollback(t) => s.(open := s.open - {t})
  }

  function Run(evs: seq<Event>): State {
    if evs == [] then INITIAL else Step(Run(evs[..|evs| - 1]), evs[|evs| - 1])
  }

  // ---- What every step keeps ----

  /** The upserts `a` and `b` overlapped: the one whose UPDATE came first was open at the other's. */
  ghost predicate Overlap(s: State, a: Tid, b: Tid) {
    && a in s.stamp && b in s.stamp && a in s.peers && b in s.peers
    && s.stamp[a] != s.stamp[b]
    && (if s.stamp[a] < s.stamp[b] then a in s.peers[b] else b in s.peers[a])
  }

  ghost predicate Live(s: State, r: Tid, user: E.User, source: E.Source) {
    r in s.rows && E.Matches(s.rows[r], user, source)
  }

  ghost predicate OpenFor(s: State, t: Tid, user: E.User, source: E.Source) {
    t in s.open && s.open[t].user == user && s.open[t].source == source && s.open[t].upsert
  }

  ghost predicate Stamped(s: State) {
    && (forall t :: t in s.stamp ==> s.stamp[t] < |s.stamp|)
    && s.rows.Keys <= s.stamp.Keys && s.open.Keys <= s.stamp.Keys && s.peers.Keys == s.stamp.Keys
    && s.rows.Keys !! s.open.Keys
  }

  /** A committed active row and an open or committed upsert record themselves among their peers. */
  ghost predicate OwnPeers(s: State, user: E.User, source: E.Source) {
    && (forall r :: Live(s, r, user, source) ==> r in s.peers && r in s.peers[r])
    && (forall t :: OpenFor(s, t, user, source) ==> t in s.peers && t in s.peers[t])
  }

  ghost predicate LivePairs(s: State, user: E.User, source: E.Source) {
    forall a, b :: Live(s, a, user, source) && Live(s, b, user, source) && a != b ==> Overlap(s, a, b)
  }

  ghost predicate OpenPairs(s: State, user: E.User, source: E.Source) {
    forall a, b :: OpenFor(s, a, user, source) && OpenFor(s, b, user, source) && a != b ==> Overlap(s, a, b)
  }

  /** An open upsert revokes every active row it did not overlap with. */
  ghost predicate CrossPairs(s: State, user: E.User, source: E.Source) {
    forall r, t :: Live(s, r, user, source) && OpenFor(s, t, user, source) && r !in s.open[t].seen ==> Overlap(s, r, t)
  }

  ghost predicate Inv(s: State, user: E.User, source: E.Source) {
    && Stamped(s) && OwnPeers(s, user, source)
    && LivePairs(s, user, source) && OpenPairs(s, user, source) && CrossPairs(s, user, source)
  }

  lemma OverlapLasts(s: State, ev: Event, a: Tid, b: Tid)
    requires Stamped(s) && Overlap(s, a, b)
    ensures Overlap(Step(s, ev), a, b) && Overlap(Step(s, ev), b, a)
  {
  }

  /** A new upsert sees every active row, and is a peer of every upsert it finds open. */
  lemma NewcomerOverlaps(s: State, ev: Event, user: E.User, source: E.Source)
    requires Stamped(s) && ev.Update? && ev.t !in s.stamp && OpenFor(Step(s, ev), ev.t, user, source)
    ensures ev.t in Step(s, ev).peers && ev.t in Step(s, ev).peers[ev.t]
    ensures Step(s, ev).peers[ev.t] == OpenUpserts(Step(s, ev), user, source)
    ensures forall t :: OpenFor(s, t, user, source) ==> Overlap(Step(s, ev), t, ev.t) && Overlap(Step(s, ev), ev.t, t)
    ensures forall r :: Live(s, r, user, source) ==> r in Step(s, ev).open[ev.t].seen
  {
    var s' := Step(s, ev);
    assert s'.peers[ev.t] == OpenUpserts(s', user, source);
    assert s'.stamp[ev.t] == |s.stamp|;
  }

  lemma OpenBefore(s: State, ev: Event, t: Tid, user: E.User, source: E.Source)
    requires OpenFor(Step(s, ev), t, user, source)
    ensures OpenFor(s, t, user, source) || (ev.Update? && t == ev.t && t !in s.stamp)
  {
  }

  lemma LivePairsLast(s: State, ev: Event, user: E.User, source: E.Source)
    requires Stamped(s) && LivePairs(s, user, source) && !ev.Commit?
    ensures LivePairs(Step(s, ev), user, source)
  {
    forall a, b | Live(Step(s, ev), a, user, source) && Live(Step(s, ev), b, user, source) && a != b
      ensures Overlap(Step(s, ev), a, b)
    {
      assert Live(s, a, user, source) && Live(s, b, user, source);
      OverlapLasts(s, ev, a, b);
    }
  }

  lemma OpenPairsLast(s: State, ev: Event, user: E.User, source: E.Source)
    requires Stamped(s) && OpenPairs(s, user, source)
    ensures OpenPairs(Step(s, ev), user, source)
  {
    var s' := Step(s, ev);
    if ev.Update? && ev.t !in s.stamp && OpenFor(s', ev.t, user, source) {
      NewcomerOverlaps(s, ev, user, source);
    }
    forall a, b | OpenFor(s', a, user, source) && OpenFor(s', b, user, source) && a != b
      ensures Overlap(s', a, b)
    {
      OpenBefore(s, ev, a, user, source);
      OpenBefore(s, ev, b, user, source);
      if OpenFor(s, a, user, source) && OpenFor(s, b, user, source) {
        OverlapLasts(s, ev, a, b);
      }
    }
  }

  lemma CrossPairsLast(s: State, ev: Event, user: E.User, source: E.Source)
    requires Stamped(s) && CrossPairs(s, user, source) && !ev.Commit?
    ensures CrossPairs(Step(s, ev), user, source)
  {
    var s' := Step(s, ev);
    if ev.Update? && ev.t !in s.stamp && OpenFor(s', ev.t, user, source) {
      NewcomerOverlaps(s, ev, user, source);
    }
    forall r, t | Live(s', r, user, source) && OpenFor(s', t, user, source) && r !in s'.open[t].seen
      ensures Overlap(s', r, t)
    {
      assert Live(s, r, user, source) && OpenFor(s, t, user, source);
      OverlapLasts(s, ev, r, t);
    }
  }

  /** After a commit the active rows are the new one and those it did not revoke. */
  lemma CommitRows(s: State, ev: Event, user: E.User, source: E.Source, r: Tid)
    requires Stamped(s) && ev.Commit? && ev.t in s.open && Live(Step(s, ev), r, user, source)
    ensures r == ev.t ==> OpenFor(s, ev.t, user, source)
    ensures r != ev.t ==> Live(s, r, user, source)
    ensures r != ev.t && OpenFor(s, ev.t, user, source) ==> r !in s.open[ev.t].seen
  {
  }

  lemma CommitKeepsLivePairs(s: State, ev: Event, user: E.User, source: E.Source)
    requires Stamped(s) && LivePairs(s, user, source) && CrossPairs(s, user, source)
    requires ev.Commit? && ev.t in s.open
    ensures LivePairs(Step(s, ev), user, source)
  {
    var s' := Step(s, ev);
    forall a, b | Live(s', a, user, source) && Live(s', b, user, source) && a != b
      ensures Overlap(s', a, b)
    {
      CommitRows(s, ev, user, source, a);
      CommitRows(s, ev, user, source, b);
      if a == ev.t {
        OverlapLasts(s, ev, b, a);
      } else {
        OverlapLasts(s, ev, a, b);
      }
    }
  }

  lemma CommitKeepsCrossPairs(s: State, ev: Event, user: E.User, source: E.Source)
    requires Stamped(s) && OpenPairs(s, user, source) && CrossPairs(s, user, source)
    requires ev.Commit? && ev.t in s.open
    ensures CrossPairs(Step(s, ev), user, source)
  {
    var s' := Step(s, ev);
    forall r, t | Live(s', r, user, source) && OpenFor(s', t, user, source) && r !in s'.open[t].seen
      ensures Overlap(s', r, t)
    {
      CommitRows(s, ev, user, source, r);
      assert OpenFor(s, t, user, source);
      OverlapLasts(s, ev, r, t);
    }
  }

  lemma StampedLasts(s: State, ev: Event)
    requires Stamped(s)
    ensures Stamped(Step(s, ev))
  {
  }

  /** Where an active row comes from, one step back. */
  lemma LiveBefore(s: State, ev: Event, r: Tid, user: E.User, source: E.Source)
    requires Stamped(s) && Live(Step(s, ev), r, user, source)
    ensures Live(s, r, user, source) || OpenFor(s, r, user, source)
  {
  }

  lemma PeersLast(s: State, ev: Event, t: Tid)
    requires Stamped(s) && t in s.peers
    ensures t in Step(s, ev).peers && Step(s, ev).peers[t] == s.peers[t]
  {
  }

  lemma OwnPeersLast(s: State, ev: Event, user: E.User, source: E.Source)
    requires Stamped(s) && OwnPeers(s, user, source)
    ensures OwnPeers(Step(s, ev), user, source)
  {
    hide Step, OpenFor, Live, Stamped;
    var s' := Step(s, ev);
    forall t | OpenFor(s', t, user, source)
      ensures t in s'.peers && t in s'.peers[t]
    {
      OpenBefore(s, ev, t, user, source);
      if OpenFor(s, t, user, source) {
        PeersLast(s, ev, t);
      } else {
        NewcomerOverlaps(s, ev, user, source);
      }
    }
    forall r | Live(s', r, user, source)
      ensures r in s'.peers && r in s'.peers[r]
    {
      LiveBefore(s, ev, r, user, source);
      PeersLast(s, ev, r);
    }
  }

  lemma StepKeepsInv(s: State, ev: Event, user: E.User, source: E.Source)
    requires Inv(s, user, source)
    ensures Inv(Step(s, ev), user, source)
  {
    StampedLasts(s, ev);
    OwnPeersLast(s, ev, user, source);
    OpenPairsLast(s, ev, user, source);
    if ev.Commit? {
      if ev.t in s.open {
        CommitKeepsLivePairs(s, ev, user, source);
        CommitKeepsCrossPairs(s, ev, user, source);
      }
    } else {
      LivePairsLast(s, ev, user, source);
      CrossPairsLast(s, ev, user, source);
    }
  }

  lemma {:induction false} AlwaysInv(evs: seq<Event>, user: E.User, source: E.Source)
    ensures Inv(Run(evs), user, source)
  {
    if evs != [] {
      AlwaysInv(evs[..|evs| - 1], user, source);
      StepKeepsInv(Run(evs[..|evs| - 1]), evs[|evs| - 1], user, source);
    }
  }

  // ---- The bound ----

  /** At no moment of the run are more than `k` upserts of this user and source open. */
  ghost predicate AtMostOpen(evs: seq<Event>, user: E.User, source: E.Source, k: nat) {
    forall i :: 0 <= i <= |evs| ==> |OpenUpserts(Run(evs[..i]), user, source)| <= k
  }

  /** The peers of an upsert are upserts that were open at one moment, so there are at most `k`. */
  lemma {:induction false} PeersAreFew(evs: seq<Event>, user: E.User, source: E.Source, k: nat, t: Tid)
    requires AtMostOpen(evs, user, source, k)
    requires OpenFor(Run(evs), t, user, source) || Live(Run(evs), t, user, source)
    ensures t in Run(evs).peers && |Run(evs).peers[t]| <= k
    decreases |evs|
  {
    if evs != [] {
      var init, ev := evs[..|evs| - 1], evs[|evs| - 1];
      var s := Run(init);
      assert evs[..|evs|] == evs;
      assert forall i :: 0 <= i <= |init| ==> init[..i] == evs[..i];
      AlwaysInv(init, user, source);
      hide Step, OpenFor, Live, OpenUpserts;
      if OpenFor(Step(s, ev), t, user, source) {
        OpenBefore(s, ev, t, user, source);
      } else {
        LiveBefore(s, ev, t, user, source);
      }
      if OpenFor(s, t, user, source) || Live(s, t, user, source) {
        PeersAreFew(init, user, source, k, t);
        PeersLast(s, ev, t);
      } else {
        NewcomerOverlaps(s, ev, user, source);
      }
    }
  }

  /** A nonempty set of stamped transactions has a latest one. */
  lemma {:induction false} LatestExists(s: State, ts: set<Tid>)
    requires ts != {} && ts <= s.stamp.Keys
    ensures exists t :: t in ts && forall u :: u in ts ==> s.stamp[u] <= s.stamp[t]
    decreases |ts|
  {
    var t :| t in ts;
    var rest := ts - {t};
    if rest != {} {
      LatestExists(s, rest);
      var l :| l in rest && forall u :: u in rest ==> s.stamp[u] <= s.stamp[l];
      var best := if s.stamp[t] > s.stamp[l] then t else l;
      assert forall u :: u in ts ==> u == t || u in rest;
      assert best in ts && forall u :: u in ts ==> s.stamp[u] <= s.stamp[best];
    } else {
      assert ts == {t};
    }
  }

  lemma SubsetIsSmaller(a: set<Tid>, b: set<Tid>)
    requires a <= b
    ensures |a| <= |b|
  {
    assert b == a + (b - a);
  }

  /** All active rows come from upserts that were open when the latest of them ran its UPDATE. */
  lemma LiveRowsArePeers(s: State, user: E.User, source: E.Source, t: Tid)
    requires Inv(s, user, source) && Live(s, t, user, source)
    requires forall u :: u in ActiveRows(s, user, source) ==> s.stamp[u] <= s.stamp[t]
    ensures t in s.peers && ActiveRows(s, user, source) <= s.peers[t]
  {
    forall u | u in ActiveRows(s, user, source)
      ensures u in s.peers[t]
    {
      assert Live(s, u, user, source);
      assert u != t ==> Overlap(s, u, t);
    }
  }

  /**
   * If at most k upserts of a user and source are ever open together, the table never holds more
   * than k active rows for them.  One at a time, then, there is never more than one.
   */
  lemma ActiveRowsAreBounded(evs: seq<Event>, user: E.User, source: E.Source, k: nat)
    requires AtMostOpen(evs, user, source, k)
    ensures |ActiveRows(Run(evs), user, source)| <= k
  {
    var s := Run(evs);
    var live := ActiveRows(s, user, source);
    AlwaysInv(evs, user, source);
    if live != {} {
      LatestExists(s, live);
      var t :| t in live && forall u :: u in live ==> s.stamp[u] <= s.stamp[t];
      LiveRowsArePeers(s, user, source, t);
      SubsetIsSmaller(live, s.peers[t]);
      PeersAreFew(evs, user, source, k, t);
    }
  }

  // ---- Withdrawals ----

  ghost predicate Withdraws(s: State, t: Tid, user: E.User, source: E.Source) {
    t in s.open && s.open[t].user == user && s.open[t].source == source && !s.open[t].upsert
  }

  /** The withdrawal `t` came too early for the upsert `r`: it was open at its UPDATE, or began later. */
  ghost predicate Escapes(s: State, r: Tid, t: Tid) {
    r in s.stamp && t in s.stamp && t in s.peers && (s.stamp[r] > s.stamp[t] || r in s.peers[t])
  }

  ghost predicate Older(s: State, r: Tid, t: Tid) {
    t in s.peers && r !in s.peers[t] && r in s.stamp && t in s.stamp && s.stamp[r] < s.stamp[t]
  }

  ghost predicate Saw(s: State, t: Tid, r: Tid) {
    t in s.open && r in s.open[t].seen
  }

  ghost predicate SeenIsOld(s: State) {
    forall t, r :: Saw(s, t, r) ==> Older(s, r, t)
  }

  ghost predicate Missed(s: State, user: E.User, source: E.Source) {
    && (forall r, t :: Live(s, r, user, source) && Withdraws(s, t, user, source) && !Saw(s, t, r) ==> Escapes(s, r, t))
    && (forall r, t :: OpenFor(s, r, user, source) && Withdraws(s, t, user, source) ==> Escapes(s, r, t))
  }

  lemma EscapeLasts(s: State, ev: Event, r: Tid, t: Tid)
    requires Stamped(s) && Escapes(s, r, t)
    ensures Escapes(Step(s, ev), r, t)
  {
  }

  lemma NewSeenIsOld(s: State, ev: Event, r: Tid)
    requires Stamped(s) && ev.Update? && ev.t !in s.stamp && Saw(Step(s, ev), ev.t, r)
    ensures Older(Step(s, ev), r, ev.t)
  {
    assert r in s.rows && r !in s.open;
    assert Step(s, ev).peers[ev.t] <= s.open.Keys + {ev.t};
  }

  lemma OlderLasts(s: State, ev: Event, r: Tid, t: Tid)
    requires Stamped(s) && Older(s, r, t)
    ensures Older(Step(s, ev), r, t)
  {
  }

  lemma SawBefore(s: State, ev: Event, t: Tid, r: Tid)
    requires Stamped(s) && Saw(Step(s, ev), t, r)
    ensures Saw(s, t, r) || (ev.Update? && t == ev.t && t !in s.stamp)
  {
  }

  lemma SeenIsOldLasts(s: State, ev: Event)
    requires Stamped(s) && SeenIsOld(s)
    ensures SeenIsOld(Step(s, ev))
  {
    hide Step, Saw, Older;
    forall t, r | Saw(Step(s, ev), t, r)
      ensures Older(Step(s, ev), r, t)
    {
      SawBefore(s, ev, t, r);
      if Saw(s, t, r) {
        OlderLasts(s, ev, r, t);
      } else {
        NewSeenIsOld(s, ev, r);
      }
    }
  }

  /** Where an open withdrawal and an upsert come from, one step back. */
  lemma WithdrawsBefore(s: State, ev: Event, t: Tid, user: E.User, source: E.Source)
    requires Stamped(s) && Withdraws(Step(s, ev), t, user, source)
    ensures Withdraws(s, t, user, source) || (ev.Update? && t == ev.t && t !in s.stamp)
    ensures Withdraws(s, t, user, source) ==> t in Step(s, ev).open && Step(s, ev).open[t] == s.open[t]
  {
  }

  lemma NewEscape(s: State, ev: Event, r: Tid, t: Tid, user: E.User, source: E.Source)
    requires Stamped(s) && ev.Update? && ev.t !in s.stamp && r != t && (ev.t == r || ev.t == t)
    requires OpenFor(Step(s, ev), r, user, source) && Withdraws(Step(s, ev), t, user, source)
    ensures Escapes(Step(s, ev), r, t)
  {
    var s' := Step(s, ev);
    if ev.t == t {
      assert s'.peers[t] == OpenUpserts(s', user, source);
    } else {
      assert t in s.open;
    }
  }

  lemma OpenMissedLasts(s: State, ev: Event, user: E.User, source: E.Source)
    requires Stamped(s) && Missed(s, user, source)
    ensures forall r, t :: OpenFor(Step(s, ev), r, user, source) && Withdraws(Step(s, ev), t, user, source) ==>
                             Escapes(Step(s, ev), r, t)
  {
    var s' := Step(s, ev);
    forall r, t | OpenFor(s', r, user, source) && Withdraws(s', t, user, source)
      ensures Escapes(s', r, t)
    {
      OpenBefore(s, ev, r, user, source);
      WithdrawsBefore(s, ev, t, user, source);
      if OpenFor(s, r, user, source) && Withdraws(s, t, user, source) {
        EscapeLasts(s, ev, r, t);
      } else {
        NewEscape(s, ev, r, t, user, source);
      }
    }
  }

  /** A new withdrawal sees every active row. */
  lemma NewcomerSees(s: State, ev: Event, r: Tid, user: E.User, source: E.Source)
    requires Stamped(s) && ev.Update? && ev.t !in s.stamp && Withdraws(Step(s, ev), ev.t, user, source)
    requires Live(Step(s, ev), r, user, source)
    ensures r in Step(s, ev).open[ev.t].seen
  {
    assert Live(s, r, user, source);
  }

  lemma LiveMissedLasts(s: State, ev: Event, user: E.User, source: E.Source)
    requires Stamped(s) && Missed(s, user, source)
    ensures var s' := Step(s, ev);
            forall r, t :: Live(s', r, user, source) && Withdraws(s', t, user, source) && !Saw(s', t, r) ==>
                             Escapes(s', r, t)
  {
    var s' := Step(s, ev);
    forall r, t | Live(s', r, user, source) && Withdraws(s', t, user, source) && !Saw(s', t, r)
      ensures Escapes(s', r, t)
    {
      LiveBefore(s, ev, r, user, source);
      WithdrawsBefore(s, ev, t, user, source);
      if Withdraws(s, t, user, source) {
        EscapeLasts(s, ev, r, t);
      } else {
        NewcomerSees(s, ev, r, user, source);
      }
    }
  }

  lemma {:induction false} AlwaysMissed(evs: seq<Event>, user: E.User, source: E.Source)
    ensures Stamped(Run(evs)) && SeenIsOld(Run(evs)) && Missed(Run(evs), user, source)
  {
    if evs != [] {
      var init, ev := evs[..|evs| - 1], evs[|evs| - 1];
      AlwaysMissed(init, user, source);
      StampedLasts(Run(init), ev);
      SeenIsOldLasts(Run(init), ev);
      OpenMissedLasts(Run(init), ev, user, source);
      LiveMissedLasts(Run(init), ev, user, source);
    }
  }

  /**
   * Which access outlives a committed withdrawal: exactly that of the upserts which were open when
   * its UPDATE ran, or began after it.
   */
  lemma WithdrawalSurvivors(evs: seq<Event>, t: Tid, exp: Option<int>, now: int, r: Tid)
    requires t in Run(evs).open && !Run(evs).open[t].upsert
    ensures var s, s' := Run(evs), Run(evs + [Commit(t, exp, now)]);
            var user, source := s.open[t].user, s.open[t].source;
            && (Live(s', r, user, source) ==> Live(s, r, user, source))
            && (Live(s, r, user, source) ==> (Live(s', r, user, source) <==> Escapes(s, r, t)))
  {
    var s := Run(evs);
    AlwaysMissed(evs, s.open[t].user, s.open[t].source);
    Snoc(evs, Commit(t, exp, now));
    assert Saw(s, t, r) ==> Older(s, r, t);
    if Live(s, r, s.open[t].user, s.open[t].source) && r !in s.open[t].seen {
      assert Withdraws(s, t, s.open[t].user, s.open[t].source);
    }
  }

  lemma TwoOpen(user: E.User, source: E.Source)
    ensures Run([Update(0, user, source, true), Update(1, user, source, false)]) ==
              State(map[], map[0 := Tx(user, source, true, {}), 1 := Tx(user, source, false, {})],
                    map[0 := 0, 1 := 1], map[0 := {0}, 1 := {0}])
  {
    var e0, e1 := Update(0, user, source, true), Update(1, user, source, false);
    var open0 := map[0 := Tx(user, source, true, {})];
    var s := State(map[], open0, map[0 := 0], map[0 := {0}]);
    Snoc([], e0);
    Snoc([e0], e1);
    assert [] + [e0] == [e0] && [e0] + [e1] == [e0, e1];
    assert Run([]) == INITIAL;
    assert Step(INITIAL, e0) == s by {
      assert ActiveRows(INITIAL, user, source) == {};
      assert OpenUpserts(State(map[], open0, map[], map[]), user, source) == {0};
    }
    assert ActiveRows(s, user, source) == {};
    assert OpenUpserts(State(map[], open0[1 := Tx(user, source, false, {})], s.stamp, s.peers), user, source) == {0};
  }

  lemma GrantLands(s: State, user: E.User, source: E.Source, exp: Option<int>, now: int)
    requires s.rows == map[] && s.open == map[0 := Tx(user, source, true, {}), 1 := Tx(user, source, false, {})]
    ensures Step(s, Commit(0, exp, now)).rows == map[0 := E.Row(user, E.PRO, E.Active, source, exp, now)]
    ensures 1 in Step(s, Commit(0, exp, now)).open
    ensures Step(s, Commit(0, exp, now)).open[1] == Tx(user, source, false, {})
  {
    assert RevokeSeen(s.rows, s.open[0]) == map[];
  }

  lemma NothingRevoked(s: State, user: E.User, source: E.Source)
    requires 1 in s.open && s.open[1] == Tx(user, source, false, {})
    ensures Step(s, Commit(1, None, 0)).rows == s.rows
  {
  }

  /** A cancelled user can keep access: the grant was open when the cancellation looked for rows to revoke. */
  lemma CancelledKeepsAccess(user: E.User, source: E.Source, exp: Option<int>, now: int)
    ensures ActiveRows(Run([Update(0, user, source, true), Update(1, user, source, false),
                            Commit(0, exp, now), Commit(1, None, 0)]), user, source) == {0}
  {
    var evs := [Update(0, user, source, true), Update(1, user, source, false)];
    var e2, e3 := Commit(0, exp, now), Commit(1, None, 0);
    TwoOpen(user, source);
    GrantLands(Run(evs), user, source, exp, now);
    Snoc(evs, e2);
    NothingRevoked(Run(evs + [e2]), user, source);
    Snoc(evs + [e2], e3);
    assert evs + [e2] + [e3] == [Update(0, user, source, true), Update(1, user, source, false), e2, e3];
    hide Run, Step;
    assert forall r :: r in ActiveRows(Run(evs + [e2] + [e3]), user, source) <==> r == 0;
  }

  // ---- The bound is attained ----

  function Updates(user: E.User, source: E.Source, m: nat, n: nat): seq<Event>
    decreases n - m
  {
    if m >= n then [] else [Update(m, user, source, true)] + Updates(user, source, m + 1, n)
  }

  function Commits(m: nat, n: nat): seq<Event>
    decreases n - m
  {
    if m >= n then [] else [Commit(m, None, m)] + Commits(m + 1, n)
  }

  /** The upserts m .. n - 1 are open and saw nothing to revoke; the first m have their row in the table. */
  ghost predicate Landed(s: State, user: E.User, source: E.Source, m: nat, n: nat) {
    && (forall t: Tid :: m <= t < n ==> t in s.open && s.open[t] == Tx(user, source, true, {}))
    && (forall r: Tid :: r in s.rows <==> r < m)
    && (forall r: Tid :: r in s.rows ==> E.Matches(s.rows[r], user, source))
  }

  lemma OneUpdates(s: State, user: E.User, source: E.Source, n: nat)
    requires n !in s.stamp && Landed(s, user, source, 0, n)
    ensures Landed(Step(s, Update(n, user, source, true)), user, source, 0, n + 1)
  {
    assert ActiveRows(s, user, source) == {};
  }

  lemma OneCommits(s: State, user: E.User, source: E.Source, m: nat, n: nat, now: int)
    requires m < n && Landed(s, user, source, m, n)
    ensures Landed(Step(s, Commit(m, None, now)), user, source, m + 1, n)
  {
  }

  lemma {:induction false} UpdatesRun(evs: seq<Event>, user: E.User, source: E.Source, m: nat, n: nat)
    requires m <= n && Landed(Run(evs), user, source, 0, m)
    requires forall t :: t in Run(evs).stamp ==> t < m
    ensures Landed(Run(evs + Updates(user, source, m, n)), user, source, 0, n)
    decreases n - m
  {
    var ev := Update(m, user, source, true);
    if m == n {
      assert evs + Updates(user, source, m, n) == evs;
    } else {
      Snoc(evs, ev);
      OneUpdates(Run(evs), user, source, m);
      UpdatesRun(evs + [ev], user, source, m + 1, n);
      Regroup(evs, ev, Updates(user, source, m + 1, n));
    }
  }

  lemma {:induction false} CommitsRun(evs: seq<Event>, user: E.User, source: E.Source, m: nat, n: nat)
    requires m <= n && Landed(Run(evs), user, source, m, n)
    ensures Landed(Run(evs + Commits(m, n)), user, source, n, n)
    decreases n - m
  {
    var ev := Commit(m, None, m);
    if m == n {
      assert evs + Commits(m, n) == evs;
    } else {
      Snoc(evs, ev);
      OneCommits(Run(evs), user, source, m, n, m);
      CommitsRun(evs + [ev], user, source, m + 1, n);
      Regroup(evs, ev, Commits(m + 1, n));
    }
  }

  lemma Regroup(evs: seq<Event>, ev: Event, rest: seq<Event>)
    ensures evs + ([ev] + rest) == evs + [ev] + rest
  {
  }

  lemma Snoc(evs: seq<Event>, ev: Event)
    ensures Run(evs + [ev]) == Step(Run(evs), ev)
  {
    assert (evs + [ev])[..|evs|] == evs;
  }

  ghost predicate TidsBelow(evs: seq<Event>, k: nat) {
    forall i :: 0 <= i < |evs| ==> evs[i].t < k
  }

  lemma {:induction false} FewOpen(evs: seq<Event>, user: E.User, source: E.Source, k: nat)
    requires TidsBelow(evs, k)
    ensures forall t :: t in Run(evs).open ==> t < k
    ensures |OpenUpserts(Run(evs), user, source)| <= k
  {
    if evs != [] {
      FewOpen(evs[..|evs| - 1], user, source, k);
    }
    Below(OpenUpserts(Run(evs), user, source), k);
  }

  lemma {:induction false} Below(ts: set<nat>, k: nat)
    requires forall t :: t in ts ==> t < k
    ensures |ts| <= k
    ensures (forall t: nat :: t < k ==> t in ts) ==> |ts| == k
    decreases k
  {
    if k > 0 {
      Below(ts - {k - 1}, k - 1);
    } else {
      assert ts == {};
    }
  }

  lemma {:induction false} TidsOfAll(user: E.User, source: E.Source, m: nat, n: nat)
    ensures TidsBelow(Updates(user, source, m, n), n) && TidsBelow(Commits(m, n), n)
    decreases n - m
  {
    if m < n {
      TidsOfAll(user, source, m + 1, n);
    }
  }

  /** With k upserts open together, k active rows can be left behind: nothing in the schema forbids it. */
  lemma BoundIsAttained(user: E.User, source: E.Source, k: nat)
    ensures var evs := Updates(user, source, 0, k) + Commits(0, k);
            AtMostOpen(evs, user, source, k) && |ActiveRows(Run(evs), user, source)| == k
  {
    var evs := Updates(user, source, 0, k) + Commits(0, k);
    TidsOfAll(user, source, 0, k);
    forall i | 0 <= i <= |evs|
      ensures |OpenUpserts(Run(evs[..i]), user, source)| <= k
    {
      FewOpen(evs[..i], user, source, k);
    }
    UpdatesRun([], user, source, 0, k);
    assert [] + Updates(user, source, 0, k) == Updates(user, source, 0, k);
    CommitsRun(Updates(user, source, 0, k), user, source, 0, k);
    var s := Run(evs);
    assert forall t: nat :: t < k ==> t in s.rows && t in ActiveRows(s, user, source);
    Below(ActiveRows(s, user, source), k);
  }
}
