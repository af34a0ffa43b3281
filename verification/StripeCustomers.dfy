/**
 * Creating the Stripe customer of a user on first use (internal/billing/customer.go).
 *
 * Any number of requests run the same five-step protocol over the table stripe_customers
 * and over Stripe itself, with no transaction around it.  Each statement and each call to
 * Stripe is one atomic step; a run is any interleaving of them.  Any of the three writes can be
 * refused, and can be carried out although its caller is told of an error.
 */
module StripeCustomers {
  import opened Base

  type User = nat
  type Customer = nat
  type Pid = nat

  datatype Failure = LookupFailed | CreateFailed | InsertFailed | ReselectFailed | MissingAfterConflict
  datatype Result = Existing(id: Customer) | Created(id: Customer) | Failed(why: Failure)

  /** Where a request stands; `id` is the Stripe customer it created and has not accounted for. */
  datatype Pc =
    | Start
    | Absent
    | Holding(id: Customer)
    | Conflict(id: Customer)
    | Discard(id: Customer, result: Result)
    | Done(result: Result)

  datatype Proc = Proc(user: User, pc: Pc)

  datatype State = State(
    table: map<User, Customer>,
    creator: map<Customer, Pid>,  // every customer ever created at Stripe, and by which request
    live: set<Customer>,          // customers that exist at Stripe
    leaked: set<Customer>,        // customers whose deletion was refused
    orphaned: set<Customer>,      // customers created although the call reported an error
    lost: set<Customer>,          // rows written although the insert reported an error
    procs: map<Pid, Proc>)

  const INITIAL := State(map[], map[], {}, {}, {}, {}, map[])

  /** A write can be refused, or be carried out and lose its reply. */
  datatype Fault = NoFault | Rejected | ReplyLost

  datatype Event =
    | Arrive(p: Pid, user: User)
    | Select(p: Pid, ok: bool)
    | Create(p: Pid, id: Customer, fault: Fault)
    | Insert(p: Pid, fault: Fault)
    | Reselect(p: Pid, ok: bool)
    | Delete(p: Pid, fault: Fault)

  function Move(s: State, p: Pid, pc: Pc): State
    requires p in s.procs
  {
    s.(procs := s.procs[p := Proc(s.procs[p].user, pc)])
  }

  /** An event that does not fit where its request stands changes nothing. */
  function Step(s: State, ev: Event): State {
    if ev.Arrive? then
      if ev.p in s.procs then s else s.(procs := s.procs[ev.p := Proc(ev.user, Start)])
    else if ev.p !in s.procs then s
    else
      var p, pc, user := ev.p, s.procs[ev.p].pc, s.procs[ev.p].user;
      if ev.Select? && pc.Start? then
        if !ev.ok then Move(s, p, Done(Failed(LookupFailed)))
        else if user in s.table then Move(s, p, Done(Existing(s.table[user])))
        else Move(s, p, Absent)
      else if ev.Create? && pc.Absent? then
        // Stripe never issues an id twice
        if ev.fault == Rejected || ev.id in s.creator then Move(s, p, Done(Failed(CreateFailed)))
        else
          var s' := Move(s, p, if ev.fault == NoFault then Holding(ev.id) else Done(Failed(CreateFailed)));
          s'.(creator := s.creator[ev.id := p], live := s.live + {ev.id},
              orphaned := if ev.fault == NoFault then s.orphaned else s.orphaned + {ev.id})
      else if ev.Insert? && pc.Holding? then
        if ev.fault == NoFault && user in s.table then Move(s, p, Conflict(pc.id))
        else if ev.fault == NoFault then Move(s, p, Done(Created(pc.id))).(table := s.table[user := pc.id])
        else if ev.fault == ReplyLost && user !in s.table then
          Move(s, p, Discard(pc.id, Failed(InsertFailed))).(table := s.table[user := pc.id], lost := s.lost + {pc.id})
        else Move(s, p, Discard(pc.id, Failed(InsertFailed)))
      else if ev.Reselect? && pc.Conflict? then
        if !ev.ok then Move(s, p, Discard(pc.id, Failed(ReselectFailed)))
        else if user in s.table then Move(s, p, Discard(pc.id, Existing(s.table[user])))
        else Move(s, p, Discard(pc.id, Failed(MissingAfterConflict)))
      else if ev.Delete? && pc.Discard? then
        if ev.fault == Rejected then Move(s, p, Done(pc.result)).(leaked := s.leaked + {pc.id})
        else Move(s, p, Done(pc.result)).(live := s.live - {pc.id})
      else s
  }

  function Run(s: State, evs: seq<Event>): State {
    if evs == [] then s else Step(Run(s, evs[..|evs| - 1]), evs[|evs| - 1])
  }

  // ---- What every step keeps ----

  predicate Carries(pc: Pc) {
    pc.Holding? || pc.Conflict? || pc.Discard?
  }

  /** The request that created `id` still has to account for it. */
  predicate Held(s: State, id: Customer) {
    && id in s.creator && s.creator[id] in s.procs
    && Carries(s.procs[s.creator[id]].pc) && s.procs[s.creator[id]].pc.id == id
  }

  /** The row of the user it was created for names `id`. */
  predicate Mapped(s: State, id: Customer) {
    && id in s.creator && s.creator[id] in s.procs
    && var user := s.procs[s.creator[id]].user;
       user in s.table && s.table[user] == id
  }

  /** A successful answer is the user's mapping; a failure is never "missing after conflict". */
  predicate Honest(s: State, p: Pid, user: User, result: Result) {
    match result
    case Existing(id) => user in s.table && s.table[user] == id
    case Created(id) => user in s.table && s.table[user] == id && id in s.creator && s.creator[id] == p && id !in s.lost
    case Failed(why) => why != MissingAfterConflict
  }

  ghost predicate ProcOk(s: State, p: Pid)
    requires p in s.procs
  {
    var pc, user := s.procs[p].pc, s.procs[p].user;
    && (Carries(pc) ==>
          && pc.id in s.creator && s.creator[pc.id] == p
          && pc.id in s.live && pc.id !in s.leaked && pc.id !in s.orphaned)
    && (pc.Holding? || pc.Conflict? ==> !Mapped(s, pc.id))
    && (pc.Conflict? ==> user in s.table)
    && (pc.Discard? && Mapped(s, pc.id) ==> pc.id in s.lost)
    && (pc.Discard? || pc.Done? ==> Honest(s, p, user, pc.result))
  }

  ghost predicate CustomerOk(s: State, id: Customer)
    requires id in s.creator
  {
    && s.creator[id] in s.procs
    && (id in s.lost ==> Mapped(s, id))
    && (id in s.leaked && Mapped(s, id) ==> id in s.lost)
    && (id in s.orphaned ==> !Mapped(s, id))
    && (id in s.live <==> (Mapped(s, id) && id !in s.lost) || Held(s, id) || id in s.leaked || id in s.orphaned)
  }

  /** A row names a customer that was created for its user. */
  ghost predicate MappingOk(s: State, u: User)
    requires u in s.table
  {
    var id := s.table[u];
    id in s.creator && s.creator[id] in s.procs && s.procs[s.creator[id]].user == u
  }

  ghost predicate Inv(s: State) {
    && (forall p :: p in s.procs ==> ProcOk(s, p))
    && (forall id :: id in s.creator ==> CustomerOk(s, id))
    && s.live <= s.creator.Keys && s.leaked <= s.creator.Keys
    && s.orphaned <= s.creator.Keys && s.lost <= s.creator.Keys
    && (forall u :: u in s.table ==> MappingOk(s, u))
  }

  lemma ArriveKeepsInv(s: State, ev: Event)
    requires Inv(s) && ev.Arrive?
    ensures Inv(Step(s, ev))
  {
    var s' := Step(s, ev);
    forall q | q in s'.procs ensures ProcOk(s', q) { assert q in s.procs ==> ProcOk(s, q); }
    forall id | id in s'.creator ensures CustomerOk(s', id) { assert CustomerOk(s, id); }
    forall u | u in s'.table ensures MappingOk(s', u) { assert MappingOk(s, u); }
  }

  /** A step that only moves one request, with the same customer in hand. */
  lemma MoveKeepsInv(s: State, p: Pid, pc: Pc)
    requires Inv(s) && p in s.procs
    requires Carries(pc) == Carries(s.procs[p].pc) && (Carries(pc) ==> pc.id == s.procs[p].pc.id)
    requires ProcOk(Move(s, p, pc), p)
    ensures Inv(Move(s, p, pc))
  {
    var s' := Move(s, p, pc);
    forall q | q in s'.procs ensures ProcOk(s', q) { assert ProcOk(s, q); }
    forall id | id in s'.creator ensures CustomerOk(s', id) { assert CustomerOk(s, id); }
    forall u | u in s'.table ensures MappingOk(s', u) { assert MappingOk(s, u); }
  }

  /** A customer created at Stripe, whether or not the request hears of it. */
  lemma CreateKeepsInv(s: State, p: Pid, id: Customer, fault: Fault)
    requires Inv(s) && p in s.procs && s.procs[p].pc.Absent? && id !in s.creator && fault != Rejected
    ensures Inv(Step(s, Create(p, id, fault)))
  {
    var s' := Step(s, Create(p, id, fault));
    forall q | q in s'.procs ensures ProcOk(s', q) { assert ProcOk(s, q); }
    forall u | u in s'.table ensures MappingOk(s', u) { assert MappingOk(s, u); }
    forall c | c in s'.creator
      ensures CustomerOk(s', c)
    {
      if c != id {
        assert CustomerOk(s, c);
        assert Mapped(s', c) == Mapped(s, c) && Held(s', c) == Held(s, c);
      } else {
        assert id !in s.lost && id !in s.leaked && !Mapped(s', id);
      }
    }
  }

  /** The first insert for a user, with or without its reply. */
  lemma WriteKeepsInv(s: State, p: Pid, fault: Fault)
    requires Inv(s) && p in s.procs && s.procs[p].pc.Holding? && s.procs[p].user !in s.table && fault != Rejected
    ensures Inv(Step(s, Insert(p, fault)))
  {
    var s' := Step(s, Insert(p, fault));
    var id := s.procs[p].pc.id;
    assert ProcOk(s, p);
    forall q | q in s'.procs
      ensures ProcOk(s', q)
    {
      WriteKeepsProc(s, p, fault, q);
    }
    forall u | u in s'.table ensures MappingOk(s', u) { assert u in s.table ==> MappingOk(s, u); }
    forall c | c in s'.creator
      ensures CustomerOk(s', c)
    {
      assert CustomerOk(s, c);
      if c != id {
        assert Mapped(s', c) == Mapped(s, c) && Held(s', c) == Held(s, c);
      }
    }
  }

  lemma WriteKeepsProc(s: State, p: Pid, fault: Fault, q: Pid)
    requires Inv(s) && p in s.procs && s.procs[p].pc.Holding? && s.procs[p].user !in s.table && fault != Rejected
    requires q in s.procs
    ensures ProcOk(Step(s, Insert(p, fault)), q)
  {
    assert ProcOk(s, p) && ProcOk(s, q);
  }

  lemma DeleteKeepsProc(s: State, p: Pid, fault: Fault, q: Pid)
    requires Inv(s) && p in s.procs && s.procs[p].pc.Discard? && q in s.procs
    ensures ProcOk(Step(s, Delete(p, fault)), q)
  {
    assert ProcOk(s, p) && ProcOk(s, q);
  }

  lemma DeleteKeepsCustomer(s: State, p: Pid, fault: Fault, c: Customer)
    requires Inv(s) && p in s.procs && s.procs[p].pc.Discard? && c in s.creator
    ensures CustomerOk(Step(s, Delete(p, fault)), c)
  {
    var s' := Step(s, Delete(p, fault));
    assert ProcOk(s, p) && CustomerOk(s, c);
    assert Mapped(s', c) == Mapped(s, c);
    assert c != s.procs[p].pc.id ==> Held(s', c) == Held(s, c);
  }

  lemma DeleteKeepsInv(s: State, p: Pid, fault: Fault)
    requires Inv(s) && p in s.procs && s.procs[p].pc.Discard?
    ensures Inv(Step(s, Delete(p, fault)))
  {
    var s' := Step(s, Delete(p, fault));
    assert ProcOk(s, p);
    forall q | q in s'.procs ensures ProcOk(s', q) { DeleteKeepsProc(s, p, fault, q); }
    forall u | u in s'.table ensures MappingOk(s', u) { assert MappingOk(s, u); }
    forall c | c in s'.creator ensures CustomerOk(s', c) { DeleteKeepsCustomer(s, p, fault, c); }
  }

  lemma StepKeepsInv(s: State, ev: Event)
    requires Inv(s)
    ensures Inv(Step(s, ev))
  {
    var s' := Step(s, ev);
    if ev.Arrive? {
      ArriveKeepsInv(s, ev);
    } else if s' != s {
      var p, pc := ev.p, s.procs[ev.p].pc;
      assert ProcOk(s, p);
      if ev.Create? && s'.creator != s.creator {
        CreateKeepsInv(s, p, ev.id, ev.fault);
      } else if ev.Insert? && s'.table != s.table {
        WriteKeepsInv(s, p, ev.fault);
      } else if ev.Delete? {
        DeleteKeepsInv(s, p, ev.fault);
      } else {
        MoveKeepsInv(s, p, s'.procs[p].pc);
      }
    }
  }

  lemma {:induction false} RunKeepsInv(s: State, evs: seq<Event>)
    requires Inv(s)
    ensures Inv(Run(s, evs))
  {
    if evs != [] {
      RunKeepsInv(s, evs[..|evs| - 1]);
      StepKeepsInv(Run(s, evs[..|evs| - 1]), evs[|evs| - 1]);
    }
  }

  // ---- Every interleaving ----

  lemma {:induction false} RunConcat(s: State, a: seq<Event>, b: seq<Event>)
    ensures Run(s, a + b) == Run(Run(s, a), b)
    decreases |b|
  {
    if b == [] {
      assert a + b == a;
    } else {
      assert (a + b)[..|a + b| - 1] == a + b[..|b| - 1];
      RunConcat(s, a, b[..|b| - 1]);
    }
  }

  lemma StepGrows(s: State, ev: Event)
    ensures forall u :: u in s.table ==> u in Step(s, ev).table && Step(s, ev).table[u] == s.table[u]
    ensures forall p :: p in s.procs ==> p in Step(s, ev).procs && Step(s, ev).procs[p].user == s.procs[p].user
    ensures forall p :: p != ev.p ==> (p in s.procs <==> p in Step(s, ev).procs)
    ensures forall p :: p in s.procs && p != ev.p ==> Step(s, ev).procs[p] == s.procs[p]
  {
  }

  /** A mapping, once there, is there for good and never changes. */
  lemma {:induction false} MappingIsSetOnce(evs: seq<Event>, more: seq<Event>, user: User)
    requires user in Run(INITIAL, evs).table
    ensures user in Run(INITIAL, evs + more).table
    ensures Run(INITIAL, evs + more).table[user] == Run(INITIAL, evs).table[user]
    decreases |more|
  {
    if more == [] {
      assert evs + more == evs;
    } else {
      assert (evs + more)[..|evs + more| - 1] == evs + more[..|more| - 1];
      MappingIsSetOnce(evs, more[..|more| - 1], user);
      StepGrows(Run(INITIAL, evs + more[..|more| - 1]), more[|more| - 1]);
    }
  }

  predicate Answered(s: State, p: Pid) {
    p in s.procs && s.procs[p].pc.Done?
  }

  /** The customer a finished request returned, if it succeeded. */
  function Returned(s: State, p: Pid): Option<Customer>
    requires Answered(s, p)
  {
    if s.procs[p].pc.result.Failed? then None else Some(s.procs[p].pc.result.id)
  }

  /** All successful answers to one user name the one mapped customer, and at most one says "created". */
  lemma AnswersAgree(evs: seq<Event>, p: Pid, q: Pid)
    requires Answered(Run(INITIAL, evs), p) && Answered(Run(INITIAL, evs), q)
    requires Run(INITIAL, evs).procs[p].user == Run(INITIAL, evs).procs[q].user
    ensures var s := Run(INITIAL, evs);
            && (Returned(s, p).Some? ==> s.procs[p].user in s.table && Returned(s, p) == Some(s.table[s.procs[p].user]))
            && (Returned(s, p).Some? && Returned(s, q).Some? ==> Returned(s, p) == Returned(s, q))
            && (s.procs[p].pc.result.Created? && s.procs[q].pc.result.Created? ==> p == q)
            && s.procs[p].pc.result != Failed(MissingAfterConflict)
  {
    RunKeepsInv(INITIAL, evs);
    assert ProcOk(Run(INITIAL, evs), p) && ProcOk(Run(INITIAL, evs), q);
  }

  ghost function HeldIds(s: State): set<Customer> {
    set id | id in s.creator && Held(s, id)
  }

  lemma MappedIds(s: State, id: Customer)
    requires Inv(s)
    ensures id in s.table.Values <==> Mapped(s, id)
  {
    if id in s.table.Values {
      var u :| u in s.table && s.table[u] == id;
      assert MappingOk(s, u);
    }
  }

  /**
   * Where every customer is, in any interleaving: what lives at Stripe is what the table maps by an
   * insert that was heard of, what running requests still hold, what could not be deleted, and what
   * was created without its request hearing of it.  Stripe is assumed never to issue an id twice.
   */
  lemma Conservation(evs: seq<Event>)
    ensures var s := Run(INITIAL, evs);
            s.live == (s.table.Values - s.lost) + HeldIds(s) + s.leaked + s.orphaned
  {
    RunKeepsInv(INITIAL, evs);
    var s := Run(INITIAL, evs);
    forall id
      ensures id in s.live <==> id in (s.table.Values - s.lost) + HeldIds(s) + s.leaked + s.orphaned
    {
      MappedIds(s, id);
      if id in s.creator {
        assert CustomerOk(s, id);
      }
    }
  }

  ghost predicate Quiescent(s: State) {
    forall p :: p in s.procs ==> s.procs[p].pc.Done?
  }

  /** The faults left no trace on these customers: none orphaned, and refused deletions only after lost inserts. */
  predicate Traceless(orphaned: set<Customer>, leaked: set<Customer>, lost: set<Customer>) {
    orphaned == {} && leaked == lost
  }

  /** When all requests are done, Stripe and the table agree exactly when the faults left no trace. */
  lemma AgreementAtRest(evs: seq<Event>)
    requires Quiescent(Run(INITIAL, evs))
    ensures var s := Run(INITIAL, evs);
            s.live == s.table.Values <==> Traceless(s.orphaned, s.leaked, s.lost)
  {
    Conservation(evs);
    RunKeepsInv(INITIAL, evs);
    var s := Run(INITIAL, evs);
    assert HeldIds(s) == {};
    forall id
      ensures id in s.lost ==> id in s.table.Values
      ensures id in s.leaked && id in s.table.Values ==> id in s.lost
      ensures id in s.orphaned ==> id !in s.table.Values
    {
      MappedIds(s, id);
      if id in s.creator {
        assert CustomerOk(s, id);
      }
    }
    if s.live == s.table.Values {
      assert forall id :: id in s.leaked ==> id in s.live;
      assert forall id :: id in s.lost ==> id in s.live;
      assert forall id :: id in s.orphaned ==> id in s.live;
    }
  }

  /** Those of the customers that were created for `user`. */
  ghost function Of(s: State, ids: set<Customer>, user: User): set<Customer> {
    set id | id in ids && id in s.creator && s.creator[id] in s.procs && s.procs[s.creator[id]].user == user
  }

  ghost function MappedTo(s: State, user: User): set<Customer> {
    if user in s.table then {s.table[user]} else {}
  }

  lemma OfMapping(s: State, user: User, id: Customer)
    requires Inv(s) && id in Of(s, s.creator.Keys, user)
    ensures Mapped(s, id) <==> id in MappedTo(s, user)
  {
    if user in s.table { assert MappingOk(s, user); }
  }

  /**
   * The promise of the code, user by user: at rest the live customers of a user are exactly the
   * mapped one, or none, if and only if the faults left no trace on that user's customers.
   */
  lemma OneCustomerPerUser(evs: seq<Event>, user: User)
    requires Quiescent(Run(INITIAL, evs))
    ensures var s := Run(INITIAL, evs);
            Of(s, s.live, user) == MappedTo(s, user) <==>
              Traceless(Of(s, s.orphaned, user), Of(s, s.leaked, user), Of(s, s.lost, user))
  {
    RunKeepsInv(INITIAL, evs);
    var s := Run(INITIAL, evs);
    var live, mapped := Of(s, s.live, user), MappedTo(s, user);
    var orphaned, leaked, lost := Of(s, s.orphaned, user), Of(s, s.leaked, user), Of(s, s.lost, user);
    forall id
      ensures id in live <==> (id in mapped && id !in lost) || id in leaked || id in orphaned
      ensures id in lost ==> id in mapped
      ensures id in leaked && id in mapped ==> id in lost
      ensures id in orphaned ==> id !in mapped
    {
      UsersCustomer(s, user, id);
    }
    if live == mapped {
      assert forall id :: id in leaked ==> id in live;
      assert forall id :: id in lost ==> id in live;
      assert forall id :: id in orphaned ==> id in live;
    }
  }

  lemma UsersCustomer(s: State, user: User, id: Customer)
    requires Inv(s) && Quiescent(s)
    ensures id in Of(s, s.live, user) <==>
              || (id in MappedTo(s, user) && id !in Of(s, s.lost, user))
              || id in Of(s, s.leaked, user) || id in Of(s, s.orphaned, user)
    ensures id in Of(s, s.lost, user) ==> id in MappedTo(s, user)
    ensures id in Of(s, s.leaked, user) && id in MappedTo(s, user) ==> id in Of(s, s.lost, user)
    ensures id in Of(s, s.orphaned, user) ==> id !in MappedTo(s, user)
  {
    if user in s.table { assert MappingOk(s, user); }
    if id in Of(s, s.creator.Keys, user) {
      OfMapping(s, user, id);
      assert CustomerOk(s, id);
    }
  }

  lemma OneRequestHolds()
    ensures Run(INITIAL, [Arrive(0, 7), Select(0, true), Create(0, 1, NoFault)])
         == State(map[], map[1 := 0], {1}, {}, {}, {}, map[0 := Proc(7, Holding(1))])
  {
    var e0, e1, e2 := Arrive(0, 7), Select(0, true), Create(0, 1, NoFault);
    Snoc(INITIAL, [], e0);
    Snoc(INITIAL, [e0], e1);
    Snoc(INITIAL, [e0, e1], e2);
    assert [] + [e0] == [e0] && [e0] + [e1] == [e0, e1] && [e0, e1] + [e2] == [e0, e1, e2];
  }

  /** A reply lost after the insert breaks the promise: the mapped customer is then deleted. */
  lemma LostReplyStrandsTheUser()
    ensures var s := Run(INITIAL, [Arrive(0, 7), Select(0, true), Create(0, 1, NoFault),
                                   Insert(0, ReplyLost), Delete(0, NoFault)]);
            Quiescent(s) && s.leaked == {} && s.orphaned == {} && s.table == map[7 := 1] && s.live == {}
  {
    var evs, e3, e4 := [Arrive(0, 7), Select(0, true), Create(0, 1, NoFault)], Insert(0, ReplyLost), Delete(0, NoFault);
    OneRequestHolds();
    Snoc(INITIAL, evs, e3);
    Snoc(INITIAL, evs + [e3], e4);
    assert evs + [e3] + [e4] == [Arrive(0, 7), Select(0, true), Create(0, 1, NoFault), e3, e4];
  }

  /** A request of a user without a row, from start to end, with nothing else going wrong. */
  function Undisturbed(p: Pid, user: User, id: Customer): seq<Event> {
    [Arrive(p, user), Select(p, true), Create(p, id, NoFault), Insert(p, NoFault)]
  }

  lemma UndisturbedMaps(s: State, p: Pid, user: User, id: Customer)
    requires p !in s.procs && user !in s.table && id !in s.creator
    ensures Run(s, Undisturbed(p, user, id))
         == s.(table := s.table[user := id], creator := s.creator[id := p], live := s.live + {id},
               procs := s.procs[p := Proc(user, Done(Created(id)))])
  {
    var e0, e1, e2, e3 := Arrive(p, user), Select(p, true), Create(p, id, NoFault), Insert(p, NoFault);
    Snoc(s, [], e0);
    Snoc(s, [e0], e1);
    Snoc(s, [e0, e1], e2);
    Snoc(s, [e0, e1, e2], e3);
    assert [] + [e0] == [e0] && [e0] + [e1] == [e0, e1] && [e0, e1] + [e2] == [e0, e1, e2];
    assert [e0, e1, e2] + [e3] == Undisturbed(p, user, id);
    var s0 := Step(s, e0);
    var s1 := Step(s0, e1);
    var s2 := Step(s1, e2);
    assert s2.procs == s.procs[p := Proc(user, Holding(id))];
  }

  /**
   * A reply lost after the customer was created breaks it too: from any state, the user's next
   * request creates and maps a second customer, and the first lives on, unknown to everybody.
   */
  lemma LostCreateLeavesTwo(s: State, p: Pid, q: Pid, user: User, id: Customer, id': Customer)
    requires Inv(s) && p in s.procs && s.procs[p] == Proc(user, Absent) && user !in s.table
    requires q !in s.procs && id !in s.creator && id' !in s.creator && id != id'
    ensures var s' := Run(Step(s, Create(p, id, ReplyLost)), Undisturbed(q, user, id'));
            && s'.table == s.table[user := id'] && s'.live == s.live + {id, id'}
            && s'.leaked == s.leaked && s'.lost == s.lost && s'.orphaned == s.orphaned + {id}
            && {id, id'} <= Of(s', s'.live, user)
  {
    UndisturbedMaps(Step(s, Create(p, id, ReplyLost)), q, user, id');
  }

  lemma Snoc(s: State, evs: seq<Event>, ev: Event)
    ensures Run(s, evs + [ev]) == Step(Run(s, evs), ev)
  {
    assert (evs + [ev])[..|evs|] == evs;
  }

  // ---- Which event gives a request its answer ----

  /** The answer of the request is fixed, whether or not it still has a customer to delete. */
  ghost predicate Settled(s: State, p: Pid, result: Result) {
    p in s.procs && (s.procs[p].pc == Done(result) || (s.procs[p].pc.Discard? && s.procs[p].pc.result == result))
  }

  /**
   * The event, met by its own request at the right statement, is the reason for this result: a
   * failure needs a refused or unanswered statement of its own name, or a used id; "created" needs
   * the insert that wrote the row, and "existing" a SELECT that read it.
   */
  ghost predicate Explains(s: State, ev: Event, p: Pid, result: Result) {
    && ev.p == p && p in s.procs
    && var pc, user := s.procs[p].pc, s.procs[p].user;
       match result
       case Created(id) => pc == Holding(id) && ev == Insert(p, NoFault) && user !in s.table
       case Existing(id) =>
         && user in s.table && s.table[user] == id
         && ((pc == Start && ev == Select(p, true)) || (pc.Conflict? && ev == Reselect(p, true)))
       case Failed(LookupFailed) => pc == Start && ev == Select(p, false)
       case Failed(CreateFailed) => pc == Absent && ev.Create? && (ev.fault != NoFault || ev.id in s.creator)
       case Failed(InsertFailed) => pc.Holding? && ev.Insert? && ev.fault != NoFault
       case Failed(ReselectFailed) => pc.Conflict? && ev == Reselect(p, false)
       case Failed(MissingAfterConflict) => false
  }

  /** At some point of the run an event explained the result. */
  ghost predicate Explained(s: State, evs: seq<Event>, p: Pid, result: Result) {
    exists i :: 0 <= i < |evs| && Explains(Run(s, evs[..i]), evs[i], p, result)
  }

  lemma ExplainedSnoc(s: State, evs: seq<Event>, p: Pid, result: Result)
    requires evs != []
    ensures var n := |evs| - 1;
            Explained(s, evs, p, result) <==>
              Explained(s, evs[..n], p, result) || Explains(Run(s, evs[..n]), evs[n], p, result)
  {
    hide Explains, Run;
    var init := evs[..|evs| - 1];
    forall i | 0 <= i < |init| ensures evs[..i] == init[..i] && evs[i] == init[i] {}
  }

  lemma ConflictHasRow(s: State, p: Pid)
    requires Inv(s) && p in s.procs && s.procs[p].pc.Conflict?
    ensures s.procs[p].user in s.table
  {
    assert ProcOk(s, p);
  }

  lemma StepSettles(s: State, ev: Event, p: Pid, result: Result)
    requires ev.p == p && (p in s.procs && s.procs[p].pc.Conflict? ==> s.procs[p].user in s.table)
    ensures Settled(Step(s, ev), p, result) <==> Settled(s, p, result) || Explains(s, ev, p, result)
  {
  }

  /** In every interleaving a request has an answer exactly when one of its own steps gave the reason for it. */
  lemma {:induction false} AnswerIsExplained(s: State, evs: seq<Event>, p: Pid, result: Result)
    requires Inv(s) && p !in s.procs
    ensures Settled(Run(s, evs), p, result) <==> Explained(s, evs, p, result)
  {
    hide Inv, Step;
    if evs != [] {
      var n := |evs| - 1;
      var now, ev := Run(s, evs[..n]), evs[n];
      AnswerIsExplained(s, evs[..n], p, result);
      ExplainedSnoc(s, evs, p, result);
      StepGrows(now, ev);
      RunKeepsInv(s, evs[..n]);
      if ev.p == p {
        if p in now.procs && now.procs[p].pc.Conflict? { ConflictHasRow(now, p); }
        StepSettles(now, ev, p, result);
      }
    }
  }

  ghost predicate Spares(evs: seq<Event>, p: Pid) {
    forall i :: 0 <= i < |evs| ==> evs[i].p != p
  }

  /** Other requests neither move this one nor take a mapping away from its user. */
  lemma {:induction false} SparesRun(s: State, evs: seq<Event>, p: Pid)
    requires Inv(s) && Spares(evs, p)
    ensures Inv(Run(s, evs))
    ensures p in s.procs <==> p in Run(s, evs).procs
    ensures p in s.procs ==> Run(s, evs).procs[p] == s.procs[p]
    ensures forall u :: u in s.table ==> u in Run(s, evs).table && Run(s, evs).table[u] == s.table[u]
  {
    if evs != [] {
      var init := Run(s, evs[..|evs| - 1]);
      SparesRun(s, evs[..|evs| - 1], p);
      StepKeepsInv(init, evs[|evs| - 1]);
      StepGrows(init, evs[|evs| - 1]);
    }
  }

  /** One of the creations in `evs` is given this id. */
  ghost predicate Issues(evs: seq<Event>, id: Customer) {
    exists i :: 0 <= i < |evs| && evs[i].Create? && evs[i].id == id
  }

  lemma {:induction false} IdsAreIssued(s: State, evs: seq<Event>, id: Customer)
    requires id !in s.creator && id in Run(s, evs).creator
    ensures Issues(evs, id)
  {
    var n := |evs| - 1;
    if id in Run(s, evs[..n]).creator {
      IdsAreIssued(s, evs[..n], id);
      var i :| 0 <= i < n && evs[..n][i].Create? && evs[..n][i].id == id;
      assert evs[i].Create?;
    } else {
      assert evs[n].Create?;
    }
  }

  // ---- The request as written, in a world that moves between its statements ----

  class Billing {
    var table: map<User, Customer>
    var creator: map<Customer, Pid>
    var live: set<Customer>
    var leaked: set<Customer>
    var orphaned: set<Customer>
    var lost: set<Customer>
    var procs: map<Pid, Proc>

    function View(): State
      reads this
    {
      State(table, creator, live, leaked, orphaned, lost, procs)
    }

    ghost predicate Valid()
      reads this
    {
      Inv(View())
    }

    constructor ()
      ensures Valid() && View() == INITIAL
    {
      table, creator, procs := map[], map[], map[];
      live, leaked, orphaned, lost := {}, {}, {}, {};
    }

    /** Any steps of requests other than `p`. */
    method Others(evs: seq<Event>, ghost p: Pid)
      requires Valid() && Spares(evs, p)
      modifies this
      ensures Valid() && View() == Run(old(View()), evs)
      ensures p in old(procs) <==> p in procs
      ensures p in old(procs) ==> procs[p] == old(procs)[p]
      ensures forall u :: u in old(table) ==> u in table && table[u] == old(table)[u]
      ensures forall id :: id in creator && id !in old(creator) ==> Issues(evs, id)
    {
      var i := 0;
      while i < |evs|
        invariant 0 <= i <= |evs|
        invariant View() == Run(old(View()), evs[..i])
      {
        assert evs[..i + 1][..i] == evs[..i];
        var s := Step(View(), evs[i]);
        table, creator, live := s.table, s.creator, s.live;
        leaked, orphaned, lost, procs := s.leaked, s.orphaned, s.lost, s.procs;
        i := i + 1;
      }
      assert evs[..i] == evs;
      SparesRun(old(View()), evs, p);
      forall id | id in creator && id !in old(creator) ensures Issues(evs, id) {
        IdsAreIssued(old(View()), evs, id);
      }
    }

    method Enter(p: Pid, user: User)
      requires Valid() && p !in procs
      modifies this
      ensures Valid() && View() == Step(old(View()), Arrive(p, user))
      ensures procs == old(procs)[p := Proc(user, Start)] && table == old(table) && creator == old(creator)
    {
      ArriveKeepsInv(View(), Arrive(p, user));
      procs := procs[p := Proc(user, Start)];
    }

    /** The first SELECT: an answer, or no row. */
    method SelectCustomer(p: Pid, ok: bool) returns (answer: Option<Result>)
      requires Valid() && p in procs && procs[p].pc == Start
      modifies this
      ensures Valid() && View() == Step(old(View()), Select(p, ok))
      ensures table == old(table) && creator == old(creator) && p in procs
      ensures procs[p] == Proc(old(procs[p].user), if answer.Some? then Done(answer.value) else Absent)
      ensures !ok ==> answer == Some(Failed(LookupFailed))
      ensures ok && procs[p].user in old(table) ==> answer == Some(Existing(old(table)[procs[p].user]))
      ensures ok && procs[p].user !in old(table) ==> answer == None
    {
      StepKeepsInv(View(), Select(p, ok));
      var user := procs[p].user;
      if !ok {
        answer := Some(Failed(LookupFailed));
      } else if user in table {
        answer := Some(Existing(table[user]));
      } else {
        answer := None;
      }
      procs := procs[p := Proc(user, if answer.Some? then Done(answer.value) else Absent)];
    }

    /** Customers.New: an error leaves nothing behind, or a customer nobody knows of. */
    method CreateCustomer(p: Pid, id: Customer, fault: Fault) returns (ok: bool)
      requires Valid() && p in procs && procs[p].pc == Absent
      modifies this
      ensures Valid() && View() == Step(old(View()), Create(p, id, fault))
      ensures ok <==> fault == NoFault && id !in old(creator)
      ensures p in procs
      ensures procs[p] == Proc(old(procs[p].user), if ok then Holding(id) else Done(Failed(CreateFailed)))
      ensures if fault == Rejected || id in old(creator) then live == old(live) && creator == old(creator)
              else live == old(live) + {id} && creator == old(creator)[id := p]
    {
      StepKeepsInv(View(), Create(p, id, fault));
      var user := procs[p].user;
      ok := fault == NoFault && id !in creator;
      if fault != Rejected && id !in creator {
        creator, live := creator[id := p], live + {id};
        if !ok {
          orphaned := orphaned + {id};
        }
      }
      procs := procs[p := Proc(user, if ok then Holding(id) else Done(Failed(CreateFailed)))];
    }

    /** INSERT ... ON CONFLICT (user_id) DO NOTHING RETURNING. */
    method InsertMapping(p: Pid, fault: Fault)
      requires Valid() && p in procs && procs[p].pc.Holding?
      modifies this
      ensures Valid() && View() == Step(old(View()), Insert(p, fault))
      ensures p in procs && procs[p].user == old(procs[p].user)
      ensures var user, id := old(procs[p].user), old(procs[p].pc.id);
              && table == (if user in old(table) || fault == Rejected then old(table) else old(table)[user := id])
              && procs[p].pc == (if fault != NoFault then Discard(id, Failed(InsertFailed))
                                 else if user in old(table) then Conflict(id)
                                 else Done(Created(id)))
    {
      StepKeepsInv(View(), Insert(p, fault));
      var user, id := procs[p].user, procs[p].pc.id;
      if fault == NoFault {
        if user in table {
          procs := procs[p := Proc(user, Conflict(id))];
        } else {
          table := table[user := id];
          procs := procs[p := Proc(user, Done(Created(id)))];
        }
      } else {
        if fault == ReplyLost && user !in table {
          table, lost := table[user := id], lost + {id};
        }
        procs := procs[p := Proc(user, Discard(id, Failed(InsertFailed)))];
      }
    }

    /** After a conflict the row is there: the SELECT finds the winner's customer, or fails itself. */
    method ReselectCustomer(p: Pid, ok: bool)
      requires Valid() && p in procs && procs[p].pc.Conflict?
      modifies this
      ensures Valid() && View() == Step(old(View()), Reselect(p, ok))
      ensures table == old(table) && p in procs && procs[p].user == old(procs[p].user) && procs[p].user in table
      ensures procs[p].pc == Discard(old(procs[p].pc.id),
                                     if ok then Existing(table[procs[p].user]) else Failed(ReselectFailed))
    {
      StepKeepsInv(View(), Reselect(p, ok));
      assert ProcOk(View(), p);
      var user, id := procs[p].user, procs[p].pc.id;
      var result :=
        if !ok then Failed(ReselectFailed)
        else if user in table then Existing(table[user])
        else Failed(MissingAfterConflict);
      procs := procs[p := Proc(user, Discard(id, result))];
    }

    /** The compensating delete; an error, true or not, is logged and otherwise ignored. */
    method DeleteCustomer(p: Pid, fault: Fault)
      requires Valid() && p in procs && procs[p].pc.Discard?
      modifies this
      ensures Valid() && View() == Step(old(View()), Delete(p, fault))
      ensures p in procs && procs[p] == Proc(old(procs[p].user), Done(old(procs[p].pc.result)))
      ensures table == old(table)
      ensures live == if fault == Rejected then old(live) else old(live) - {old(procs[p].pc.id)}
    {
      StepKeepsInv(View(), Delete(p, fault));
      var user, id, result := procs[p].user, procs[p].pc.id, procs[p].pc.result;
      if fault == Rejected {
        leaked := leaked + {id};
      } else {
        live := live - {id};
      }
      procs := procs[p := Proc(user, Done(result))];
    }

    /** After a conflict: the re-select, with other requests running before it. */
    method LoseRace(p: Pid, reselectOk: bool, others: seq<Event>) returns (ghost trace: seq<Event>)
      requires Valid() && p in procs && procs[p].pc.Conflict? && Spares(others, p)
      modifies this
      ensures Valid() && View() == Run(old(View()), trace)
      ensures p in procs && procs[p].user == old(procs[p].user) && procs[p].user in table && procs[p].pc.Discard?
      ensures forall u :: u in old(table) ==> u in table && table[u] == old(table)[u]
      ensures procs[p].pc.result == if reselectOk then Existing(table[procs[p].user]) else Failed(ReselectFailed)
    {
      ghost var s0 := View();
      Others(others, p);
      ReselectCustomer(p, reselectOk);
      trace := Grow1(s0, others, Reselect(p, reselectOk));
    }

    /** The compensating delete, with other requests running before it. */
    method CleanUp(p: Pid, deleteFault: Fault, others: seq<Event>) returns (result: Result, ghost trace: seq<Event>)
      requires Valid() && p in procs && procs[p].pc.Discard? && Spares(others, p)
      modifies this
      ensures Valid() && View() == Run(old(View()), trace)
      ensures p in procs && procs[p] == Proc(old(procs[p].user), Done(result)) && result == old(procs[p].pc.result)
      ensures forall u :: u in old(table) ==> u in table && table[u] == old(table)[u]
    {
      ghost var s0 := View();
      Others(others, p);
      result := procs[p].pc.result;
      DeleteCustomer(p, deleteFault);
      trace := Grow1(s0, others, Delete(p, deleteFault));
    }

    /** The second half of a request: insert, and on a conflict or an error re-select and delete. */
    method Settle(
        p: Pid, insertFault: Fault, reselectOk: bool, deleteFault: Fault,
        others: seq<Event>, others': seq<Event>)
      returns (result: Result, ghost trace: seq<Event>)
      requires Valid() && p in procs && procs[p].pc.Holding?
      requires Spares(others, p) && Spares(others', p)
      modifies this
      ensures Valid() && View() == Run(old(View()), trace)
      ensures p in procs && procs[p] == Proc(old(procs[p].user), Done(result))
      ensures insertFault != NoFault ==> result == Failed(InsertFailed)
      ensures insertFault == NoFault && old(procs[p].user !in table) ==> result == Created(old(procs[p].pc.id))
      ensures insertFault == NoFault && old(procs[p].user in table) ==>
                result == if reselectOk then Existing(old(table[procs[p].user])) else Failed(ReselectFailed)
    {
      hide Inv, Step, Run;
      ghost var s0, rest := View(), [];
      InsertMapping(p, insertFault);
      trace := Grow0(s0, Insert(p, insertFault));
      if procs[p].pc.Done? {
        result := procs[p].pc.result;
      } else {
        if procs[p].pc.Conflict? {
          rest := LoseRace(p, reselectOk, others);
          trace := Grow(s0, trace, rest);
        }
        result, rest := CleanUp(p, deleteFault, others');
        trace := Grow(s0, trace, rest);
      }
    }

    /**
     * One request from start to end.  `env` holds the steps of all other requests between its
     * own; the other arguments are what Stripe and the database answer it.  The execution is a
     * run of the step machine, and its answer is honest in the state it returns in.
     */
    method EnsureStripeCustomerID(
        p: Pid, user: User, newId: Customer, selectOk: bool, createFault: Fault,
        insertFault: Fault, reselectOk: bool, deleteFault: Fault, env: seq<seq<Event>>)
      returns (result: Result, ghost trace: seq<Event>)
      requires Valid() && p !in procs
      requires |env| == 5 && forall i :: 0 <= i < 5 ==> Spares(env[i], p)
      modifies this
      ensures Valid() && View() == Run(old(View()), trace)
      ensures p in procs && procs[p] == Proc(user, Done(result))
      ensures Honest(View(), p, user, result)
      ensures user in old(table) && selectOk ==> result == Existing(old(table)[user])
      ensures match result
              case Created(id) => id == newId && user in table && table[user] == id
              case Existing(id) => user in table && table[user] == id
              case Failed(LookupFailed) => !selectOk
              case Failed(CreateFailed) =>
                createFault != NoFault || newId in old(creator) || Issues(env[0] + env[1], newId)
              case Failed(InsertFailed) => insertFault != NoFault
              case Failed(ReselectFailed) => !reselectOk
              case Failed(MissingAfterConflict) => false
      ensures Explained(old(View()), trace, p, result)
    {
      hide Inv, Step, Run, Explained, Issues;
      ghost var s0 := View();
      Enter(p, user);
      trace := Grow0(s0, Arrive(p, user));

      Others(env[0], p);
      trace := Grow(s0, trace, env[0]);
      var answer := SelectCustomer(p, selectOk);
      trace := Grow1(s0, trace, Select(p, selectOk));
      if answer.Some? {
        result := answer.value;
      } else {
        Others(env[1], p);
        trace := Grow(s0, trace, env[1]);
        IssuedBefore(env[0], env[1], newId);
        var created := CreateCustomer(p, newId, createFault);
        trace := Grow1(s0, trace, Create(p, newId, createFault));
        if !created {
          result := Failed(CreateFailed);
        } else {
          Others(env[2], p);
          trace := Grow(s0, trace, env[2]);
          ghost var rest;
          result, rest := Settle(p, insertFault, reselectOk, deleteFault, env[3], env[4]);
          trace := Grow(s0, trace, rest);
        }
      }
      AnswerIsHonest(View(), p);
      AnswerIsExplained(s0, trace, p, result);
    }
  }

  lemma AnswerIsHonest(s: State, p: Pid)
    requires Inv(s) && p in s.procs && s.procs[p].pc.Done?
    ensures Honest(s, p, s.procs[p].user, s.procs[p].pc.result)
  {
    assert ProcOk(s, p);
  }

  lemma IssuedBefore(a: seq<Event>, b: seq<Event>, id: Customer)
    ensures Issues(a, id) || Issues(b, id) ==> Issues(a + b, id)
  {
    if Issues(a, id) {
      var i :| 0 <= i < |a| && a[i].Create? && a[i].id == id;
      assert (a + b)[i] == a[i];
    } else if Issues(b, id) {
      var i :| 0 <= i < |b| && b[i].Create? && b[i].id == id;
      assert (a + b)[|a| + i] == b[i];
    }
  }

  lemma Grow0(s: State, ev: Event) returns (all: seq<Event>)
    ensures all == [ev] && Run(s, all) == Step(s, ev)
  {
    all := [ev];
  }

  lemma Grow(s: State, trace: seq<Event>, more: seq<Event>) returns (all: seq<Event>)
    ensures all == trace + more && Run(s, all) == Run(Run(s, trace), more)
  {
    all := trace + more;
    RunConcat(s, trace, more);
  }

  lemma Grow1(s: State, trace: seq<Event>, ev: Event) returns (all: seq<Event>)
    ensures all == trace + [ev] && Run(s, all) == Step(Run(s, trace), ev)
  {
    all := trace + [ev];
    Snoc(s, trace, ev);
  }
}
