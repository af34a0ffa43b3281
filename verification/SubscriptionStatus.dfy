/**
 * Choosing a transaction from Apple's subscription status: groups of rows, of which some do not
 * decode (internal/appleiap/subscription_status.go), and which payload a validation then goes
 * by (internal/appleiap/service.go).
 */
module SubscriptionStatus {

  import opened Base
  import opened Decisions
  import Text

  /** None stands for a blank or undecodable signed transaction. */
  type Row = Option<Payload>

  datatype Outcome = Best(payload: Payload) | EmptyStatus | NoMatchingProduct

  function Flat(groups: seq<seq<Row>>): seq<Row> {
    if groups == [] then [] else Flat(groups[..|groups| - 1]) + groups[|groups| - 1]
  }

  /** A decoded row of the product whose expiry is not negative. */
  predicate Candidate(row: Row, product: string) {
    row.Some? && Text.Trim(row.value.productId) == Text.Trim(product) && row.value.expiresDate >= 0
  }

  predicate HasCandidate(rows: seq<Row>, product: string) {
    exists k :: 0 <= k < |rows| && Candidate(rows[k], product)
  }

  /** Row `i` expires last among the candidates, and is the first to do so. */
  predicate FirstLatest(rows: seq<Row>, product: string, i: int) {
    && 0 <= i < |rows| && Candidate(rows[i], product)
    && (forall k :: 0 <= k < |rows| && Candidate(rows[k], product) ==>
          rows[k].value.expiresDate <= rows[i].value.expiresDate)
    && (forall k :: 0 <= k < i && Candidate(rows[k], product) ==> rows[k].value.expiresDate < rows[i].value.expiresDate)
  }

  /** What the loops hold after `rows`: the first latest candidate, row `at`, or nothing. */
  ghost predicate Holds(rows: seq<Row>, product: string, best: Option<Payload>, bestExpires: int, at: int) {
    match best
    case None => bestExpires == -1 && forall k :: 0 <= k < |rows| ==> !Candidate(rows[k], product)
    case Some(p) => FirstLatest(rows, product, at) && rows[at] == best && bestExpires == p.expiresDate
  }

  /** One row more: it replaces the choice exactly when it is a candidate that expires later. */
  lemma OneMore(rows: seq<Row>, row: Row, product: string, best: Option<Payload>, bestExpires: int, at: int)
    requires Holds(rows, product, best, bestExpires, at)
    ensures var later := && row.Some? && Text.Trim(row.value.productId) == Text.Trim(product)
                         && row.value.expiresDate > bestExpires;
            if later then Holds(rows + [row], product, row, row.value.expiresDate, |rows|)
            else Holds(rows + [row], product, best, bestExpires, at)
  {
    hide Text.Trim;
    assert forall k :: 0 <= k < |rows| ==> (rows + [row])[k] == rows[k];
  }

  lemma FlatStep(groups: seq<seq<Row>>, g: nat, k: nat)
    requires g < |groups| && k < |groups[g]|
    ensures Flat(groups[..g]) + groups[g][..k + 1] == (Flat(groups[..g]) + groups[g][..k]) + [groups[g][k]]
  {
  }

  lemma FlatGroup(groups: seq<seq<Row>>, g: nat)
    requires g < |groups|
    ensures Flat(groups[..g]) + groups[g][..0] == Flat(groups[..g])
    ensures Flat(groups[..g]) + groups[g][..|groups[g]|] == Flat(groups[..g + 1])
  {
    assert groups[..g + 1][..g] == groups[..g];
    assert groups[g][..|groups[g]|] == groups[g];
  }

  lemma {:induction false} InFlat(groups: seq<seq<Row>>, g: nat, k: nat)
    requires g < |groups| && k < |groups[g]|
    ensures groups[g][k] in Flat(groups)
    decreases |groups|
  {
    var init := groups[..|groups| - 1];
    if g < |init| {
      InFlat(init, g, k);
    }
  }

  /** Reads the groups in order; `data` is None when there is no response at all. */
  method BestProTransactionPayload(data: Option<seq<seq<Row>>>, product: string) returns (r: Outcome)
    ensures r == EmptyStatus <==> data.None? || data.value == []
    ensures r.NoMatchingProduct? ==> !HasCandidate(Flat(data.value), product)
    ensures r.Best? ==>
              Text.Trim(r.payload.productId) == Text.Trim(product) && r.payload.expiresDate >= 0
    ensures r != EmptyStatus ==>
              forall g, k :: 0 <= g < |data.value| && 0 <= k < |data.value[g]| ==>
                var row := data.value[g][k];
                row.Some? && Text.Trim(row.value.productId) == Text.Trim(product) ==>
                  row.value.expiresDate <= if r.Best? then r.payload.expiresDate else -1
    ensures r.Best? ==> exists i :: FirstLatest(Flat(data.value), product, i) && Flat(data.value)[i] == Some(r.payload)
  {
    hide Text.Trim;
    if data.None? || |data.value| == 0 {
      return EmptyStatus;
    }
    var groups := data.value;
    var pro := Text.Trim(product);
    var best: Option<Payload> := None;
    var bestExpires := -1;
    ghost var at := 0;
    for g := 0 to |groups|
      invariant Holds(Flat(groups[..g]), product, best, bestExpires, at)
    {
      FlatGroup(groups, g);
      for k := 0 to |groups[g]|
        invariant Holds(Flat(groups[..g]) + groups[g][..k], product, best, bestExpires, at)
      {
        var row := groups[g][k];
        ghost var done := Flat(groups[..g]) + groups[g][..k];
        FlatStep(groups, g, k);
        OneMore(done, row, product, best, bestExpires, at);
        if row.None? || Text.Trim(row.value.productId) != pro {
          continue;
        }
        if row.value.expiresDate > bestExpires {
          bestExpires := row.value.expiresDate;
          best := row;
          at := |done|;
        }
      }
    }
    assert groups[..|groups|] == groups;
    forall g, k | 0 <= g < |groups| && 0 <= k < |groups[g]|
      ensures groups[g][k] in Flat(groups)
    {
      InFlat(groups, g, k);
    }
    r := if best.None? then NoMatchingProduct else Best(best.value);
  }

  /** The contract of the method leaves one answer: there is a first latest candidate just when there is a candidate. */
  lemma {:induction false} ChoiceIsUnique(rows: seq<Row>, product: string)
    ensures (exists i :: FirstLatest(rows, product, i)) <==> HasCandidate(rows, product)
    ensures forall i, j :: FirstLatest(rows, product, i) && FirstLatest(rows, product, j) ==> i == j
  {
    if k :| 0 <= k < |rows| && Candidate(rows[k], product) {
      var i := LatestOf(rows, product, k);
    }
  }

  lemma {:induction false} LatestOf(rows: seq<Row>, product: string, k: int) returns (i: int)
    requires 0 <= k < |rows| && Candidate(rows[k], product)
    ensures FirstLatest(rows, product, i)
    decreases |rows|
  {
    hide Text.Trim;
    var init, last := rows[..|rows| - 1], rows[|rows| - 1];
    assert rows == init + [last];
    if j :| 0 <= j < |init| && Candidate(init[j], product) {
      i := LatestOf(init, product, j);
      OneMore(init, last, product, init[i], init[i].value.expiresDate, i);
      if Candidate(last, product) && last.value.expiresDate > init[i].value.expiresDate { i := |init|; }
    } else {
      assert forall j :: 0 <= j < |init| ==> rows[j] == init[j];
      i := |init|;
    }
  }

  // ---- The payload a validation goes by ----

  /** A renewal: the transaction is not the one that began its subscription. */
  predicate Renewal(direct: Payload) {
    Text.Trim(direct.originalId) != "" && Text.Trim(direct.transactionId) != Text.Trim(direct.originalId)
  }

  /** `response` is None when Apple could not be asked for the status. */
  method ChoosePayload(direct: Payload, response: Option<seq<seq<Row>>>, product: string) returns (chosen: Payload)
    ensures Text.Trim(direct.originalId) == "" || Text.Trim(direct.transactionId) == Text.Trim(direct.originalId) ==>
              chosen == direct
    ensures if Renewal(direct) && response.Some? && HasCandidate(Flat(response.value), product)
            then exists i :: FirstLatest(Flat(response.value), product, i) && Flat(response.value)[i] == Some(chosen)
            else chosen == direct
    ensures Candidate(Some(direct), product) && response.Some? && Some(direct) in Flat(response.value) ==>
              Renewal(direct) ==> direct.expiresDate <= chosen.expiresDate
  {
    hide Text.Trim;
    chosen := direct;
    if Text.Trim(direct.transactionId) != Text.Trim(direct.originalId) && Text.Trim(direct.originalId) != "" {
      var best := BestProTransactionPayload(response, product);
      if best.Best? {
        chosen := best.payload;
      }
    }
  }
}
