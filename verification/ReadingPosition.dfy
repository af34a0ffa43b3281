/**
 * Reading positions synchronised between devices: a last-writer-wins register per user and
 * book (internal/readingposition/repository.go, internal/readingposition/service.go).
 *
 * Instants are nanoseconds since the Unix epoch, as the server holds them; the TIMESTAMPTZ
 * column keeps whole microseconds.  The id and created_at columns are not modelled.
 */
module ReadingPosition {
  import opened Base

  type User = nat
  type Book = string
  type Instant = int

  const NIL_USER: User := 0

  /** Go's zero time, 0001-01-01T00:00:00Z. */
  const ZERO_TIME: Instant := -62_135_596_800_000_000_000

  datatype Position = Position(chapter: string, offset: int, progress: Option<real>, device: string)

  /** A stored row; `micros` is its updated_at column. */
  datatype Row = Row(position: Position, micros: int)

  datatype Save = Save(user: User, book: Book, position: Position, updatedAt: Instant)

  type Key = (User, Book)
  type Table = map<Key, Row>

  function KeyOf(w: Save): Key {
    (w.user, w.book)
  }

  /** What the column keeps of an instant. */
  function Micros(t: Instant): int {
    t / 1000
  }

  /** What a read of the column gives back. */
  function FromMicros(m: int): Instant {
    m * 1000
  }

  predicate ValidSave(w: Save) {
    && w.user != NIL_USER
    && w.book != "" && w.position.chapter != "" && w.position.device != ""
    && w.updatedAt != ZERO_TIME && w.position.offset >= 0
  }

  /** The conditional upsert: WHERE EXCLUDED.updated_at >= reading_positions.updated_at. */
  predicate Applies(table: Table, w: Save) {
    KeyOf(w) !in table || Micros(w.updatedAt) >= table[KeyOf(w)].micros
  }

  function RowOf(w: Save): Row {
    Row(w.position, Micros(w.updatedAt))
  }

  function After(table: Table, w: Save): Table {
    if ValidSave(w) && Applies(table, w) then table[KeyOf(w) := RowOf(w)] else table
  }

  function Run(ws: seq<Save>): Table {
    if ws == [] then map[] else After(Run(ws[..|ws| - 1]), ws[|ws| - 1])
  }

  // ---- The service ----

  datatype Error = Unauthenticated | InvalidArgument | StoreFailed
  datatype Result<T> = Ok(value: T) | Err(error: Error)
  datatype Decision = UseLocal | UseRemote(position: Position, updatedAt: Instant)

  class Service {
    var table: Table

    constructor ()
      ensures table == map[]
    {
      table := map[];
    }

    /** `dbOk` says that the statement was carried out. */
    method UpsertLatest(w: Save, dbOk: bool) returns (r: Result<bool>)
      modifies this
      ensures r == if dbOk then Ok(Applies(old(table), w)) else Err(StoreFailed)
      ensures table == if r == Ok(true) then old(table)[KeyOf(w) := RowOf(w)] else old(table)
    {
      if !dbOk {
        return Err(StoreFailed);
      }
      var applied := KeyOf(w) !in table || Micros(w.updatedAt) >= table[KeyOf(w)].micros;
      if applied {
        table := table[KeyOf(w) := RowOf(w)];
      }
      return Ok(applied);
    }

    method SavePosition(w: Save, dbOk: bool) returns (r: Result<bool>)
      modifies this
      ensures table == if dbOk then After(old(table), w) else old(table)
      ensures r.Ok? <==> ValidSave(w) && dbOk
      ensures r.Ok? ==> r.value == Applies(old(table), w)
      ensures r == Err(Unauthenticated) <==> w.user == NIL_USER
      ensures r == Err(StoreFailed) <==> ValidSave(w) && !dbOk
      ensures r == Ok(true) ==>
                table == old(table)[(w.user, w.book) := Row(w.position, w.updatedAt / 1000)]
      ensures r != Ok(true) ==> table == old(table)
      ensures r == Ok(false) ==>
                (w.user, w.book) in table && w.updatedAt / 1000 < table[(w.user, w.book)].micros
      ensures r == Err(InvalidArgument) <==>
                && w.user != NIL_USER
                && (w.book == "" || w.position.chapter == "" || w.position.device == ""
                    || w.updatedAt == ZERO_TIME || w.position.offset < 0)
    {
      if w.user == NIL_USER {
        return Err(Unauthenticated);
      }
      if w.book == "" || w.position.chapter == "" || w.position.device == ""
         || w.updatedAt == ZERO_TIME || w.position.offset < 0 {
        return Err(InvalidArgument);
      }
      r := UpsertLatest(w, dbOk);
    }

    /** `local` is the time of the position the device holds, if it sent one. */
    method ResolvePosition(user: User, book: Book, local: Option<Instant>, dbOk: bool) returns (r: Result<Decision>)
      ensures dbOk ==> r == Resolve(table, user, book, local)
      ensures dbOk && user != NIL_USER && book != "" ==>
                r == Ok(if (user, book) in table &&
                           (local.None? || local.value == ZERO_TIME || local.value < table[(user, book)].micros * 1000)
                        then UseRemote(table[(user, book)].position, table[(user, book)].micros * 1000)
                        else UseLocal)
      ensures !dbOk ==> r == Err(
                if user == NIL_USER then Unauthenticated else if book == "" then InvalidArgument else StoreFailed)
    {
      if user == NIL_USER {
        return Err(Unauthenticated);
      }
      if book == "" {
        return Err(InvalidArgument);
      }
      if !dbOk {
        return Err(StoreFailed);
      }
      if (user, book) !in table {
        return Ok(UseLocal);
      }
      var row := table[(user, book)];
      var remoteAt := FromMicros(row.micros);
      if local.None? {
        return Ok(UseRemote(row.position, remoteAt));
      }
      if local.value != ZERO_TIME && (local.value == remoteAt || local.value > remoteAt) {
        return Ok(UseLocal);
      }
      return Ok(UseRemote(row.position, remoteAt));
    }
  }

  /** The local position wins unless the server holds one that is newer, or the device says nothing. */
  function Resolve(table: Table, user: User, book: Book, local: Option<Instant>): Result<Decision> {
    if user == NIL_USER then Err(Unauthenticated)
    else if book == "" then Err(InvalidArgument)
    else if (user, book) !in table
         || (local.Some? && local.value != ZERO_TIME && local.value >= FromMicros(table[(user, book)].micros))
    then Ok(UseLocal)
    else Ok(UseRemote(table[(user, book)].position, FromMicros(table[(user, book)].micros)))
  }

  /** The resolver promises the device exactly what the writer would do, although only the writer drops nanoseconds. */
  lemma ResolverAgreesWithWriter(table: Table, w: Save)
    requires ValidSave(w)
    ensures Resolve(table, w.user, w.book, Some(w.updatedAt)) == Ok(UseLocal) <==> Applies(table, w)
  {
    if KeyOf(w) in table {
      var m := table[KeyOf(w)].micros;
      assert w.updatedAt / 1000 >= m <==> w.updatedAt >= m * 1000;
    }
  }

  /** No table lets a save or a decision on opening a book tell the two times apart. */
  ghost predicate SameOutcomes(t: Instant, t': Instant) {
    && (forall table: Table, w: Save :: After(table, w.(updatedAt := t)) == After(table, w.(updatedAt := t')))
    && (forall table: Table, user: User, book: Book ::
          Resolve(table, user, book, Some(t)) == Resolve(table, user, book, Some(t')))
  }

  /** Of a time that is set at all, only the stored microsecond counts. */
  lemma OnlyMicrosCount(t: Instant, t': Instant)
    requires t != ZERO_TIME && t' != ZERO_TIME
    ensures SameOutcomes(t, t') <==> Micros(t) == Micros(t')
  {
    if Micros(t) == Micros(t') {
      forall m: int
        ensures t >= FromMicros(m) <==> t' >= FromMicros(m)
      {
        assert t >= m * 1000 <==> Micros(t) >= m;
        assert t' >= m * 1000 <==> Micros(t') >= m;
      }
    } else {
      var w := Save(1, "book", Position("chapter", 0, None, "device"), t);
      assert After(map[], w.(updatedAt := t))[KeyOf(w)] == RowOf(w.(updatedAt := t));
      assert After(map[], w.(updatedAt := t'))[KeyOf(w)] == RowOf(w.(updatedAt := t'));
    }
  }

  // ---- Last writer wins ----

  predicate Relevant(w: Save, key: Key) {
    ValidSave(w) && KeyOf(w) == key
  }

  /** No relevant write carries a later time. */
  predicate Newest(ws: seq<Save>, key: Key, w: Save) {
    && w in ws && Relevant(w, key)
    && forall v :: v in ws && Relevant(v, key) ==> Micros(v.updatedAt) <= Micros(w.updatedAt)
  }

  /** Write `i` is the last to arrive among those with the latest time. */
  predicate Wins(ws: seq<Save>, key: Key, i: nat) {
    && i < |ws| && Newest(ws, key, ws[i])
    && forall j :: i < j < |ws| && Relevant(ws[j], key) ==> Micros(ws[j].updatedAt) < Micros(ws[i].updatedAt)
  }

  lemma WinnerStays(init: seq<Save>, w: Save, key: Key, i: nat)
    requires Wins(init, key, i)
    requires Relevant(w, key) ==> Micros(w.updatedAt) < Micros(init[i].updatedAt)
    ensures Wins(init + [w], key, i)
  {
    var ws := init + [w];
    assert ws[i] == init[i];
    assert forall v :: v in ws ==> v in init || v == w;
    assert forall j :: 0 <= j < |init| ==> ws[j] == init[j];
  }

  lemma LastTakesOver(init: seq<Save>, w: Save, key: Key)
    requires Relevant(w, key)
    requires forall v :: v in init && Relevant(v, key) ==> Micros(v.updatedAt) <= Micros(w.updatedAt)
    ensures Wins(init + [w], key, |init|)
  {
    assert (init + [w])[|init|] == w;
    assert forall v :: v in init + [w] ==> v in init || v == w;
  }

  predicate Touched(ws: seq<Save>, key: Key) {
    exists w :: w in ws && Relevant(w, key)
  }

  lemma {:induction false} RowsComeFromWrites(ws: seq<Save>, key: Key)
    ensures key in Run(ws) <==> Touched(ws, key)
  {
    if ws != [] {
      var init, w := ws[..|ws| - 1], ws[|ws| - 1];
      RowsComeFromWrites(init, key);
      assert w in ws;
      assert forall v :: v in init ==> v in ws;
      assert forall v :: v in ws ==> v in init || v == w;
    }
  }

  /** The stored row is that of the winner: the last to arrive among the writes with the latest time. */
  lemma {:induction false} LastWriterWins(ws: seq<Save>, key: Key) returns (i: nat)
    ensures key in Run(ws) <==> Touched(ws, key)
    ensures key in Run(ws) ==> Wins(ws, key, i) && Run(ws)[key] == RowOf(ws[i])
    decreases |ws|
  {
    i := 0;
    RowsComeFromWrites(ws, key);
    if ws != [] {
      var init, w := ws[..|ws| - 1], ws[|ws| - 1];
      i := LastWriterWins(init, key);
      assert ws == init + [w];
      if Relevant(w, key) && Applies(Run(init), w) {
        LastTakesOver(init, w, key);
        i := |init|;
      } else if key in Run(init) {
        WinnerStays(init, w, key, i);
      }
    }
  }

  /** The stored time never goes back, and rows never disappear. */
  lemma {:induction false} TimeNeverDecreases(ws: seq<Save>, more: seq<Save>, key: Key)
    requires key in Run(ws)
    ensures key in Run(ws + more) && Run(ws + more)[key].micros >= Run(ws)[key].micros
    decreases |more|
  {
    if more == [] {
      assert ws + more == ws;
    } else {
      assert (ws + more)[..|ws + more| - 1] == ws + more[..|more| - 1];
      TimeNeverDecreases(ws, more[..|more| - 1], key);
    }
  }

  // ---- Convergence ----

  function Stored(ws: seq<Save>, key: Key): Option<Row> {
    if key in Run(ws) then Some(Run(ws)[key]) else None
  }

  predicate SameWrites(ws: seq<Save>, vs: seq<Save>) {
    multiset(ws) == multiset(vs)
  }

  /** Every order of the same writes leaves the same row. */
  ghost predicate Converges(ws: seq<Save>, key: Key) {
    forall vs :: SameWrites(ws, vs) ==> Stored(vs, key) == Stored(ws, key)
  }

  /** The newest writes, if there are several, all say the same. */
  ghost predicate NewestAgree(ws: seq<Save>, key: Key) {
    forall v, w :: Newest(ws, key, v) && Newest(ws, key, w) ==> RowOf(v) == RowOf(w)
  }

  lemma SameMembers(ws: seq<Save>, vs: seq<Save>)
    requires SameWrites(ws, vs)
    ensures forall w :: w in ws <==> w in vs
  {
    forall w
      ensures w in ws <==> w in vs
    {
      assert w in ws <==> w in multiset(ws);
      assert w in vs <==> w in multiset(vs);
    }
  }

  lemma SameWritesSameNewest(ws: seq<Save>, vs: seq<Save>, key: Key, w: Save)
    requires SameWrites(ws, vs)
    ensures Newest(ws, key, w) <==> Newest(vs, key, w)
  {
    SameMembers(ws, vs);
  }

  /** The same writes with `w` arriving last. */
  lemma MoveLast(ws: seq<Save>, w: Save) returns (vs: seq<Save>)
    requires w in ws
    ensures SameWrites(ws, vs) && vs != [] && vs[|vs| - 1] == w
  {
    var i :| 0 <= i < |ws| && ws[i] == w;
    vs := ws[..i] + ws[i + 1..] + [w];
    assert ws == ws[..i] + [w] + ws[i + 1..];
  }

  lemma NewestLastIsStored(vs: seq<Save>, key: Key, w: Save)
    requires Newest(vs, key, w) && vs[|vs| - 1] == w
    ensures Stored(vs, key) == Some(RowOf(w))
  {
    var i := LastWriterWins(vs, key);
    assert vs[i] in vs && Relevant(vs[i], key);
    assert i == |vs| - 1;
  }

  /**
   * Devices converge on one row, in whatever order their saves arrive, exactly when the saves
   * with the latest stored time agree.
   */
  lemma ConvergesExactly(ws: seq<Save>, key: Key)
    ensures Converges(ws, key) <==> NewestAgree(ws, key)
  {
    if NewestAgree(ws, key) {
      forall vs | SameWrites(ws, vs)
        ensures Stored(vs, key) == Stored(ws, key)
      {
        SameMembers(ws, vs);
        var i := LastWriterWins(ws, key);
        var j := LastWriterWins(vs, key);
        if key in Run(ws) {
          SameWritesSameNewest(ws, vs, key, vs[j]);
        }
      }
    }
    if Converges(ws, key) {
      forall v, w | Newest(ws, key, v) && Newest(ws, key, w)
        ensures RowOf(v) == RowOf(w)
      {
        StoredWhenLast(ws, key, v);
        StoredWhenLast(ws, key, w);
      }
    }
  }

  lemma StoredWhenLast(ws: seq<Save>, key: Key, w: Save)
    requires Converges(ws, key) && Newest(ws, key, w)
    ensures Stored(ws, key) == Some(RowOf(w))
  {
    var vs := MoveLast(ws, w);
    SameWritesSameNewest(ws, vs, key, w);
    NewestLastIsStored(vs, key, w);
  }

  /** In particular, saves whose times differ by the microsecond always converge. */
  lemma DistinctTimesConverge(ws: seq<Save>, key: Key)
    requires forall v, w :: v in ws && w in ws && Relevant(v, key) && Relevant(w, key) ==>
                              Micros(v.updatedAt) == Micros(w.updatedAt) ==> v == w
    ensures Converges(ws, key)
  {
    ConvergesExactly(ws, key);
  }

  /** Times that differ only below the microsecond do not: the later arrival wins, even with the earlier time. */
  lemma NanosecondsDoNotConverge(user: User, book: Book, t: Instant, p: Position, q: Position)
    requires t % 1000 == 0 && t > ZERO_TIME && p != q
    requires ValidSave(Save(user, book, p, t)) && ValidSave(Save(user, book, q, t + 1))
    ensures !Converges([Save(user, book, p, t), Save(user, book, q, t + 1)], (user, book))
  {
    var v, w := Save(user, book, p, t), Save(user, book, q, t + 1);
    var ws := [v, w];
    assert Micros(t) == Micros(t + 1);
    assert v == ws[0] && w == ws[1];
    assert Newest(ws, (user, book), v) && Newest(ws, (user, book), w);
    ConvergesExactly(ws, (user, book));
  }
}
