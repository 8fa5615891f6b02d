/**
 * `SqlBackend`: the registry kept in a SQL table. The backend itself holds no registry
 * state; each operation reads or changes the table through the data source.
 *
 * Modelled here: the data source is an object whose field `rows` is the table; world and
 * user resolution at read time is an `Env`; every point where a `SQLException` can be
 * thrown is a fault the caller chooses (`Outcomes`), so each operation is specified for
 * the outcome with and without the failure. Futures are already completed.
 */
module SqlBackend {
  import opened Wrappers
  import opened RemoteContainers
  import opened Backend
  import opened SqlRows

  /**
   * Which statements throw during a call, and what the update in `register`'s insert
   * branch reports (its meaning is not fixed by the code; see `RegisterOutcome`).
   */
  datatype Outcomes = Outcomes(
    existenceQueryFails: bool,
    selectFails: bool,
    registerCheckFails: bool,
    insertResult: bool,
    connectionFails: bool,
    failingDeletes: set<Location>,
    commitFails: bool)

  /** No statement throws; the insert branch reports `insertResult`. */
  function NoFaults(insertResult: bool): Outcomes {
    Outcomes(false, false, false, insertResult, false, {}, false)
  }

  // ---------------------------------------------------------------------------
  // The operations as functions of the table
  // ---------------------------------------------------------------------------

  /** `query(user)`: a failure gives the empty map; otherwise the row loop's map. */
  function QueryOutcome(rows: seq<Row>, user: Option<Owner>, env: Env, fails: bool): Registry {
    if fails then map[]
    else Collect(if user.Some? then SelectByOwner(rows, user.value) else rows, env)
  }

  /** `getAllContainers(user)`: the user's set in `query(user)`, or the empty set. */
  function GetAllOutcome(rows: seq<Row>, u: Owner, env: Env, fails: bool): ContainerSet {
    OwnerSet(QueryOutcome(rows, Some(u), env, fails), u)
  }

  /** `isOwner(user, c)`: the user is a key of `query(user)` and its set contains `c`. */
  predicate IsOwnerOutcome(rows: seq<Row>, u: Owner, c: RemoteContainer, env: Env, fails: bool) {
    var m := QueryOutcome(rows, Some(u), env, fails);
    u in m && Contains(m[u], c)
  }

  /** `hasAnyContainer(user)`: the owner query returns a row, resolvable or not. */
  predicate HasAnyOutcome(rows: seq<Row>, u: Owner, fails: bool) {
    !fails && SelectByOwner(rows, u) != []
  }

  /**
   * `register(user, c)` as written. A failed existence check, or a row already at the same
   * owner and location, gives false. Otherwise the insert branch binds its parameters on
   * the SELECT statement and runs the update on that statement, so the INSERT is never
   * executed: the table never changes, and the result is whatever that update reports.
   */
  function RegisterOutcome(rows: seq<Row>, u: Owner, c: RemoteContainer, checkFails: bool, insertResult: bool): bool {
    if checkFails then false
    else if ExistsAt(rows, u, c.location) then false
    else insertResult
  }

  /** The id the table's auto-increment gives a new row: one more than every id present. */
  function NextId(rows: seq<Row>): (id: int)
    ensures forall i :: 0 <= i < |rows| ==> rows[i].id < id
  {
    if rows == [] then 1
    else var rest := NextId(rows[1..]); if rows[0].id + 1 > rest then rows[0].id + 1 else rest
  }

  /** The row the corrected `register` inserts. */
  function NewRow(rows: seq<Row>, u: Owner, c: RemoteContainer): Row {
    Row(NextId(rows), u, c.location.world, c.name, c.location.x, c.location.y, c.location.z)
  }

  /**
   * `register(user, c)` corrected: the insert runs on its own statement with its own
   * parameters; the result is whether it inserted a row.
   */
  function RegisterIntendedOutcome(rows: seq<Row>, u: Owner, c: RemoteContainer, checkFails: bool, insertResult: bool): (seq<Row>, bool) {
    if checkFails || ExistsAt(rows, u, c.location) || !insertResult then (rows, false)
    else (rows + [NewRow(rows, u, c)], true)
  }

  /** The locations of the fetched containers that satisfy `p`. */
  function Matched(fetched: ContainerSet, p: ContainerPredicate): set<Location> {
    set l | l in fetched && p(At(fetched, l))
  }

  /**
   * The transaction of `unregister`, deleting the user's rows at the `matched` locations:
   * any failure before the commit leaves the table as it was and gives false; otherwise the
   * result is whether any delete removed a row.
   */
  function TransactionOutcome(rows: seq<Row>, u: Owner, matched: set<Location>, o: Outcomes): (seq<Row>, bool) {
    if o.connectionFails || matched * o.failingDeletes != {} || o.commitFails then (rows, false)
    else (DeleteAt(rows, u, matched), Affects(rows, u, matched))
  }

  /**
   * `unregister(user, p)`: fetch the user's containers, then run the transaction over the
   * locations of those satisfying `p`.
   */
  function UnregisterOutcome(rows: seq<Row>, u: Owner, p: ContainerPredicate, env: Env, o: Outcomes): (seq<Row>, bool) {
    TransactionOutcome(rows, u, Matched(GetAllOutcome(rows, u, env, o.selectFails), p), o)
  }

  // ---------------------------------------------------------------------------
  // The imperative class
  // ---------------------------------------------------------------------------

  /**
   * The body of `query`'s row loop on the map under construction: skip a row whose world
   * is not loaded, then one whose owner is unknown; otherwise create the owner's set if
   * absent and add the row's container to it.
   */
  method RowStep(m0: Registry, row: Row, env: Env) returns (m: Registry)
    ensures m == AddRow(m0, row, env)
  {
    m := m0;
    if !env.worldLoaded(row.world) {
      return;
    }
    if !env.userKnown(row.owner) {
      return;
    }
    if row.owner !in m {
      m := m[row.owner := map[]];
    }
    assert m[row.owner] == OwnerSet(m0, row.owner);
    m := m[row.owner := Add(m[row.owner], CreateChest(row.name, RowLocation(row)))];
  }

  /** The data source: the containers table as the database holds it. */
  class DataSource {
    var rows: seq<Row>

    constructor(rows: seq<Row>)
      ensures this.rows == rows
    {
      this.rows := rows;
    }
  }

  class SqlBackend {
    const dataSource: DataSource

    constructor(dataSource: DataSource)
      ensures this.dataSource == dataSource
    {
      this.dataSource := dataSource;
    }

    /** `query(user)` (`None` for all users): runs the select, then the row loop. */
    method Query(user: Option<Owner>, env: Env, fails: bool) returns (m: Registry)
      ensures m == QueryOutcome(dataSource.rows, user, env, fails)
      ensures forall o :: o in m ==> m[o] != map[]
    {
      if fails {
        return map[];
      }
      var rs := if user.Some? then SelectByOwner(dataSource.rows, user.value) else dataSource.rows;
      m := map[];
      var i := 0;
      while i < |rs|
        invariant 0 <= i <= |rs|
        invariant m == Collect(rs[..i], env)
      {
        CollectPrefixStep(rs, i, env);
        m := RowStep(m, rs[i], env);
        i := i + 1;
      }
      assert rs[..|rs|] == rs;
      CollectSetsNonEmpty(rs, env);
    }

    /** `hasAnyContainer(user)`: whether the owner query returns at least one row. */
    method HasAnyContainer(u: Owner, fails: bool) returns (r: bool)
      ensures r == HasAnyOutcome(dataSource.rows, u, fails)
      ensures r <==> !fails && exists i :: 0 <= i < |dataSource.rows| && dataSource.rows[i].owner == u
    {
      if fails {
        return false;
      }
      var rs := SelectByOwner(dataSource.rows, u);
      SelectNonEmpty(dataSource.rows, u);
      r := rs != [];
    }

    /** `getAllContainers(user)`. */
    method GetAllContainers(u: Owner, env: Env, fails: bool) returns (s: ContainerSet)
      ensures s == GetAllOutcome(dataSource.rows, u, env, fails)
    {
      var m := Query(Some(u), env, fails);
      s := if u in m then m[u] else map[];
    }

    /** `isOwner(user, c)`. */
    method IsOwner(u: Owner, c: RemoteContainer, env: Env, fails: bool) returns (r: bool)
      ensures r == IsOwnerOutcome(dataSource.rows, u, c, env, fails)
    {
      var m := Query(Some(u), env, fails);
      r := u in m && Contains(m[u], c);
    }

    /** `getAllContainers()`: a freshly built map of every resolvable row, never a view. */
    method GetAllContainersView(env: Env, fails: bool) returns (m: Registry)
      ensures m == QueryOutcome(dataSource.rows, None, env, fails)
      ensures forall o :: o in m ==> m[o] != map[]
    {
      m := Query(None, env, fails);
    }

    /** `register(user, c)` as written: it never changes the table. */
    method Register(u: Owner, c: RemoteContainer, checkFails: bool, insertResult: bool) returns (r: bool)
      ensures r == RegisterOutcome(dataSource.rows, u, c, checkFails, insertResult)
      ensures ExistsAt(dataSource.rows, u, c.location) ==> !r
    {
      if checkFails {
        return false;
      }
      if exists i :: 0 <= i < |dataSource.rows| && dataSource.rows[i].owner == u && RowLocation(dataSource.rows[i]) == c.location {
        return false;
      }
      r := insertResult;
    }

    /** `register(user, c)` corrected: inserts one row when none is at the same place. */
    method RegisterIntended(u: Owner, c: RemoteContainer, checkFails: bool, insertResult: bool) returns (r: bool)
      modifies dataSource
      ensures (dataSource.rows, r) == RegisterIntendedOutcome(old(dataSource.rows), u, c, checkFails, insertResult)
    {
      if checkFails {
        return false;
      }
      if exists i :: 0 <= i < |dataSource.rows| && dataSource.rows[i].owner == u && RowLocation(dataSource.rows[i]) == c.location {
        return false;
      }
      if !insertResult {
        return false;
      }
      dataSource.rows := dataSource.rows + [NewRow(dataSource.rows, u, c)];
      r := true;
    }

    /**
     * `unregister(user, p)`: fetches the user's containers, then runs the transaction
     * over them.
     */
    method Unregister(u: Owner, p: ContainerPredicate, env: Env, o: Outcomes) returns (r: bool)
      modifies dataSource
      ensures (dataSource.rows, r) == UnregisterOutcome(old(dataSource.rows), u, p, env, o)
    {
      var fetched := GetAllContainers(u, env, o.selectFails);
      r := DeleteMatching(u, fetched, p, o);
    }

    /**
     * The transaction of `unregister`: one delete per fetched container satisfying `p`, in
     * the fetched set's iteration order, committed after the loop.
     */
    method DeleteMatching(u: Owner, fetched: ContainerSet, p: ContainerPredicate, o: Outcomes) returns (r: bool)
      modifies dataSource
      ensures (dataSource.rows, r) == TransactionOutcome(old(dataSource.rows), u, Matched(fetched, p), o)
    {
      ghost var rows := dataSource.rows;
      ghost var matched := Matched(fetched, p);
      if o.connectionFails {
        return false;
      }
      var pending := dataSource.rows;
      var any := false;
      var todo := fetched.Keys;
      ghost var done: set<Location> := {};
      DeleteNothing(rows, u);
      while todo != {}
        invariant todo <= fetched.Keys
        invariant done == matched - todo
        invariant done !! o.failingDeletes
        invariant pending == DeleteAt(rows, u, done)
        invariant any == Affects(rows, u, done)
        invariant dataSource.rows == rows
        decreases |todo|
      {
        var l :| l in todo;
        todo := todo - {l};
        if p(At(fetched, l)) {
          assert l in matched;
          if l in o.failingDeletes {
            assert l in matched * o.failingDeletes;
            return false;
          }
          pending, any := DeleteOne(rows, pending, any, u, done, l);
          done := done + {l};
        } else {
          assert l !in matched;
        }
      }
      assert done == matched;
      if o.commitFails {
        return false;
      }
      dataSource.rows := pending;
      r := any;
    }
  }

  /**
   * One iteration of the delete loop: run the delete for `l` on the pending table and
   * note whether it affected a row. After the deletes at `done`, the result is the
   * state after the deletes at `done` and `l`.
   */
  method DeleteOne(ghost rows: seq<Row>, pending: seq<Row>, any: bool, u: Owner, ghost done: set<Location>, l: Location)
    returns (pending': seq<Row>, any': bool)
    requires l !in done && pending == DeleteAt(rows, u, done) && any == Affects(rows, u, done)
    ensures pending' == DeleteAt(rows, u, done + {l})
    ensures any' == Affects(rows, u, done + {l})
  {
    var count := DeleteCount(pending, u, l);
    DeleteStep(rows, u, done, l);
    pending' := DeleteAt(pending, u, {l});
    any' := any || count > 0;
  }

  // ---------------------------------------------------------------------------
  // SqlBackend against the Backend contract
  // ---------------------------------------------------------------------------

  /**
   * The operations as written, as a backend over the table: `register` leaves the table
   * as it was, and `unregister` only ever deletes rows.
   */
  function Ops(env: Env, o: Outcomes): (b: Backend<seq<Row>>)
    ensures forall rows: seq<Row>, u: Owner, c: RemoteContainer :: b.register(rows, u, c).1 == rows
    ensures forall rows: seq<Row>, u: Owner, p: ContainerPredicate :: |b.unregister(rows, u, p).1| <= |rows|
  {
    Backend(
      (rows: seq<Row>, u: Owner) => HasAnyOutcome(rows, u, o.existenceQueryFails),
      (rows: seq<Row>, u: Owner) => GetAllOutcome(rows, u, env, o.selectFails),
      (rows: seq<Row>, u: Owner, c: RemoteContainer) => IsOwnerOutcome(rows, u, c, env, o.selectFails),
      (rows: seq<Row>) => QueryOutcome(rows, None, env, o.selectFails),
      (rows: seq<Row>, u: Owner, c: RemoteContainer) => (RegisterOutcome(rows, u, c, o.registerCheckFails, o.insertResult), rows),
      (rows: seq<Row>, u: Owner, p: ContainerPredicate) => var (rows', r) := UnregisterOutcome(rows, u, p, env, o); (r, rows'))
  }

  /** The same operations with `register` corrected. */
  function OpsIntended(env: Env, o: Outcomes): (b: Backend<seq<Row>>)
    ensures b.getAllContainers == Ops(env, o).getAllContainers
  {
    Ops(env, o).(register := (rows: seq<Row>, u: Owner, c: RemoteContainer) =>
      var (rows', r) := RegisterIntendedOutcome(rows, u, c, o.registerCheckFails, o.insertResult); (r, rows'))
  }

  /** The user's fetched set holds exactly the locations of the user's resolvable rows. */
  lemma GetAllMembership(rows: seq<Row>, u: Owner, env: Env, l: Location)
    ensures l in GetAllOutcome(rows, u, env, false)
      <==> exists i :: 0 <= i < |rows| && Resolvable(env, rows[i]) && rows[i].owner == u && RowLocation(rows[i]) == l
  {
    SelectKeepsOwnerSet(rows, u, env);
    CollectMembership(rows, env, u, l);
  }

  /**
   * A row whose world is not loaded is skipped: it contributes nothing to any owner's set,
   * so it never makes `isOwner` true on its own.
   */
  lemma UnresolvedRowInvisible(rows: seq<Row>, r: Row, env: Env, c: RemoteContainer)
    requires !env.worldLoaded(r.world)
    ensures GetAllOutcome(rows + [r], r.owner, env, false) == GetAllOutcome(rows, r.owner, env, false)
    ensures IsOwnerOutcome(rows + [r], r.owner, c, env, false) == IsOwnerOutcome(rows, r.owner, c, env, false)
  {
    SelectAppend(rows, r, r.owner);
    SkipUnresolvable(SelectByOwner(rows, r.owner), r, env);
  }

  /** With its existence query answered, `hasAnyContainer` false means the user has nothing. */
  lemma HasAnyFalseMeansNoneSql(rows: seq<Row>, u: Owner, env: Env, o: Outcomes)
    requires !o.existenceQueryFails
    ensures HasAnyFalseMeansNone(Ops(env, o), rows, u)
  {
  }

  /**
   * `hasAnyContainer` may say true for a user with no container: an owner row whose world
   * is not loaded is counted by the owner query but skipped by `query`.
   */
  lemma HasAnyOverReports(u: Owner, w: Uuid, env: Env)
    requires !env.worldLoaded(w)
    ensures var rows := [Row(1, u, w, None, 0, 64, 0)];
      && Ops(env, NoFaults(true)).hasAnyContainer(rows, u)
      && Ops(env, NoFaults(true)).getAllContainers(rows, u) == map[]
      && !HasAnyHonest(Ops(env, NoFaults(true)), rows, u)
  {
    var rows := [Row(1, u, w, None, 0, 64, 0)];
    assert rows == [] + [rows[0]];
    SelectAppend([], rows[0], u);
    SkipUnresolvable([], rows[0], env);
  }

  /** A failure gives each operation its neutral result and leaves the table as it was. */
  lemma FailuresAreNeutral(rows: seq<Row>, u: Owner, c: RemoteContainer, p: ContainerPredicate, env: Env, o: Outcomes)
    ensures o.selectFails ==> Ops(env, o).getAllContainers(rows, u) == map[] && Ops(env, o).allContainers(rows) == map[]
    ensures o.existenceQueryFails ==> !Ops(env, o).hasAnyContainer(rows, u)
    ensures o.registerCheckFails ==> Ops(env, o).register(rows, u, c) == (false, rows)
    ensures o.connectionFails || o.commitFails ==> Ops(env, o).unregister(rows, u, p) == (false, rows)
  {
  }

  /** `isOwner` and `getAllContainers()` agree with `getAllContainers(user)`, fault or not. */
  lemma SqlQueriesHonest(rows: seq<Row>, u: Owner, c: RemoteContainer, env: Env, o: Outcomes)
    ensures IsOwnerHonest(Ops(env, o), rows, u, c)
    ensures AllContainersHonest(Ops(env, o), rows, u)
  {
    SelectKeepsOwnerSet(rows, u, env);
  }

  /** Every owner in `getAllContainers()` has at least one container. */
  lemma AllContainersNonEmpty(rows: seq<Row>, env: Env, fails: bool)
    ensures forall o :: o in QueryOutcome(rows, None, env, fails) ==> QueryOutcome(rows, None, env, fails)[o] != map[]
  {
    CollectSetsNonEmpty(rows, env);
  }

  /** A container of the user is backed by a row of the user at its location. */
  lemma FetchedHasRow(rows: seq<Row>, u: Owner, env: Env, l: Location)
    requires l in GetAllOutcome(rows, u, env, false)
    ensures ExistsAt(rows, u, l)
  {
    GetAllMembership(rows, u, env, l);
  }

  /** Without faults, `unregister` keeps the `Backend` contract. */
  lemma SqlUnregisterHonest(rows: seq<Row>, u: Owner, p: ContainerPredicate, env: Env, o: Outcomes)
    requires !o.selectFails && !o.connectionFails && o.failingDeletes == {} && !o.commitFails
    ensures UnregisterHonest(Ops(env, o), rows, u, p)
  {
    var b := Ops(env, o);
    var fetched := GetAllOutcome(rows, u, env, false);
    var matched := Matched(fetched, p);
    var rows' := DeleteAt(rows, u, matched);
    assert b.unregister(rows, u, p) == (Affects(rows, u, matched), rows');
    forall v
      ensures b.getAllContainers(rows', v) == AfterDelete(b.getAllContainers(rows, v), u, matched, v)
    {
      SelectKeepsOwnerSet(rows, v, env);
      SelectKeepsOwnerSet(rows', v, env);
      CollectAfterDelete(rows, u, matched, env, v);
    }
    assert Without(fetched, matched) == RemoveIf(fetched, p);
    if Affects(rows, u, matched) {
      var i :| 0 <= i < |rows| && Doomed(rows[i], u, matched);
      assert p(At(fetched, RowLocation(rows[i])));
    }
    if AnyMatch(fetched, p) {
      var l :| l in fetched && p(At(fetched, l));
      FetchedHasRow(rows, u, env, l);
      var i :| 0 <= i < |rows| && rows[i].owner == u && RowLocation(rows[i]) == l;
      assert Doomed(rows[i], u, matched);
    }
  }

  /**
   * All or nothing: when a delete for a matching container fails, no row is removed and
   * the result is false.
   */
  lemma UnregisterAllOrNothing(rows: seq<Row>, u: Owner, p: ContainerPredicate, env: Env, o: Outcomes, l: Location)
    requires l in GetAllOutcome(rows, u, env, o.selectFails) && p(At(GetAllOutcome(rows, u, env, o.selectFails), l))
    requires l in o.failingDeletes
    ensures UnregisterOutcome(rows, u, p, env, o) == (rows, false)
  {
    assert l in Matched(GetAllOutcome(rows, u, env, o.selectFails), p) * o.failingDeletes;
  }

  /** `unregister` never deletes a row whose world is not loaded. */
  lemma UnregisterKeepsUnresolvedRows(rows: seq<Row>, u: Owner, p: ContainerPredicate, env: Env, o: Outcomes, i: nat)
    requires i < |rows| && !env.worldLoaded(rows[i].world)
    ensures rows[i] in UnregisterOutcome(rows, u, p, env, o).0
  {
    var fetched := GetAllOutcome(rows, u, env, o.selectFails);
    var matched := Matched(fetched, p);
    if !(o.connectionFails || matched * o.failingDeletes != {} || o.commitFails) {
      if Doomed(rows[i], u, matched) {
        GetAllMembership(rows, u, env, RowLocation(rows[i]));
        assert false;
      }
      DeleteKeeps(rows, u, matched, i);
    }
  }

  /**
   * As written, `register` breaks its contract whenever it reports success: it says true
   * for a container not yet registered, yet the table, and so the user's set, is unchanged.
   */
  lemma RegisterAsWrittenNeverAdds(rows: seq<Row>, u: Owner, c: RemoteContainer, env: Env, o: Outcomes)
    requires !o.registerCheckFails && o.insertResult && !o.selectFails
    requires !ExistsAt(rows, u, c.location)
    ensures Ops(env, o).register(rows, u, c) == (true, rows)
    ensures !RegisterHonest(Ops(env, o), rows, u, c)
  {
    var s := GetAllOutcome(rows, u, env, false);
    if c.location in s {
      FetchedHasRow(rows, u, env, c.location);
    }
    assert c.location !in s && c.location in Add(s, c);
  }

  /** As written, `register` of a container not yet registered inserts nothing. */
  lemma RegisterAsWrittenLosesContainer(u: Owner, c: RemoteContainer, env: Env)
    requires env.worldLoaded(c.location.world) && env.userKnown(u)
    ensures var b := Ops(env, NoFaults(true));
      var (r, rows') := b.register([], u, c);
      r && !b.isOwner(rows', u, c)
  {
  }

  /** Appending a row changes only its owner's set, and only when the row resolves. */
  lemma GetAllAppend(rows: seq<Row>, row: Row, env: Env, v: Owner)
    ensures GetAllOutcome(rows + [row], v, env, false)
      == if Resolvable(env, row) && row.owner == v then Add(GetAllOutcome(rows, v, env, false), RowContainer(row))
         else GetAllOutcome(rows, v, env, false)
  {
    SelectKeepsOwnerSet(rows, v, env);
    SelectKeepsOwnerSet(rows + [row], v, env);
    CollectAppend(rows, row, env);
    AddRowOwnerSet(Collect(rows, env), row, env, v);
  }

  /**
   * Corrected, `register` keeps the `Backend` contract, and fails only for a duplicate,
   * whenever the container's world and the user resolve and no statement fails.
   */
  lemma RegisterIntendedHonest(rows: seq<Row>, u: Owner, c: RemoteContainer, env: Env, o: Outcomes)
    requires env.worldLoaded(c.location.world) && env.userKnown(u)
    requires !o.registerCheckFails && o.insertResult && !o.selectFails
    ensures RegisterHonest(OpsIntended(env, o), rows, u, c)
    ensures RegisterSucceeds(OpsIntended(env, o), rows, u, c)
  {
    var b := OpsIntended(env, o);
    var s := GetAllOutcome(rows, u, env, false);
    var dup := ExistsAt(rows, u, c.location);
    var rows' := if dup then rows else rows + [NewRow(rows, u, c)];
    assert b.register(rows, u, c) == (!dup, rows');
    if c.location in s {
      FetchedHasRow(rows, u, env, c.location);
    }
    if dup {
      var i :| 0 <= i < |rows| && rows[i].owner == u && RowLocation(rows[i]) == c.location;
      assert Resolvable(env, rows[i]);
      GetAllMembership(rows, u, env, c.location);
    } else {
      var row := NewRow(rows, u, c);
      assert RowContainer(row) == c && Resolvable(env, row);
      forall v
        ensures b.getAllContainers(rows', v) == if v == u then Add(s, c) else b.getAllContainers(rows, v)
      {
        GetAllAppend(rows, row, env, v);
      }
    }
  }

}
