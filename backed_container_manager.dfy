/**
 * `BackedContainerManager`: the `ContainerManager` that forwards to a `Backend`. It keeps no
 * state of its own: the mutations pass straight through, and the three user queries first
 * ask `hasAnyContainer` and answer "nothing" without fetching when it says false.
 *
 * Each operation takes the backend `b` and its current state `s`; the queries are functions
 * of `s`, so they change no state. `getUserContainer` picks some matching container of a
 * hash set, whose iteration order is not modelled, so it is a method with a choice.
 */
module BackedContainerManager {
  import opened Wrappers
  import opened RemoteContainers
  import opened Backend
  import opened ContainerManager
  import ConfigBackend
  import SqlRows
  import SqlBackend

  /** `registerUserContainer(user, c)`: the backend's `register`, result and new state. */
  function RegisterUserContainer<S>(b: Backend<S>, s: S, u: Owner, c: RemoteContainer): (r: (bool, S))
    ensures r == b.register(s, u, c)
  {
    b.register(s, u, c)
  }

  /** `unregisterUserContainer(user, p)`: the backend's `unregister`, result and new state. */
  function UnregisterUserContainer<S>(b: Backend<S>, s: S, u: Owner, p: ContainerPredicate): (r: (bool, S))
    ensures r == b.unregister(s, u, p)
  {
    b.unregister(s, u, p)
  }

  /** `isOwner(user, c)`: the backend's answer. */
  function IsOwner<S>(b: Backend<S>, s: S, u: Owner, c: RemoteContainer): (r: bool)
    ensures r == b.isOwner(s, u, c)
  {
    b.isOwner(s, u, c)
  }

  /** `getAllContainers()`: the backend's map. */
  function GetAllContainers<S>(b: Backend<S>, s: S): (r: Registry)
    ensures r == b.allContainers(s)
  {
    b.allContainers(s)
  }

  /**
   * `getUserContainers(user, p)`: nothing when `hasAnyContainer` says false; otherwise the
   * user's containers that satisfy `p`.
   */
  function GetUserContainersMatching<S>(b: Backend<S>, s: S, u: Owner, p: ContainerPredicate): (r: ContainerSet)
    ensures !b.hasAnyContainer(s, u) ==> r == map[]
    ensures b.hasAnyContainer(s, u) ==>
      forall l :: l in r <==> l in b.getAllContainers(s, u) && p(At(b.getAllContainers(s, u), l))
    ensures forall l :: l in r ==> l in b.getAllContainers(s, u) && r[l] == b.getAllContainers(s, u)[l] && p(At(r, l))
  {
    if !b.hasAnyContainer(s, u) then map[] else Filter(b.getAllContainers(s, u), p)
  }

  /** `getUserContainers(user)`: nothing when `hasAnyContainer` says false; otherwise the user's set. */
  function GetUserContainers<S>(b: Backend<S>, s: S, u: Owner): (r: ContainerSet)
    ensures !b.hasAnyContainer(s, u) ==> r == map[]
    ensures b.hasAnyContainer(s, u) ==> r == b.getAllContainers(s, u)
  {
    if !b.hasAnyContainer(s, u) then map[] else b.getAllContainers(s, u)
  }

  /**
   * `getUserContainer(user, p)`: nothing when `hasAnyContainer` says false; otherwise some
   * container of the user satisfying `p`, or nothing when none does.
   */
  method GetUserContainer<S>(b: Backend<S>, s: S, u: Owner, p: ContainerPredicate) returns (r: Option<RemoteContainer>)
    ensures r.None? <==> !b.hasAnyContainer(s, u) || !AnyMatch(b.getAllContainers(s, u), p)
    ensures r.Some? ==> Contains(b.getAllContainers(s, u), r.value) && p(r.value)
    ensures r.Some? ==> At(b.getAllContainers(s, u), r.value.location) == r.value
  {
    if !b.hasAnyContainer(s, u) {
      return None;
    }
    var all := b.getAllContainers(s, u);
    if l :| l in all && p(At(all, l)) {
      r := Some(At(all, l));
    } else {
      r := None;
    }
  }

  // ---------------------------------------------------------------------------
  // The interface's default operations on this manager
  // ---------------------------------------------------------------------------

  /** `unregisterUserContainer(user, container)`: unregister whatever equals `c`. */
  function UnregisterContainer<S>(b: Backend<S>, s: S, u: Owner, c: RemoteContainer): (r: (bool, S))
    ensures r == UnregisterUserContainer(b, s, u, ByContainer(c))
  {
    UnregisterUserContainer(b, s, u, ByContainer(c))
  }

  /** `getUserContainer(user, name)`: some container of the user carrying that name. */
  method GetUserContainerNamed<S>(b: Backend<S>, s: S, u: Owner, name: string) returns (r: Option<RemoteContainer>)
    ensures r.None? <==>
      (!b.hasAnyContainer(s, u) || !exists l :: l in b.getAllContainers(s, u) && b.getAllContainers(s, u)[l] == Some(name))
    ensures r.Some? ==> Contains(b.getAllContainers(s, u), r.value) && r.value.name == Some(name)
  {
    ByNameSelects(b.getAllContainers(s, u), name);
    r := GetUserContainer(b, s, u, ByName(name));
  }

  /** `getUserContainer(user, location)`: the user's container at that location, if any. */
  method GetUserContainerAt<S>(b: Backend<S>, s: S, u: Owner, location: Location) returns (r: Option<RemoteContainer>)
    ensures r.None? <==> !b.hasAnyContainer(s, u) || location !in b.getAllContainers(s, u)
    ensures r.Some? ==> r.value == At(b.getAllContainers(s, u), location)
  {
    ByLocationSelectsOne(b.getAllContainers(s, u), location);
    r := GetUserContainer(b, s, u, ByLocation(location));
  }

  // ---------------------------------------------------------------------------
  // What the manager promises, given what the backend promises
  // ---------------------------------------------------------------------------

  /**
   * Registering a container already registered gives false, and unregistering with a
   * predicate nothing matches gives false, whenever the backend keeps its contract.
   */
  lemma ManagerMutationsHonest<S>(b: Backend<S>, s: S, u: Owner, c: RemoteContainer, p: ContainerPredicate)
    requires RegisterHonest(b, s, u, c) && UnregisterHonest(b, s, u, p)
    ensures Contains(b.getAllContainers(s, u), c) ==> !RegisterUserContainer(b, s, u, c).0
    ensures !AnyMatch(b.getAllContainers(s, u), p) ==> !UnregisterUserContainer(b, s, u, p).0
  {
  }

  /**
   * Unregistering a container through an honest backend removes the user's container at
   * its location, whatever its name, and reports whether there was one.
   */
  lemma UnregisterContainerRemovesIt<S>(b: Backend<S>, s: S, u: Owner, c: RemoteContainer)
    requires UnregisterHonest(b, s, u, ByContainer(c))
    ensures var (r, s') := UnregisterContainer(b, s, u, c);
      && (r <==> Contains(b.getAllContainers(s, u), c))
      && b.getAllContainers(s', u) == b.getAllContainers(s, u) - {c.location}
  {
    ByContainerSelectsOne(b.getAllContainers(s, u), c);
  }

  /**
   * The short-circuit is transparent: when "hasAny false" means "no containers", each
   * query answers as if it had fetched the user's set and filtered it unconditionally.
   */
  lemma ShortCircuitTransparent<S>(b: Backend<S>, s: S, u: Owner, p: ContainerPredicate)
    requires HasAnyFalseMeansNone(b, s, u)
    ensures GetUserContainers(b, s, u) == b.getAllContainers(s, u)
    ensures GetUserContainersMatching(b, s, u, p) == Filter(b.getAllContainers(s, u), p)
    ensures (!b.hasAnyContainer(s, u) || !AnyMatch(b.getAllContainers(s, u), p)) <==> !AnyMatch(b.getAllContainers(s, u), p)
  {
    if !b.hasAnyContainer(s, u) {
      assert Filter(b.getAllContainers(s, u), p) == map[];
    }
  }

  /**
   * Without the premise the short-circuit is not transparent: a backend that says false
   * while holding a container hides that container from every query.
   */
  lemma ShortCircuitHides<S>(b: Backend<S>, s: S, u: Owner)
    requires !b.hasAnyContainer(s, u) && b.getAllContainers(s, u) != map[]
    ensures GetUserContainers(b, s, u) != b.getAllContainers(s, u)
    ensures GetUserContainersMatching(b, s, u, (c: RemoteContainer) => true) != Filter(b.getAllContainers(s, u), (c: RemoteContainer) => true)
  {
    var l :| l in b.getAllContainers(s, u);
    assert l in Filter(b.getAllContainers(s, u), (c: RemoteContainer) => true);
  }

  // ---------------------------------------------------------------------------
  // The manager over each backend
  // ---------------------------------------------------------------------------

  /**
   * Over `ConfigBackend` as written, the user queries never find anything: the inverted
   * `hasAnyContainer` says true only when the user's set is empty.
   */
  lemma ConfigManagerFindsNothing(m: Registry, u: Owner, p: ContainerPredicate)
    ensures GetUserContainers(ConfigBackend.Ops(), m, u) == map[]
    ensures GetUserContainersMatching(ConfigBackend.Ops(), m, u, p) == map[]
    ensures !AnyMatch(GetUserContainers(ConfigBackend.Ops(), m, u), p)
  {
    ConfigBackend.HasAnyAsWrittenInverted(m, u);
  }

  /** Over `ConfigBackend` with `hasAnyContainer` corrected, the short-circuit is transparent. */
  lemma ConfigIntendedManagerTransparent(m: Registry, u: Owner, p: ContainerPredicate)
    ensures GetUserContainers(ConfigBackend.OpsIntended(), m, u) == OwnerSet(m, u)
    ensures GetUserContainersMatching(ConfigBackend.OpsIntended(), m, u, p) == Filter(OwnerSet(m, u), p)
  {
    ConfigBackend.HasAnyIntendedHonest(m, u);
    ShortCircuitTransparent(ConfigBackend.OpsIntended(), m, u, p);
  }

  /**
   * Over `SqlBackend`, whenever its existence query does not fail, the short-circuit is
   * transparent: the owner query returns a row for every container the user has.
   */
  lemma SqlManagerTransparent(rows: seq<SqlRows.Row>, u: Owner, p: ContainerPredicate, env: SqlRows.Env, o: SqlBackend.Outcomes)
    requires !o.existenceQueryFails
    ensures GetUserContainers(SqlBackend.Ops(env, o), rows, u) == SqlBackend.GetAllOutcome(rows, u, env, o.selectFails)
    ensures GetUserContainersMatching(SqlBackend.Ops(env, o), rows, u, p) == Filter(SqlBackend.GetAllOutcome(rows, u, env, o.selectFails), p)
  {
    SqlBackend.HasAnyFalseMeansNoneSql(rows, u, env, o);
    ShortCircuitTransparent(SqlBackend.Ops(env, o), rows, u, p);
  }
}
