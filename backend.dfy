/**
 * The storage contract every backend implements (`Backend`): six operations keyed by
 * owner. Futures are modelled as already-completed values, so an operation is a function
 * of the backend's state `S`; the two mutating operations also return the next state.
 *
 * The record `Backend<S>` stands for the abstract class; the predicates below state the
 * promises of its documentation comments, operation by operation, at a given state.
 */
module Backend {
  import opened RemoteContainers

  /** An owner, identified by the user's uuid. */
  type Owner = Uuid

  /** The whole registry: each owner's set of containers. */
  type Registry = map<Owner, ContainerSet>

  /** A predicate on containers (`Predicate<RemoteContainer>`). */
  type ContainerPredicate = RemoteContainer -> bool

  /** An owner's set in a registry, or the empty set (`getOrDefault(user, emptySet())`). */
  function OwnerSet(reg: Registry, u: Owner): ContainerSet {
    if u in reg then reg[u] else map[]
  }

  datatype Backend<!S> = Backend(
    hasAnyContainer: (S, Owner) -> bool,
    getAllContainers: (S, Owner) -> ContainerSet,
    isOwner: (S, Owner, RemoteContainer) -> bool,
    allContainers: S -> Registry,
    register: (S, Owner, RemoteContainer) -> (bool, S),
    unregister: (S, Owner, ContainerPredicate) -> (bool, S))

  /** `hasAnyContainer(user)` indicates whether the user has any container. */
  ghost predicate HasAnyHonest<S>(b: Backend<S>, s: S, u: Owner) {
    b.hasAnyContainer(s, u) <==> b.getAllContainers(s, u) != map[]
  }

  /** The premise the facade's short-circuit relies on: "no" really means "none". */
  ghost predicate HasAnyFalseMeansNone<S>(b: Backend<S>, s: S, u: Owner) {
    !b.hasAnyContainer(s, u) ==> b.getAllContainers(s, u) == map[]
  }

  /** `isOwner(user, c)` indicates whether `c` is among the user's containers. */
  ghost predicate IsOwnerHonest<S>(b: Backend<S>, s: S, u: Owner, c: RemoteContainer) {
    b.isOwner(s, u, c) <==> Contains(b.getAllContainers(s, u), c)
  }

  /** `getAllContainers()` shows every owner with the same set `getAllContainers(user)` gives. */
  ghost predicate AllContainersHonest<S>(b: Backend<S>, s: S, u: Owner) {
    OwnerSet(b.allContainers(s), u) == b.getAllContainers(s, u)
  }

  /**
   * `register(user, c)`: false, without change, when `c` is already registered; when true,
   * the user's set gains `c`; no other owner's set changes.
   */
  ghost predicate RegisterHonest<S>(b: Backend<S>, s: S, u: Owner, c: RemoteContainer) {
    var (r, s') := b.register(s, u, c);
    && (Contains(b.getAllContainers(s, u), c) ==> !r)
    && b.getAllContainers(s', u) == (if r then Add(b.getAllContainers(s, u), c) else b.getAllContainers(s, u))
    && (forall v :: v != u ==> b.getAllContainers(s', v) == b.getAllContainers(s, v))
  }

  /**
   * `register` returns false only when the container is already registered (the
   * documentation's "normally").
   */
  ghost predicate RegisterSucceeds<S>(b: Backend<S>, s: S, u: Owner, c: RemoteContainer) {
    !Contains(b.getAllContainers(s, u), c) ==> b.register(s, u, c).0
  }

  /**
   * `unregister(user, p)`: every container of the user matching `p` is removed, the result
   * says whether any was removed, and no other owner's set changes.
   */
  ghost predicate UnregisterHonest<S>(b: Backend<S>, s: S, u: Owner, p: ContainerPredicate) {
    var (r, s') := b.unregister(s, u, p);
    && b.getAllContainers(s', u) == RemoveIf(b.getAllContainers(s, u), p)
    && (r <==> AnyMatch(b.getAllContainers(s, u), p))
    && (forall v :: v != u ==> b.getAllContainers(s', v) == b.getAllContainers(s, v))
  }

  /** A backend that keeps its promise on `hasAnyContainer` keeps the facade's premise. */
  lemma HonestHasAnyGivesPremise<S>(b: Backend<S>, s: S, u: Owner)
    requires HasAnyHonest(b, s, u)
    ensures HasAnyFalseMeansNone(b, s, u)
  {
  }

  /** Registering an absent container through an honest backend adds exactly one container. */
  lemma HonestRegisterGrowsByOne<S>(b: Backend<S>, s: S, u: Owner, c: RemoteContainer)
    requires RegisterHonest(b, s, u, c) && RegisterSucceeds(b, s, u, c)
    requires !Contains(b.getAllContainers(s, u), c)
    ensures var s' := b.register(s, u, c).1;
      |b.getAllContainers(s', u)| == |b.getAllContainers(s, u)| + 1 && Contains(b.getAllContainers(s', u), c)
  {
  }

  /** Unregistering through an honest backend leaves no container of the user matching `p`. */
  lemma HonestUnregisterLeavesNoMatch<S>(b: Backend<S>, s: S, u: Owner, p: ContainerPredicate)
    requires UnregisterHonest(b, s, u, p)
    ensures !AnyMatch(b.getAllContainers(b.unregister(s, u, p).1, u), p)
  {
  }
}
