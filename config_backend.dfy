/**
 * `ConfigBackend`: the registry cached in memory as a mutable map from owner to that
 * owner's set of containers, changed in place by `register` and `unregister`. Every
 * operation completes at once. `getAllContainers()` hands out the same live read-only
 * view of the map every time, and `getAllContainers(user)` a live read-only view of the
 * user's own set.
 *
 * The class methods are proved equal to the value-level functions `RegisterOutcome` and
 * `UnregisterOutcome`; the lemmas about those functions state what the operations promise,
 * and `Ops()` packages them as a `Backend<Registry>` for the facade.
 */
module ConfigBackend {
  import opened Wrappers
  import opened RemoteContainers
  import opened Backend
  import opened MapSetView

  // ---------------------------------------------------------------------------
  // The operations as functions of the map's contents
  // ---------------------------------------------------------------------------

  /**
   * `hasAnyContainer(user)` exactly as written: true when the owner is absent or the
   * owner's set is empty, which is the negation of what `Backend` documents.
   */
  predicate HasAnyAsWritten(m: Registry, u: Owner) {
    !(u in m) || m[u] == map[]
  }

  /** `hasAnyContainer(user)` as documented: the owner is present with a non-empty set. */
  predicate HasAnyIntended(m: Registry, u: Owner) {
    u in m && m[u] != map[]
  }

  /** `isOwner(user, c)`: the owner is present and its set contains a container equal to `c`. */
  predicate IsOwnerIn(m: Registry, u: Owner, c: RemoteContainer) {
    u in m && Contains(m[u], c)
  }

  /** `register(user, c)`: the result and the map's new contents. */
  function RegisterOutcome(m: Registry, u: Owner, c: RemoteContainer): (Registry, bool) {
    if u !in m then (m[u := Add(map[], c)], true)
    else if Contains(m[u], c) then (m, false)
    else (m[u := Add(m[u], c)], true)
  }

  /** `unregister(user, p)`: the result and the map's new contents. */
  function UnregisterOutcome(m: Registry, u: Owner, p: ContainerPredicate): (Registry, bool) {
    if u !in m then (m, false)
    else (m[u := RemoveIf(m[u], p)], RemoveIf(m[u], p) != m[u])
  }

  // ---------------------------------------------------------------------------
  // The imperative class
  // ---------------------------------------------------------------------------

  /**
   * What `getAllContainers(user)` hands out: the shared empty set for an absent user, or
   * an unmodifiable view of the user's own `HashSet` inside the map. The map never drops
   * a key and never replaces a user's set once put, so the view reads that user's
   * current set for as long as it is kept.
   */
  datatype UserSet = EmptySet | UnmodifiableSet(backing: SharedMap<Owner, ContainerSet>, owner: Owner)

  /** The containers a handed-out set holds when it is read. */
  function Elements(s: UserSet): ContainerSet
    reads if s.UnmodifiableSet? then {s.backing} else {}
  {
    match s
    case EmptySet => map[]
    case UnmodifiableSet(backing, owner) => OwnerSet(backing.entries, owner)
  }

  class ConfigBackend {
    /** The cached registry (the Java field `map`), shared with `view`. */
    const cache: SharedMap<Owner, ContainerSet>
    /** The read-only view over `cache` that `getAllContainers()` returns. */
    const view: MapSetView<Owner, ContainerSet>

    ghost predicate Valid()
      reads this
    {
      view.original == cache
    }

    /** Construction from the registry loaded from the configuration document. */
    constructor(loaded: Registry)
      ensures Valid() && fresh(cache) && fresh(view)
      ensures cache.entries == loaded
    {
      var m := new SharedMap(loaded);
      cache := m;
      view := new MapSetView(m);
    }

    /** `hasAnyContainer(user)` as written: true exactly when the user has no container. */
    predicate HasAnyContainer(u: Owner)
      reads cache
      ensures HasAnyContainer(u) <==> OwnerSet(cache.entries, u) == map[]
    {
      HasAnyAsWritten(cache.entries, u)
    }

    /** `hasAnyContainer(user)` corrected: true exactly when the user has some container. */
    predicate HasAnyContainerIntended(u: Owner)
      reads cache
      ensures HasAnyContainerIntended(u) <==> OwnerSet(cache.entries, u) != map[]
      ensures HasAnyContainerIntended(u) <==> !HasAnyContainer(u)
    {
      HasAnyIntended(cache.entries, u)
    }

    /**
     * `getAllContainers(user)`: the empty set for an absent user, otherwise a live
     * unmodifiable view of the user's set, which later registrations change.
     */
    method GetAllContainers(u: Owner) returns (s: UserSet)
      ensures s.EmptySet? <==> u !in cache.entries
      ensures s.UnmodifiableSet? ==> s.backing == cache && s.owner == u
      ensures Elements(s) == OwnerSet(cache.entries, u)
    {
      if u !in cache.entries {
        return EmptySet;
      }
      s := UnmodifiableSet(cache, u);
    }

    /**
     * `getAllContainers(user)` as `Backend` documents it: an immutable copy of the user's
     * current set, or the empty set for an absent user.
     */
    function GetAllContainersSnapshot(u: Owner): (s: ContainerSet)
      reads cache
      ensures u !in cache.entries ==> s == map[]
      ensures forall c :: Contains(s, c) <==> IsOwner(u, c)
    {
      OwnerSet(cache.entries, u)
    }

    /** `isOwner(user, c)`: whether `c` is among the containers `getAllContainers(user)` shows. */
    predicate IsOwner(u: Owner, c: RemoteContainer)
      reads cache
      ensures IsOwner(u, c) <==> Contains(OwnerSet(cache.entries, u), c)
    {
      IsOwnerIn(cache.entries, u, c)
    }

    /** `getAllContainers()`: always the same view object, a window on `cache`. */
    function GetAllContainersView(): (v: MapSetView<Owner, ContainerSet>)
      reads this
      requires Valid()
      ensures v.original == cache
    {
      view
    }

    /**
     * `register(user, c)`: puts an empty set for an absent user (a structural change of
     * the map), then adds `c` to the user's set in place unless an equal container is
     * already there. The change is visible through the view.
     */
    method Register(u: Owner, c: RemoteContainer) returns (r: bool)
      requires Valid()
      modifies cache
      ensures Valid()
      ensures (cache.entries, r) == RegisterOutcome(old(cache.entries), u, c)
      ensures cache.modCount == if u in old(cache.entries) then old(cache.modCount) else old(cache.modCount) + 1
      ensures view.Get(u) == Some(OwnerSet(cache.entries, u)) && Contains(OwnerSet(cache.entries, u), c)
    {
      if u !in cache.entries {
        cache.Put(u, map[]);
        assert cache.entries[u := Add(map[], c)] == old(cache.entries)[u := Add(map[], c)];
      } else if Contains(cache.entries[u], c) {
        return false;
      }
      cache.entries := cache.entries[u := Add(cache.entries[u], c)];
      r := true;
    }

    /**
     * `unregister(user, p)`: false for an absent user; otherwise `removeIf(p)` on the
     * user's set, in place. The user's key stays even when the set becomes empty, so the
     * map never changes structurally.
     */
    method Unregister(u: Owner, p: ContainerPredicate) returns (r: bool)
      requires Valid()
      modifies cache
      ensures Valid()
      ensures (cache.entries, r) == UnregisterOutcome(old(cache.entries), u, p)
      ensures cache.modCount == old(cache.modCount)
      ensures old(u in cache.entries) ==> view.Get(u) == Some(RemoveIf(old(OwnerSet(cache.entries, u)), p))
    {
      if u !in cache.entries {
        return false;
      }
      var before := cache.entries[u];
      var after := RemoveIf(before, p);
      cache.entries := cache.entries[u := after];
      r := after != before;
    }
  }

  // ---------------------------------------------------------------------------
  // Sets and iterators handed out before a change
  // ---------------------------------------------------------------------------

  /**
   * A set handed out by `getAllContainers(user)` changes when the user registers another
   * container afterwards, although `Backend` promises an immutable set.
   */
  method HandedOutSetChanges(loaded: Registry, u: Owner, c: RemoteContainer) returns (before: ContainerSet, after: ContainerSet)
    requires u in loaded && !Contains(loaded[u], c)
    ensures before == loaded[u] && !Contains(before, c)
    ensures after == Add(loaded[u], c) && before != after
  {
    var b := new ConfigBackend(loaded);
    var s := b.GetAllContainers(u);
    before := Elements(s);
    var _ := b.Register(u, c);
    after := Elements(s);
  }

  /** A copy taken by the corrected `getAllContainers(user)` stays as it was. */
  method SnapshotStaysPut(loaded: Registry, u: Owner, c: RemoteContainer) returns (before: ContainerSet, now: ContainerSet)
    requires u in loaded && !Contains(loaded[u], c)
    ensures before == loaded[u] && !Contains(before, c)
    ensures now == Add(loaded[u], c) && before != now
  {
    var b := new ConfigBackend(loaded);
    before := b.GetAllContainersSnapshot(u);
    var _ := b.Register(u, c);
    now := b.GetAllContainersSnapshot(u);
  }

  /**
   * An entry-set iterator of the view, opened before a registration for a new user,
   * fails fast: the new key is a structural change of the map.
   */
  method IteratorFailsAfterNewOwner(loaded: Registry, u: Owner, c: RemoteContainer)
    returns (r: Step<(Owner, ContainerSet)>)
    requires u !in loaded
    ensures r.ConcurrentModification?
  {
    var b := new ConfigBackend(loaded);
    var entries := b.GetAllContainersView().EntrySet();
    var it := entries.Iterator();
    var _ := b.Register(u, c);
    r := it.Next();
  }

  /**
   * A registration or an unregistration for a user already present changes a set in
   * place, not the map's structure: an iterator opened before goes on, and shows the
   * user's current set.
   */
  method IteratorSurvivesKnownOwner(loaded: Registry, u: Owner, c: RemoteContainer, p: ContainerPredicate)
    returns (r: Step<(Owner, ContainerSet)>)
    requires u in loaded
    ensures r.Item? && r.value.0 in loaded
    ensures r.value.0 == u ==> r.value.1 == RemoveIf(RegisterOutcome(loaded, u, c).0[u], p)
  {
    var b := new ConfigBackend(loaded);
    var entries := b.GetAllContainersView().EntrySet();
    var it := entries.Iterator();
    var _ := b.Register(u, c);
    var _ := b.Unregister(u, p);
    r := it.Next();
  }

  /** The key set handed out before a registration for a new user shows the new user. */
  method KeySetSeesNewOwner(loaded: Registry, u: Owner, c: RemoteContainer) returns (before: bool, after: bool)
    requires u !in loaded
    ensures !before && after
  {
    var b := new ConfigBackend(loaded);
    var keys := b.GetAllContainersView().KeySet();
    before := keys.Contains(u);
    var _ := b.Register(u, c);
    after := keys.Contains(u);
  }

  // ---------------------------------------------------------------------------
  // What register and unregister promise
  // ---------------------------------------------------------------------------

  /** Registering for an absent owner creates the owner's set holding just `c`. */
  lemma RegisterAbsentOwner(m: Registry, u: Owner, c: RemoteContainer)
    requires u !in m
    ensures var (m', r) := RegisterOutcome(m, u, c);
      r && m'.Keys == m.Keys + {u} && m'[u] == map[c.location := c.name]
  {
  }

  /** Registering a container equal to one already in the owner's set changes nothing. */
  lemma RegisterDuplicate(m: Registry, u: Owner, c: RemoteContainer)
    requires IsOwnerIn(m, u, c)
    ensures RegisterOutcome(m, u, c) == (m, false)
  {
  }

  /**
   * A successful registration adds `c` to the owner's set (one more container), keeps the
   * containers already there, and leaves every other owner's entry as it was.
   */
  lemma RegisterAddsOne(m: Registry, u: Owner, c: RemoteContainer)
    requires !IsOwnerIn(m, u, c)
    ensures var (m', r) := RegisterOutcome(m, u, c);
      && r
      && OwnerSet(m', u) == Add(OwnerSet(m, u), c)
      && |OwnerSet(m', u)| == |OwnerSet(m, u)| + 1
      && IsOwnerIn(m', u, c)
      && (forall v :: v != u ==> (v in m' <==> v in m) && (v in m ==> m'[v] == m[v]))
  {
  }

  /** Registering the same container twice: true, then false, and one container added in all. */
  lemma RegisterTwice(m: Registry, u: Owner, c: RemoteContainer, c2: RemoteContainer)
    requires !IsOwnerIn(m, u, c) && c2.location == c.location
    ensures var (m1, r1) := RegisterOutcome(m, u, c);
      var (m2, r2) := RegisterOutcome(m1, u, c2);
      r1 && !r2 && m2 == m1 && |OwnerSet(m2, u)| == |OwnerSet(m, u)| + 1
  {
    RegisterAddsOne(m, u, c);
  }

  /** Unregistering for an absent owner returns false and changes nothing. */
  lemma UnregisterAbsentOwner(m: Registry, u: Owner, p: ContainerPredicate)
    requires u !in m
    ensures UnregisterOutcome(m, u, p) == (m, false)
  {
  }

  /**
   * Unregistering keeps exactly the owner's containers that do not match, reports whether
   * any matched, keeps the owner's key, and leaves every other owner's entry as it was.
   */
  lemma UnregisterRemovesMatches(m: Registry, u: Owner, p: ContainerPredicate)
    requires u in m
    ensures var (m', r) := UnregisterOutcome(m, u, p);
      && m'.Keys == m.Keys
      && (forall l :: l in m'[u] <==> l in m[u] && !p(At(m[u], l)))
      && (r <==> AnyMatch(m[u], p))
      && (forall v :: v in m && v != u ==> m'[v] == m[v])
  {
    RemoveIfChanges(m[u], p);
  }

  /**
   * The predicate-removal scenario: with containers at three locations and a predicate
   * matching the first and the third, unregistering succeeds and leaves the second alone.
   */
  lemma UnregisterScenario(u: Owner, l1: Location, l2: Location, l3: Location)
    requires l1 != l2 && l2 != l3 && l1 != l3
    ensures var m := map[u := map[l1 := None, l2 := None, l3 := None]];
      var (m', r) := UnregisterOutcome(m, u, (c: RemoteContainer) => c.location == l1 || c.location == l3);
      r && m'[u] == map[l2 := None]
  {
    var s := map[l1 := None, l2 := None, l3 := None];
    var p: ContainerPredicate := (c: RemoteContainer) => c.location == l1 || c.location == l3;
    RemoveIfChanges(s, p);
    assert p(At(s, l1));
    assert RemoveIf(s, p).Keys == {l2};
  }

  // ---------------------------------------------------------------------------
  // ConfigBackend against the Backend contract
  // ---------------------------------------------------------------------------

  /**
   * The operations as written, as a backend over the map's contents: `register` always
   * leaves the user's key in the map, and `unregister` never adds or drops a key.
   */
  function Ops(): (b: Backend<Registry>)
    ensures forall m: Registry, u: Owner, c: RemoteContainer :: b.register(m, u, c).1.Keys == m.Keys + {u}
    ensures forall m: Registry, u: Owner, p: ContainerPredicate :: b.unregister(m, u, p).1.Keys == m.Keys
  {
    Backend(
      (m: Registry, u: Owner) => HasAnyAsWritten(m, u),
      (m: Registry, u: Owner) => OwnerSet(m, u),
      (m: Registry, u: Owner, c: RemoteContainer) => IsOwnerIn(m, u, c),
      (m: Registry) => m,
      (m: Registry, u: Owner, c: RemoteContainer) => var (m', r) := RegisterOutcome(m, u, c); (r, m'),
      (m: Registry, u: Owner, p: ContainerPredicate) => var (m', r) := UnregisterOutcome(m, u, p); (r, m'))
  }

  /** The same operations with `hasAnyContainer` corrected. */
  function OpsIntended(): (b: Backend<Registry>)
    ensures b.getAllContainers == Ops().getAllContainers
  {
    Ops().(hasAnyContainer := (m: Registry, u: Owner) => HasAnyIntended(m, u))
  }

  /** `isOwner` and `getAllContainers()` agree with `getAllContainers(user)` in every state. */
  lemma ConfigQueriesHonest(m: Registry, u: Owner, c: RemoteContainer)
    ensures IsOwnerHonest(Ops(), m, u, c)
    ensures AllContainersHonest(Ops(), m, u)
  {
  }

  /** `register` keeps the `Backend` contract, and fails only for a duplicate, in every state. */
  lemma ConfigRegisterHonest(m: Registry, u: Owner, c: RemoteContainer)
    ensures RegisterHonest(Ops(), m, u, c) && RegisterSucceeds(Ops(), m, u, c)
  {
    var (m', r) := RegisterOutcome(m, u, c);
    assert Ops().register(m, u, c) == (r, m');
    if IsOwnerIn(m, u, c) {
      RegisterDuplicate(m, u, c);
    } else {
      RegisterAddsOne(m, u, c);
      forall v | v != u
        ensures OwnerSet(m', v) == OwnerSet(m, v)
      {
      }
    }
  }

  /** `unregister` keeps the `Backend` contract in every state. */
  lemma ConfigUnregisterHonest(m: Registry, u: Owner, p: ContainerPredicate)
    ensures UnregisterHonest(Ops(), m, u, p)
  {
    var (m', r) := UnregisterOutcome(m, u, p);
    assert Ops().unregister(m, u, p) == (r, m');
    if u in m {
      RemoveIfChanges(m[u], p);
      assert OwnerSet(m', u) == RemoveIf(OwnerSet(m, u), p);
    } else {
      assert RemoveIf(map[], p) == map[];
    }
  }

  /** As written, `hasAnyContainer` breaks its contract in every state, for every owner. */
  lemma HasAnyAsWrittenInverted(m: Registry, u: Owner)
    ensures Ops().hasAnyContainer(m, u) <==> Ops().getAllContainers(m, u) == map[]
    ensures !HasAnyHonest(Ops(), m, u)
  {
  }

  /** Corrected, `hasAnyContainer` keeps its contract in every state. */
  lemma HasAnyIntendedHonest(m: Registry, u: Owner)
    ensures HasAnyHonest(OpsIntended(), m, u)
    ensures HasAnyFalseMeansNone(OpsIntended(), m, u)
  {
  }

  /** An owner with an empty set and an owner never registered look the same. */
  lemma EmptyLikeAbsent(m: Registry, u: Owner, v: Owner)
    requires u in m && m[u] == map[] && v !in m
    ensures OwnerSet(m, u) == OwnerSet(m, v) == map[]
    ensures HasAnyIntended(m, u) == HasAnyIntended(m, v) == false
    ensures HasAnyAsWritten(m, u) == HasAnyAsWritten(m, v) == true
  {
  }
}
