/**
 * The remote container value built by `RemoteContainerFactory`: an optional display
 * name and a block location. Identity (equality and hash) is the location alone.
 *
 * A Java `HashSet<RemoteContainer>` keeps at most one container per location and, on
 * `add` of an equal element, keeps the element already present. It is therefore
 * represented here as a map from location to the name of the container kept there.
 */
module RemoteContainers {
  import opened Wrappers

  /** A uuid in its canonical text form (the form stored in the database). */
  type Uuid = string

  /** A block location: the world's uuid and integer block coordinates. */
  datatype Location = Location(world: Uuid, x: int, y: int, z: int)

  datatype RemoteContainer = RemoteContainer(name: Option<string>, location: Location)

  /** `createChest(name, location)`; a Java `null` name is `None`. */
  function CreateChest(name: Option<string>, location: Location): (c: RemoteContainer)
    ensures GetName(c) == name && GetLocation(c) == location
  {
    RemoteContainer(name, location)
  }

  /** `createChest(location)`: an unnamed container at exactly `location`. */
  function CreateChestAt(location: Location): (c: RemoteContainer)
    ensures GetName(c) == None && GetLocation(c) == location
  {
    CreateChest(None, location)
  }

  /** `getName()`: `Optional.ofNullable(name)`; with the location it rebuilds the container. */
  function GetName(c: RemoteContainer): (n: Option<string>)
    ensures RemoteContainer(n, c.location) == c
  {
    c.name
  }

  /** `getLocation()`; with the name it rebuilds the container. */
  function GetLocation(c: RemoteContainer): (l: Location)
    ensures RemoteContainer(c.name, l) == c
  {
    c.location
  }

  /** `equals` between two containers: the locations alone decide, the names play no part. */
  predicate Equals(a: RemoteContainer, b: RemoteContainer)
    ensures Equals(a, b) <==> a == b.(name := a.name)
  {
    GetLocation(a) == GetLocation(b)
  }

  /**
   * `hashCode()`: the location's own hash. Sponge's `Location.hashCode` is not part of
   * this model, so it is the parameter `locationHash`. Every container equal to `c`
   * hashes to the same value, whatever its name.
   */
  function HashCode(c: RemoteContainer, locationHash: Location -> int): (h: int)
    ensures forall d :: Equals(c, d) ==> h == locationHash(d.location)
  {
    locationHash(GetLocation(c))
  }

  /** Two containers at the same location are equal whatever their names. */
  lemma EqualsIgnoresName(a: RemoteContainer, b: RemoteContainer)
    requires a.location == b.location && a.name != b.name
    ensures Equals(a, b) && a != b
  {
  }

  /** Container equality is an equivalence relation. */
  lemma EqualsIsEquivalence(a: RemoteContainer, b: RemoteContainer, c: RemoteContainer)
    ensures Equals(a, a)
    ensures Equals(a, b) ==> Equals(b, a)
    ensures Equals(a, b) && Equals(b, c) ==> Equals(a, c)
  {
  }

  // ---------------------------------------------------------------------------
  // Sets of containers (a HashSet under location equality)
  // ---------------------------------------------------------------------------

  /** A set of containers: each location kept maps to the name of its container. */
  type ContainerSet = map<Location, Option<string>>

  /** The container a set keeps at location `l`. */
  function At(s: ContainerSet, l: Location): RemoteContainer
    requires l in s
  {
    RemoteContainer(s[l], l)
  }

  /** `set.contains(c)`: some kept container equals `c`. */
  predicate Contains(s: ContainerSet, c: RemoteContainer) {
    c.location in s
  }

  /** `set.add(c)` as a new value: an equal container already present is kept. */
  function Add(s: ContainerSet, c: RemoteContainer): (r: ContainerSet)
    ensures Contains(r, c)
    ensures Contains(s, c) ==> r == s
    ensures !Contains(s, c) ==> r.Keys == s.Keys + {c.location} && |r| == |s| + 1 && At(r, c.location) == c
    ensures forall l :: l in s ==> l in r && r[l] == s[l]
  {
    if c.location in s then s else s[c.location := c.name]
  }

  /** The kept containers that satisfy `p` (`stream().filter(p)`). */
  function Filter(s: ContainerSet, p: RemoteContainer -> bool): (r: ContainerSet)
    ensures forall l :: l in r <==> l in s && p(At(s, l))
    ensures forall l :: l in r ==> r[l] == s[l]
  {
    map l | l in s && p(At(s, l)) :: s[l]
  }

  /** `set.removeIf(p)` as a new value: the containers that do not satisfy `p`. */
  function RemoveIf(s: ContainerSet, p: RemoteContainer -> bool): (r: ContainerSet)
    ensures forall l :: l in r <==> l in s && !p(At(s, l))
    ensures forall l :: l in r ==> r[l] == s[l]
  {
    map l | l in s && !p(At(s, l)) :: s[l]
  }

  /** Whether some kept container satisfies `p`. */
  predicate AnyMatch(s: ContainerSet, p: RemoteContainer -> bool) {
    exists l :: l in s && p(At(s, l))
  }

  /** `removeIf` reports a change exactly when some container matched. */
  lemma RemoveIfChanges(s: ContainerSet, p: RemoteContainer -> bool)
    ensures RemoveIf(s, p) != s <==> AnyMatch(s, p)
    ensures RemoveIf(s, p) + Filter(s, p) == s
  {
    if AnyMatch(s, p) {
      var l :| l in s && p(At(s, l));
      assert l !in RemoveIf(s, p);
    }
  }
}
