/**
 * `ContainerManager`: the interface callers use. Its three default operations do no work of
 * their own; each builds a predicate over containers and hands it to the abstract
 * `unregisterUserContainer(user, predicate)` or `getUserContainer(user, predicate)`. The
 * predicates are modelled here, with what they select in a user's set; the operations
 * themselves, on the one implementation, are in `BackedContainerManager`.
 */
module ContainerManager {
  import opened Wrappers
  import opened RemoteContainers
  import opened Backend

  /**
   * The predicate of `unregisterUserContainer(user, container)`: a container equal to the
   * given one, that is, at the same location whatever either name is.
   */
  function ByContainer(c: RemoteContainer): (p: ContainerPredicate)
    ensures forall d: RemoteContainer :: p(d) <==> d.location == c.location
  {
    (d: RemoteContainer) => Equals(d, c)
  }

  /**
   * The predicate of `getUserContainer(user, name)`: the container has a name and it is
   * `name`; an unnamed container never matches.
   */
  function ByName(name: string): (p: ContainerPredicate)
    ensures forall d: RemoteContainer :: p(d) <==> d.name == Some(name)
    ensures forall l: Location :: !p(CreateChestAt(l))
  {
    (d: RemoteContainer) => match GetName(d) case Some(n) => n == name case None => false
  }

  /** The predicate of `getUserContainer(user, location)`: the container is at `location`. */
  function ByLocation(location: Location): (p: ContainerPredicate)
    ensures forall d: RemoteContainer :: p(d) <==> d.location == location
  {
    (d: RemoteContainer) => GetLocation(d) == location
  }

  /**
   * In a user's set, "equal to `c`" selects at most the one container at `c`'s location:
   * something matches exactly when the set contains `c`, and removing the matches removes
   * just that location.
   */
  lemma ByContainerSelectsOne(s: ContainerSet, c: RemoteContainer)
    ensures AnyMatch(s, ByContainer(c)) <==> Contains(s, c)
    ensures RemoveIf(s, ByContainer(c)) == s - {c.location}
  {
    if Contains(s, c) {
      assert ByContainer(c)(At(s, c.location));
    }
  }

  /** Two containers at the same location select the same containers, names aside. */
  lemma ByContainerIgnoresName(c: RemoteContainer, name: Option<string>, d: RemoteContainer)
    ensures ByContainer(c)(d) == ByContainer(RemoteContainer(name, c.location))(d)
  {
  }

  /** "At `location`" selects the set's entry at that location and nothing else. */
  lemma ByLocationSelectsOne(s: ContainerSet, location: Location)
    ensures AnyMatch(s, ByLocation(location)) <==> location in s
    ensures Filter(s, ByLocation(location)) == if location in s then map[location := s[location]] else map[]
  {
    if location in s {
      assert ByLocation(location)(At(s, location));
    }
  }

  /** "Named `name`" selects exactly the entries whose kept name is `name`. */
  lemma ByNameSelects(s: ContainerSet, name: string)
    ensures AnyMatch(s, ByName(name)) <==> exists l :: l in s && s[l] == Some(name)
    ensures forall l :: l in Filter(s, ByName(name)) <==> l in s && s[l] == Some(name)
  {
    if exists l :: l in s && s[l] == Some(name) {
      var l :| l in s && s[l] == Some(name);
      assert ByName(name)(At(s, l));
    }
  }
}
