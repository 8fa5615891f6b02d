# SpongeRemoteChests registry, modelled in Dafny

SpongeRemoteChests lets a player register containers (chests) and open them remotely.
The core is a registry from owners to their sets of containers, behind one storage
contract (`Backend`) with two implementations:

- `ConfigBackend` keeps an in-memory map, changed in place, and hands out a live
  read-only view of it (`MapSetView`).
- `SqlBackend` keeps a database table and rebuilds the owner's set from its rows on
  every query.

`BackedContainerManager` is the facade that plugin code uses, through the
`ContainerManager` interface. It forwards the mutations and short-circuits the queries
on `hasAnyContainer`.

The model, file by file:

- `containers.dfy` (module `RemoteContainers`): the container value, which keeps an
  optional name and a location. Equality and hash use the location only. A
  `HashSet<RemoteContainer>` is a map from location to the name of the container kept
  there, so `add` keeps the first container at a location.
- `backend.dfy` (module `Backend`): the six operations as a record `Backend<S>` of
  functions over the backend's state. The documentation comments of the abstract class
  become predicates at a state (`HasAnyHonest`, `RegisterHonest`, ...).
- `map_set_view.dfy` (module `MapSetView`): classes over a shared backing map object.
  Reads see the backing map's current contents. Every mutator returns the exception it
  throws and has no `modifies` clause, so it cannot change anything. The backing map
  counts its structural changes (`modCount`, as `HashMap` does), and the iterators fail
  fast on it.
- `config_backend.dfy` (module `ConfigBackend`): a class whose methods change the
  shared map in place. Each method is proved equal to a function of the old contents,
  and the lemmas state what those functions promise. Small scenario methods show what
  a holder of an earlier view, key set, user set or iterator sees after a change.
- `sql_rows.dfy` (module `SqlRows`): the table as a sequence of rows. It defines the
  meaning of the select and delete statements, and the specification of the row loop
  that builds the registry (`Collect`).
- `sql_backend.dfy` (module `SqlBackend`): the data source is an object holding the
  table; each SQL failure is a parameter. The query loop and the transactional delete
  loop are methods proved against functions of the table.
- `container_manager.dfy` (module `ContainerManager`): the predicates built by the
  interface's default operations.
- `backed_container_manager.dfy` (module `BackedContainerManager`): the facade over any
  backend, its default operations, and the transparency of the short-circuit over each
  backend.

Futures are modelled as already-completed values. A user and a world are identified by
their uuid. A location is a world uuid plus integer block coordinates.

## Model

| member | source | states |
|---|---|---|
| RemoteContainers.CreateChest | src/main/java/com/github/projectsandstone/spongeremotechests/api/factory/RemoteContainerFactory.java:42-44 | the container reports exactly the given name (absent for null) and location |
| RemoteContainers.CreateChestAt | src/main/java/com/github/projectsandstone/spongeremotechests/api/factory/RemoteContainerFactory.java:46-48 | the container is unnamed and at exactly the given location |
| RemoteContainers.EqualsIgnoresName | src/main/java/com/github/projectsandstone/spongeremotechests/api/factory/RemoteContainerFactory.java:77-84 | containers at the same location are equal even when their names differ |
| RemoteContainers.GetName | src/main/java/com/github/projectsandstone/spongeremotechests/api/factory/RemoteContainerFactory.java:62-65 | `getName` gives the name (absent for null), which together with the location is all the container holds |
| RemoteContainers.GetLocation | src/main/java/com/github/projectsandstone/spongeremotechests/api/factory/RemoteContainerFactory.java:67-70 | `getLocation` gives the location, which together with the name is all the container holds |
| RemoteContainers.Equals | src/main/java/com/github/projectsandstone/spongeremotechests/api/factory/RemoteContainerFactory.java:77-84 | two containers are equal exactly when they differ at most in their names |
| RemoteContainers.HashCode | src/main/java/com/github/projectsandstone/spongeremotechests/api/factory/RemoteContainerFactory.java:72-75 | every container equal to c has c's hash code, for every location hash |
| RemoteContainers.EqualsIsEquivalence | src/main/java/com/github/projectsandstone/spongeremotechests/api/factory/RemoteContainerFactory.java:77-84 | container equality is reflexive, symmetric and transitive |
| RemoteContainers.Add | src/main/java/com/github/projectsandstone/spongeremotechests/manager/ConfigBackend.java:116 | `add` keeps an equal container already present; otherwise the set gains exactly that container (one more) and keeps the others |
| RemoteContainers.Filter | src/main/java/com/github/projectsandstone/spongeremotechests/manager/BackedContainerManager.java:74-75 | `filter(p)` keeps exactly the containers satisfying p, with their names |
| RemoteContainers.RemoveIf | src/main/java/com/github/projectsandstone/spongeremotechests/manager/ConfigBackend.java:127 | `removeIf(p)` keeps exactly the containers not satisfying p, with their names |
| RemoteContainers.RemoveIfChanges | src/main/java/com/github/projectsandstone/spongeremotechests/manager/ConfigBackend.java:127 | `removeIf` reports a change iff some container matched; the kept and removed parts make up the old set |
| Backend.HonestHasAnyGivesPremise | src/main/java/com/github/projectsandstone/spongeremotechests/manager/Backend.java:43-51 | a backend keeping the `hasAnyContainer` promise also keeps "false means no containers" |
| Backend.HonestRegisterGrowsByOne | src/main/java/com/github/projectsandstone/spongeremotechests/manager/Backend.java:83-92 | registering an absent container through a backend keeping the `register` promise adds exactly one container |
| Backend.HonestUnregisterLeavesNoMatch | src/main/java/com/github/projectsandstone/spongeremotechests/manager/Backend.java:94-105 | after `unregister(user, p)` through a backend keeping its promise, no container of the user matches p |
| MapSetView.MapSetView.constructor | src/main/java/com/github/projectsandstone/spongeremotechests/util/MapSetView.java:46-48 | the view keeps a reference to the backing map, not a copy |
| MapSetView.MapSetView.Size | src/main/java/com/github/projectsandstone/spongeremotechests/util/MapSetView.java:50-53 | `size` is the backing map's current size |
| MapSetView.MapSetView.IsEmpty | src/main/java/com/github/projectsandstone/spongeremotechests/util/MapSetView.java:55-58 | `isEmpty` iff the backing map is currently empty |
| MapSetView.SharedMap.Put | src/main/java/com/github/projectsandstone/spongeremotechests/manager/ConfigBackend.java:111-112 | `HashMap.put` of a new key raises `modCount` by one; replacing the value of a present key leaves it |
| MapSetView.MapSetView.ContainsKey | src/main/java/com/github/projectsandstone/spongeremotechests/util/MapSetView.java:60-63 | `containsKey(k)` holds for a current key of the backing map, and then the view is not empty |
| MapSetView.MapSetView.Get | src/main/java/com/github/projectsandstone/spongeremotechests/util/MapSetView.java:70-78 | `get(k)` is absent iff k is not a current key; otherwise it is k's current set |
| MapSetView.MapSetView.KeySet | src/main/java/com/github/projectsandstone/spongeremotechests/util/MapSetView.java:100-104 | `keySet` is a fresh read-only window over the same backing map, not a copy of its keys |
| MapSetView.UnmodKeySet.Contains | src/main/java/com/github/projectsandstone/spongeremotechests/util/MapSetView.java:100-104 | the key set contains a key iff the backing map has it when asked; then the map is not empty |
| MapSetView.UnmodKeySet.Size | src/main/java/com/github/projectsandstone/spongeremotechests/util/MapSetView.java:100-104 | the key set's size is the backing map's current size, zero iff it contains no key |
| MapSetView.MapSetView.Put | src/main/java/com/github/projectsandstone/spongeremotechests/util/MapSetView.java:80-83 | `put` fails with "Unmodifiable map" and can change nothing |
| MapSetView.MapSetView.Remove | src/main/java/com/github/projectsandstone/spongeremotechests/util/MapSetView.java:85-88 | `remove` fails with "Unmodifiable map" and can change nothing |
| MapSetView.MapSetView.PutAll | src/main/java/com/github/projectsandstone/spongeremotechests/util/MapSetView.java:90-93 | `putAll` fails with "Unmodifiable map" and can change nothing |
| MapSetView.MapSetView.Clear | src/main/java/com/github/projectsandstone/spongeremotechests/util/MapSetView.java:95-98 | `clear` fails with "Unmodifiable map" and can change nothing |
| MapSetView.MapSetView.Values | src/main/java/com/github/projectsandstone/spongeremotechests/util/MapSetView.java:106-110 | `values` is a fresh collection over the same backing map |
| MapSetView.MapSetView.EntrySet | src/main/java/com/github/projectsandstone/spongeremotechests/util/MapSetView.java:112-116 | `entrySet` is a fresh set over the same backing map |
| MapSetView.UnmodEntrySet.Size | src/main/java/com/github/projectsandstone/spongeremotechests/util/MapSetView.java:126-129 | the entry set's size is the backing map's current size |
| MapSetView.UnmodEntrySet.IsEmpty | src/main/java/com/github/projectsandstone/spongeremotechests/util/MapSetView.java:131-134 | the entry set is empty iff the backing map is |
| MapSetView.UnmodEntrySet.Iterator | src/main/java/com/github/projectsandstone/spongeremotechests/util/MapSetView.java:141-145 | a fresh iterator over the backing map that has returned no entry yet and remembers the map's `modCount` |
| MapSetView.UnmodEntrySet.ToArray | src/main/java/com/github/projectsandstone/spongeremotechests/util/MapSetView.java:147-154 | the array lists every current entry of the backing map exactly once, each key with its current set |
| MapSetView.UnmodEntrySet.Add | src/main/java/com/github/projectsandstone/spongeremotechests/util/MapSetView.java:165-168 | `add` fails with "Unmodifiable set." and can change nothing |
| MapSetView.UnmodEntrySet.Remove | src/main/java/com/github/projectsandstone/spongeremotechests/util/MapSetView.java:170-173 | `remove` fails with "Unmodifiable set." and can change nothing |
| MapSetView.UnmodEntrySet.AddAll | src/main/java/com/github/projectsandstone/spongeremotechests/util/MapSetView.java:180-183 | `addAll` fails with "Unmodifiable set." and can change nothing |
| MapSetView.UnmodEntrySet.RetainAll | src/main/java/com/github/projectsandstone/spongeremotechests/util/MapSetView.java:185-188 | `retainAll` fails with "Unmodifiable set." and can change nothing |
| MapSetView.UnmodEntrySet.RemoveAll | src/main/java/com/github/projectsandstone/spongeremotechests/util/MapSetView.java:190-193 | `removeAll` fails with "Unmodifiable set." and can change nothing |
| MapSetView.UnmodEntrySet.Clear | src/main/java/com/github/projectsandstone/spongeremotechests/util/MapSetView.java:195-198 | `clear` fails with "Unmodifiable set." and can change nothing |
| MapSetView.UnmodEntrySetIterator.HasNext | src/main/java/com/github/projectsandstone/spongeremotechests/util/MapSetView.java:209-212 | `hasNext` says some key is still to come; unless the map changed structurally, that key is in the map |
| MapSetView.UnmodEntrySetIterator.Next | src/main/java/com/github/projectsandstone/spongeremotechests/util/MapSetView.java:214-218 | `next` throws `ConcurrentModificationException` iff the map changed structurally since the iterator was made, else `NoSuchElementException` iff nothing is left, else returns an entry not returned before with the key's current set |
| MapSetView.UnmodEntrySetIterator.Remove | src/main/java/com/github/projectsandstone/spongeremotechests/util/MapSetView.java:220-223 | the entry iterator's `remove` fails with "Unmodifiable iterator." |
| MapSetView.UnmodValuesColl.Size | src/main/java/com/github/projectsandstone/spongeremotechests/util/MapSetView.java:234-237 | the values collection's size is the backing map's current size |
| MapSetView.UnmodValuesColl.IsEmpty | src/main/java/com/github/projectsandstone/spongeremotechests/util/MapSetView.java:239-242 | the values collection is empty iff the backing map is |
| MapSetView.UnmodValuesColl.Iterator | src/main/java/com/github/projectsandstone/spongeremotechests/util/MapSetView.java:249-253 | a fresh iterator over the backing map's values that has returned none yet and remembers the map's `modCount` |
| MapSetView.UnmodValuesColl.ToArray | src/main/java/com/github/projectsandstone/spongeremotechests/util/MapSetView.java:255-259 | the array lists the current set of every key of the backing map exactly once |
| MapSetView.UnmodValuesColl.Add | src/main/java/com/github/projectsandstone/spongeremotechests/util/MapSetView.java:267-270 | `add` fails with "Unmodifiable collection." and can change nothing |
| MapSetView.UnmodValuesColl.Remove | src/main/java/com/github/projectsandstone/spongeremotechests/util/MapSetView.java:272-275 | `remove` fails with "Unmodifiable collection." and can change nothing |
| MapSetView.UnmodValuesColl.AddAll | src/main/java/com/github/projectsandstone/spongeremotechests/util/MapSetView.java:282-285 | `addAll` fails with "Unmodifiable collection." and can change nothing |
| MapSetView.UnmodValuesColl.RemoveAll | src/main/java/com/github/projectsandstone/spongeremotechests/util/MapSetView.java:287-290 | `removeAll` fails with "Unmodifiable collection." and can change nothing |
| MapSetView.UnmodValuesColl.RetainAll | src/main/java/com/github/projectsandstone/spongeremotechests/util/MapSetView.java:292-295 | `retainAll` fails with "Unmodifiable collection." and can change nothing |
| MapSetView.UnmodValuesColl.Clear | src/main/java/com/github/projectsandstone/spongeremotechests/util/MapSetView.java:297-300 | `clear` fails with "Unmodifiable collection." and can change nothing |
| MapSetView.UnmodIterator.HasNext | src/main/java/com/github/projectsandstone/spongeremotechests/util/MapSetView.java:311-314 | `hasNext` says some value is still to come; unless the map changed structurally, its key is in the map |
| MapSetView.UnmodIterator.Next | src/main/java/com/github/projectsandstone/spongeremotechests/util/MapSetView.java:316-319 | `next` throws `ConcurrentModificationException` iff the map changed structurally, else `NoSuchElementException` iff nothing is left, else returns the current set of a key not visited before |
| MapSetView.UnmodIterator.Remove | src/main/java/com/github/projectsandstone/spongeremotechests/util/MapSetView.java:321-324 | the values iterator's `remove` fails with "Unmodifiable collection." |
| MapSetView.ViewMirrorsBacking | src/main/java/com/github/projectsandstone/spongeremotechests/util/MapSetView.java:44-48 | the view and its key set are live: for every key, what they report is what the backing map holds now |
| ConfigBackend.ConfigBackend.constructor | src/main/java/com/github/projectsandstone/spongeremotechests/manager/ConfigBackend.java:64-79 | the cache holds the loaded registry, and the view is a window on that same map |
| ConfigBackend.ConfigBackend.HasAnyContainer | src/main/java/com/github/projectsandstone/spongeremotechests/manager/ConfigBackend.java:81-87 | as written, `hasAnyContainer` is true exactly when the user has no container |
| ConfigBackend.ConfigBackend.HasAnyContainerIntended | src/main/java/com/github/projectsandstone/spongeremotechests/manager/ConfigBackend.java:81-87 | corrected, it is true exactly when the user has a container: the negation of the code |
| ConfigBackend.ConfigBackend.GetAllContainers | src/main/java/com/github/projectsandstone/spongeremotechests/manager/ConfigBackend.java:89-96 | the shared empty set iff the user is absent, otherwise a live view of the user's own set inside the map; either way it now holds the user's current containers |
| ConfigBackend.ConfigBackend.GetAllContainersSnapshot | src/main/java/com/github/projectsandstone/spongeremotechests/manager/Backend.java:53-60 | corrected: an immutable copy, empty for an absent user, containing c exactly when `isOwner(user, c)` |
| ConfigBackend.ConfigBackend.IsOwner | src/main/java/com/github/projectsandstone/spongeremotechests/manager/ConfigBackend.java:98-101 | `isOwner(user, c)` iff the user's current set contains a container equal to c |
| ConfigBackend.ConfigBackend.GetAllContainersView | src/main/java/com/github/projectsandstone/spongeremotechests/manager/ConfigBackend.java:103-106 | `getAllContainers()` returns the view over the live cache |
| ConfigBackend.ConfigBackend.Register | src/main/java/com/github/projectsandstone/spongeremotechests/manager/ConfigBackend.java:108-119 | the new map and result are `RegisterOutcome` of the old map; `modCount` grows by one iff the user was absent; afterwards the view shows the user's set, which contains c |
| ConfigBackend.ConfigBackend.Unregister | src/main/java/com/github/projectsandstone/spongeremotechests/manager/ConfigBackend.java:121-128 | the new map and result are `UnregisterOutcome` of the old map; `modCount` is unchanged; afterwards the view shows the user's set without the matches |
| ConfigBackend.HandedOutSetChanges | src/main/java/com/github/projectsandstone/spongeremotechests/manager/ConfigBackend.java:95 | a set handed out by `getAllContainers(user)` gains a container registered afterwards, so it is not immutable |
| ConfigBackend.SnapshotStaysPut | src/main/java/com/github/projectsandstone/spongeremotechests/manager/Backend.java:53-60 | a copy handed out by the corrected `getAllContainers(user)` keeps its contents after a later registration, which the backend does show |
| ConfigBackend.IteratorFailsAfterNewOwner | src/main/java/com/github/projectsandstone/spongeremotechests/manager/ConfigBackend.java:111-112 | an entry iterator of the view opened before a registration for a new user throws `ConcurrentModificationException` on `next` |
| ConfigBackend.IteratorSurvivesKnownOwner | src/main/java/com/github/projectsandstone/spongeremotechests/manager/ConfigBackend.java:113-127 | after `register` and `unregister` for a present user, an earlier iterator still returns an entry, with the user's current set |
| ConfigBackend.KeySetSeesNewOwner | src/main/java/com/github/projectsandstone/spongeremotechests/util/MapSetView.java:100-104 | a key set taken before a registration for a new user contains that user afterwards |
| ConfigBackend.RegisterAbsentOwner | src/main/java/com/github/projectsandstone/spongeremotechests/manager/ConfigBackend.java:111-118 | for an absent owner, `register` creates the owner's set holding just c and returns true |
| ConfigBackend.RegisterDuplicate | src/main/java/com/github/projectsandstone/spongeremotechests/manager/ConfigBackend.java:113-114 | registering a container equal to a registered one returns false and changes nothing |
| ConfigBackend.RegisterAddsOne | src/main/java/com/github/projectsandstone/spongeremotechests/manager/ConfigBackend.java:116-118 | otherwise `register` returns true, the set gains c (one more container), and other owners are unchanged |
| ConfigBackend.RegisterTwice | src/main/java/com/github/projectsandstone/spongeremotechests/manager/ConfigBackend.java:108-119 | registering at the same location twice gives true, then false, with one container added in all |
| ConfigBackend.UnregisterAbsentOwner | src/main/java/com/github/projectsandstone/spongeremotechests/manager/ConfigBackend.java:124-125 | `unregister` for an absent owner returns false and changes nothing |
| ConfigBackend.UnregisterRemovesMatches | src/main/java/com/github/projectsandstone/spongeremotechests/manager/ConfigBackend.java:127 | exactly the non-matching containers stay; true iff something matched; the owner's key stays; other owners are unchanged |
| ConfigBackend.UnregisterScenario | src/main/java/com/github/projectsandstone/spongeremotechests/manager/ConfigBackend.java:127 | with three containers and a predicate matching two, `unregister` returns true and leaves the third |
| ConfigBackend.Ops | src/main/java/com/github/projectsandstone/spongeremotechests/manager/ConfigBackend.java:81-128 | the backend as written over the map's contents: `register` always leaves the user's key in the map, `unregister` never adds or drops a key |
| ConfigBackend.OpsIntended | src/main/java/com/github/projectsandstone/spongeremotechests/manager/ConfigBackend.java:81-87 | the corrected backend differs from the code only in `hasAnyContainer` |
| ConfigBackend.ConfigQueriesHonest | src/main/java/com/github/projectsandstone/spongeremotechests/manager/ConfigBackend.java:98-106 | `isOwner` and `getAllContainers()` agree with `getAllContainers(user)` in every state |
| ConfigBackend.ConfigRegisterHonest | src/main/java/com/github/projectsandstone/spongeremotechests/manager/ConfigBackend.java:108-119 | `register` keeps the documented contract, and returns false only for a duplicate |
| ConfigBackend.ConfigUnregisterHonest | src/main/java/com/github/projectsandstone/spongeremotechests/manager/ConfigBackend.java:121-128 | `unregister` keeps the documented contract in every state |
| ConfigBackend.HasAnyAsWrittenInverted | src/main/java/com/github/projectsandstone/spongeremotechests/manager/ConfigBackend.java:83-86 | as written, `hasAnyContainer` is true iff the user's set is empty, which breaks the contract of src/main/java/com/github/projectsandstone/spongeremotechests/manager/Backend.java:43-51 for every owner |
| ConfigBackend.HasAnyIntendedHonest | src/main/java/com/github/projectsandstone/spongeremotechests/manager/ConfigBackend.java:83-86 | corrected, `hasAnyContainer` keeps its contract and the facade's premise in every state |
| ConfigBackend.EmptyLikeAbsent | src/main/java/com/github/projectsandstone/spongeremotechests/manager/ConfigBackend.java:83-95 | an owner with an empty set is indistinguishable from an unknown owner |
| SqlRows.SelectByOwner | src/main/java/com/github/projectsandstone/spongeremotechests/manager/SqlBackend.java:104-112 | the owner query returns only rows of that owner |
| SqlRows.DeleteAt | src/main/java/com/github/projectsandstone/spongeremotechests/manager/SqlBackend.java:192-208 | the deletes never add rows |
| SqlRows.AddRow | src/main/java/com/github/projectsandstone/spongeremotechests/manager/SqlBackend.java:247-267 | one row-loop step: an unresolvable row changes nothing; a resolvable row's owner is then a key whose set contains the row's container; other owners' entries stay |
| SqlRows.Collect | src/main/java/com/github/projectsandstone/spongeremotechests/manager/SqlBackend.java:238-268 | the row loop's map has an owner key only for a resolvable row of that owner |
| SqlRows.CollectAppend | src/main/java/com/github/projectsandstone/spongeremotechests/manager/SqlBackend.java:238-268 | one more row turns the loop's map into the map with that row's step applied |
| SqlRows.CollectPrefixStep | src/main/java/com/github/projectsandstone/spongeremotechests/manager/SqlBackend.java:238-268 | the loop's map after i + 1 rows is one step after i rows |
| SqlRows.AddRowOwnerSet | src/main/java/com/github/projectsandstone/spongeremotechests/manager/SqlBackend.java:247-267 | one loop step adds the row's container to its owner's set when the world and user resolve, and changes nothing else |
| SqlRows.CollectMembership | src/main/java/com/github/projectsandstone/spongeremotechests/manager/SqlBackend.java:238-268 | a location is in an owner's set iff some resolvable row of that owner lies there |
| SqlRows.CollectSetsNonEmpty | src/main/java/com/github/projectsandstone/spongeremotechests/manager/SqlBackend.java:261-267 | every owner in the loop's map has a non-empty set |
| SqlRows.SkipUnresolvable | src/main/java/com/github/projectsandstone/spongeremotechests/manager/SqlBackend.java:247-259 | a row whose world or owner does not resolve changes nothing |
| SqlRows.SameLocationCollapses | src/main/java/com/github/projectsandstone/spongeremotechests/manager/SqlBackend.java:266-267 | a row of an owner at a location the owner already has changes nothing |
| SqlRows.SelectAppend | src/main/java/com/github/projectsandstone/spongeremotechests/manager/SqlBackend.java:104-112 | the owner query over one more row gains that row iff it is the owner's |
| SqlRows.DeleteAppend | src/main/java/com/github/projectsandstone/spongeremotechests/manager/SqlBackend.java:192-208 | the deletes over one more row keep it iff it is not the owner's at a deleted location |
| SqlRows.SelectNonEmpty | src/main/java/com/github/projectsandstone/spongeremotechests/manager/SqlBackend.java:104-112 | the owner query returns a row iff the table has a row of that owner, resolvable or not |
| SqlRows.SelectKeepsOwnerSet | src/main/java/com/github/projectsandstone/spongeremotechests/manager/SqlBackend.java:121-124 | the loop over the owner's rows gives the owner the same set as the loop over all rows |
| SqlRows.SelectCollectsOnlyOwner | src/main/java/com/github/projectsandstone/spongeremotechests/manager/SqlBackend.java:224-268 | `query(user)` has no key other than the user |
| SqlRows.Without | src/main/java/com/github/projectsandstone/spongeremotechests/manager/SqlBackend.java:192-208 | removing locations keeps exactly the other locations, with their names |
| SqlRows.WithoutAddKept | src/main/java/com/github/projectsandstone/spongeremotechests/manager/SqlBackend.java:192-208 | adding a container outside the deleted locations commutes with removing them |
| SqlRows.WithoutAddDropped | src/main/java/com/github/projectsandstone/spongeremotechests/manager/SqlBackend.java:192-208 | adding a container at a deleted location is undone by the removal |
| SqlRows.AfterDeleteDoomedStep | src/main/java/com/github/projectsandstone/spongeremotechests/manager/SqlBackend.java:192-208 | a deleted row contributes nothing to the owner's set after the deletes |
| SqlRows.AfterDeleteKeptStep | src/main/java/com/github/projectsandstone/spongeremotechests/manager/SqlBackend.java:192-208 | a kept row contributes the same after the deletes as before |
| SqlRows.CollectAfterDelete | src/main/java/com/github/projectsandstone/spongeremotechests/manager/SqlBackend.java:192-208 | after deleting the user's rows at some locations, the user's set loses exactly those locations and other owners' sets are unchanged |
| SqlRows.DeleteKeeps | src/main/java/com/github/projectsandstone/spongeremotechests/manager/SqlBackend.java:199-205 | a row that is not the user's at a deleted location survives the deletes |
| SqlRows.DeleteTwice | src/main/java/com/github/projectsandstone/spongeremotechests/manager/SqlBackend.java:193-208 | one more delete after earlier ones equals deleting at all the locations at once |
| SqlRows.AffectsAfterDelete | src/main/java/com/github/projectsandstone/spongeremotechests/manager/SqlBackend.java:205 | a delete at a new location affects a row after the earlier deletes iff it would have before them |
| SqlRows.AffectsAppend | src/main/java/com/github/projectsandstone/spongeremotechests/manager/SqlBackend.java:205 | a delete affects a row of a longer table iff it affects one of the shorter table or the new row |
| SqlRows.DeleteShrinks | src/main/java/com/github/projectsandstone/spongeremotechests/manager/SqlBackend.java:205 | a delete reports an affected row iff some row of the user is at one of its locations |
| SqlRows.DeleteNothing | src/main/java/com/github/projectsandstone/spongeremotechests/manager/SqlBackend.java:190 | before any delete, the table is untouched |
| SqlRows.DeleteStep | src/main/java/com/github/projectsandstone/spongeremotechests/manager/SqlBackend.java:199-205 | one loop step: the rows left and the accumulated `any` are those of deleting at one more location |
| SqlBackend.NextId | src/main/java/com/github/projectsandstone/spongeremotechests/manager/SqlBackend.java:154-173 | the corrected insert's new row id exceeds every id present |
| SqlBackend.RowStep | src/main/java/com/github/projectsandstone/spongeremotechests/manager/SqlBackend.java:247-267 | one iteration of the row loop: the map becomes `AddRow` of the old map (skip an unresolvable row, else add its container to its owner's set) |
| SqlBackend.SqlBackend.Query | src/main/java/com/github/projectsandstone/spongeremotechests/manager/SqlBackend.java:224-277 | the loop builds `Collect` of the selected rows, or the empty map on a failure; every owner's set is non-empty |
| SqlBackend.SqlBackend.HasAnyContainer | src/main/java/com/github/projectsandstone/spongeremotechests/manager/SqlBackend.java:103-119 | true iff the query does not fail and the table has a row of the user, even an unresolvable one |
| SqlBackend.SqlBackend.GetAllContainers | src/main/java/com/github/projectsandstone/spongeremotechests/manager/SqlBackend.java:121-124 | the user's set in `query(user)`, or the empty set |
| SqlBackend.SqlBackend.IsOwner | src/main/java/com/github/projectsandstone/spongeremotechests/manager/SqlBackend.java:126-129 | the user is a key of `query(user)` and its set contains an equal container |
| SqlBackend.SqlBackend.GetAllContainersView | src/main/java/com/github/projectsandstone/spongeremotechests/manager/SqlBackend.java:131-134 | `getAllContainers()` is the map of all resolvable rows, with only non-empty sets |
| SqlBackend.SqlBackend.Register | src/main/java/com/github/projectsandstone/spongeremotechests/manager/SqlBackend.java:136-183 | false on a failure or when a row of the user is at the location; otherwise the insert branch's reported result, and the table never changes |
| SqlBackend.SqlBackend.RegisterIntended | src/main/java/com/github/projectsandstone/spongeremotechests/manager/SqlBackend.java:136-183 | corrected: one new row for the user at the location when none is there and the insert succeeds |
| SqlBackend.SqlBackend.Unregister | src/main/java/com/github/projectsandstone/spongeremotechests/manager/SqlBackend.java:185-222 | fetches the user's set, then runs the transaction over its matching containers: the new table and result are `UnregisterOutcome` of the old table |
| SqlBackend.DeleteOne | src/main/java/com/github/projectsandstone/spongeremotechests/manager/SqlBackend.java:199-205 | one iteration of the delete loop: the pending table and `any` become those after the deletes at one more location |
| SqlBackend.SqlBackend.DeleteMatching | src/main/java/com/github/projectsandstone/spongeremotechests/manager/SqlBackend.java:188-220 | one delete per matching container in one transaction: either every delete and the commit succeed, and the result is whether any row went, or the table is unchanged and the result is false |
| SqlBackend.Ops | src/main/java/com/github/projectsandstone/spongeremotechests/manager/SqlBackend.java:103-222 | the backend as written over the table: `register` leaves the table as it was, and `unregister` never makes it longer |
| SqlBackend.OpsIntended | src/main/java/com/github/projectsandstone/spongeremotechests/manager/SqlBackend.java:154-173 | the corrected backend differs from the code only in `register` |
| SqlBackend.GetAllMembership | src/main/java/com/github/projectsandstone/spongeremotechests/manager/SqlBackend.java:121-124 | a location is in the user's set iff a resolvable row of the user lies there |
| SqlBackend.UnresolvedRowInvisible | src/main/java/com/github/projectsandstone/spongeremotechests/manager/SqlBackend.java:247-252 | a row in an unloaded world changes neither `getAllContainers` nor `isOwner` |
| SqlBackend.HasAnyFalseMeansNoneSql | src/main/java/com/github/projectsandstone/spongeremotechests/manager/SqlBackend.java:104-118 | when the owner query does not fail, `hasAnyContainer` false means the user has no container |
| SqlBackend.HasAnyOverReports | src/main/java/com/github/projectsandstone/spongeremotechests/manager/SqlBackend.java:104-118 | `hasAnyContainer` can be true while the user's set is empty (a row in an unloaded world), so it breaks src/main/java/com/github/projectsandstone/spongeremotechests/manager/Backend.java:43-51 |
| SqlBackend.FailuresAreNeutral | src/main/java/com/github/projectsandstone/spongeremotechests/manager/SqlBackend.java:113-117 | a failure gives the neutral result: an empty set and map from the queries, false, and the table unchanged |
| SqlBackend.SqlQueriesHonest | src/main/java/com/github/projectsandstone/spongeremotechests/manager/SqlBackend.java:121-134 | `isOwner` and `getAllContainers()` agree with `getAllContainers(user)`, failure or not |
| SqlBackend.AllContainersNonEmpty | src/main/java/com/github/projectsandstone/spongeremotechests/manager/SqlBackend.java:261-267 | every owner key of `getAllContainers()` has a non-empty set |
| SqlBackend.FetchedHasRow | src/main/java/com/github/projectsandstone/spongeremotechests/manager/SqlBackend.java:121-124 | every container of the user is backed by a row of the user at its location |
| SqlBackend.SqlUnregisterHonest | src/main/java/com/github/projectsandstone/spongeremotechests/manager/SqlBackend.java:185-222 | without failures, `unregister` keeps the documented contract: exactly the matches go, true iff one matched, other owners unchanged |
| SqlBackend.UnregisterAllOrNothing | src/main/java/com/github/projectsandstone/spongeremotechests/manager/SqlBackend.java:188-220 | a failing delete of a matching container leaves the table unchanged and gives false |
| SqlBackend.UnregisterKeepsUnresolvedRows | src/main/java/com/github/projectsandstone/spongeremotechests/manager/SqlBackend.java:187-208 | `unregister` never deletes a row in an unloaded world |
| SqlBackend.RegisterAsWrittenNeverAdds | src/main/java/com/github/projectsandstone/spongeremotechests/manager/SqlBackend.java:154-173 | as written, whenever `register` of a new container reports true the table is unchanged, breaking the contract |
| SqlBackend.RegisterAsWrittenLosesContainer | src/main/java/com/github/projectsandstone/spongeremotechests/manager/SqlBackend.java:154-173 | as written, a successful `register` on an empty table still leaves the user not owning the container |
| SqlBackend.GetAllAppend | src/main/java/com/github/projectsandstone/spongeremotechests/manager/SqlBackend.java:247-267 | appending a row changes only its owner's set, and only when the row resolves |
| SqlBackend.RegisterIntendedHonest | src/main/java/com/github/projectsandstone/spongeremotechests/manager/SqlBackend.java:136-183 | corrected, `register` keeps the documented contract and fails only for a duplicate, when the world and user resolve and nothing fails |
| ContainerManager.ByContainer | src/main/java/com/github/projectsandstone/spongeremotechests/api/manager/ContainerManager.java:130-132 | the predicate holds exactly for containers at the given container's location, whatever the names |
| ContainerManager.ByName | src/main/java/com/github/projectsandstone/spongeremotechests/api/manager/ContainerManager.java:142-144 | the predicate holds exactly for containers named `name`; unnamed containers never match |
| ContainerManager.ByLocation | src/main/java/com/github/projectsandstone/spongeremotechests/api/manager/ContainerManager.java:154-156 | the predicate holds exactly for containers at the location |
| ContainerManager.ByContainerSelectsOne | src/main/java/com/github/projectsandstone/spongeremotechests/api/manager/ContainerManager.java:130-132 | in a user's set it matches iff the set contains the container, and removing the matches removes just that location |
| ContainerManager.ByContainerIgnoresName | src/main/java/com/github/projectsandstone/spongeremotechests/api/manager/ContainerManager.java:130-132 | unregistering by a container does not depend on its name |
| ContainerManager.ByLocationSelectsOne | src/main/java/com/github/projectsandstone/spongeremotechests/api/manager/ContainerManager.java:154-156 | in a user's set it matches iff the location is there, and selects just that entry |
| ContainerManager.ByNameSelects | src/main/java/com/github/projectsandstone/spongeremotechests/api/manager/ContainerManager.java:142-144 | in a user's set it matches exactly the entries with that name |
| BackedContainerManager.RegisterUserContainer | src/main/java/com/github/projectsandstone/spongeremotechests/manager/BackedContainerManager.java:57-60 | `registerUserContainer` returns exactly the backend's result and state |
| BackedContainerManager.UnregisterUserContainer | src/main/java/com/github/projectsandstone/spongeremotechests/manager/BackedContainerManager.java:62-65 | `unregisterUserContainer` returns exactly the backend's result and state |
| BackedContainerManager.IsOwner | src/main/java/com/github/projectsandstone/spongeremotechests/manager/BackedContainerManager.java:94-98 | `isOwner` is the backend's answer |
| BackedContainerManager.GetAllContainers | src/main/java/com/github/projectsandstone/spongeremotechests/manager/BackedContainerManager.java:112-115 | `getAllContainers()` is the backend's map |
| BackedContainerManager.GetUserContainersMatching | src/main/java/com/github/projectsandstone/spongeremotechests/manager/BackedContainerManager.java:80-92 | {} when `hasAnyContainer` is false; otherwise exactly the user's containers satisfying p |
| BackedContainerManager.GetUserContainers | src/main/java/com/github/projectsandstone/spongeremotechests/manager/BackedContainerManager.java:100-110 | {} when `hasAnyContainer` is false; otherwise the backend's set for the user |
| BackedContainerManager.GetUserContainer | src/main/java/com/github/projectsandstone/spongeremotechests/manager/BackedContainerManager.java:66-78 | empty iff `hasAnyContainer` is false or nothing matches; a result is a container of the user satisfying p |
| BackedContainerManager.UnregisterContainer | src/main/java/com/github/projectsandstone/spongeremotechests/api/manager/ContainerManager.java:130-132 | unregistering a container is unregistering with "equals that container" |
| BackedContainerManager.GetUserContainerNamed | src/main/java/com/github/projectsandstone/spongeremotechests/api/manager/ContainerManager.java:142-144 | empty iff `hasAnyContainer` is false or the user has no container of that name; a result carries that name |
| BackedContainerManager.GetUserContainerAt | src/main/java/com/github/projectsandstone/spongeremotechests/api/manager/ContainerManager.java:154-156 | empty iff `hasAnyContainer` is false or the user has nothing there; a result is the user's container there |
| BackedContainerManager.ManagerMutationsHonest | src/main/java/com/github/projectsandstone/spongeremotechests/api/manager/ContainerManager.java:51-69 | over a backend keeping its contract, registering a registered container and unregistering with no match both give false |
| BackedContainerManager.UnregisterContainerRemovesIt | src/main/java/com/github/projectsandstone/spongeremotechests/api/manager/ContainerManager.java:123-132 | over an honest backend, unregistering a container removes the user's container at its location and reports whether there was one |
| BackedContainerManager.ShortCircuitTransparent | src/main/java/com/github/projectsandstone/spongeremotechests/manager/BackedContainerManager.java:66-110 | when "hasAny false" means "no containers", every query equals the unconditional fetch-then-filter |
| BackedContainerManager.ShortCircuitHides | src/main/java/com/github/projectsandstone/spongeremotechests/manager/BackedContainerManager.java:66-110 | without that premise a backend saying false hides the user's containers from the queries |
| BackedContainerManager.ConfigManagerFindsNothing | src/main/java/com/github/projectsandstone/spongeremotechests/manager/ConfigBackend.java:83-86 | over `ConfigBackend` as written, the user queries never find anything |
| BackedContainerManager.ConfigIntendedManagerTransparent | src/main/java/com/github/projectsandstone/spongeremotechests/manager/ConfigBackend.java:83-86 | over the corrected `ConfigBackend`, the queries return the user's set, filtered |
| BackedContainerManager.SqlManagerTransparent | src/main/java/com/github/projectsandstone/spongeremotechests/manager/SqlBackend.java:104-118 | over `SqlBackend`, when its owner query does not fail, the queries return the user's set, filtered |

## Left out

- Futures, `supplyAsync` and threads: every operation completes at once. The unsynchronised `HashMap` of `ConfigBackend` under concurrent access is not modelled.
- Logging and `printStackTrace`: they have no effect on results.
- Plugin start-up, reload and configuration loading and saving: they are not part of this model. `ConfigBackend`'s constructor takes the loaded registry as a value. The configuration I/O errors it rethrows are not modelled.
- The JDBC connection, statements and result sets. The SQL resource files are not part of this model. Their meaning is defined in `SqlRows` (select by owner; select or delete by owner, world and x, y, z). Each point where a `SQLException` can be thrown is a fault parameter (`SqlBackend.Outcomes`).
- The rollback of an uncommitted transaction when the connection closes is taken as given.
- World and user lookups in the server are the parameter `Env`. A user is identified by their uuid.
- A malformed uuid string in a row (`UUID.fromString` throwing) is not modelled: rows hold uuids.
- Sponge `Location` objects are a world uuid with integer block coordinates. The location hash is a parameter. Java's 32-bit `int` coordinates are unbounded integers.
- `equals` with an argument that is not a container is not modelled (its type excludes it).
- MapSetView.MapSetView.Get: the set it returns (`Collections.unmodifiableSet` of the live inner set) is a value, so a reader holding it does not see later changes to that inner set; the same holds for the sets inside the entries and values handed out by the entry set, the values collection and their iterators. The view itself, its key set and `ConfigBackend.getAllContainers(user)` are live.
- The mutators of the key set (`Collections.unmodifiableSet`, a library class) are not modelled.
- `containsValue`, `contains` and `containsAll` on the view, its entry set and its values collection are not modelled: they depend on Java's collection equality.
- `toArray(T[])` of the entry set and the values collection is not modelled: it only hands back the caller's array.
- Iterators: the iteration order of a hash map is a nondeterministic choice. A structural change of the map (a new key) is detected through `modCount`; a change that adds a key and drops it again also raises `modCount` in `HashMap`, but no operation of this core drops a key.
- SqlBackend.SqlBackend.Register: the value its insert branch reports is a parameter, because the code runs an update on a query statement and the driver's answer to that is unknown.
- BackedContainerManager.GetUserContainer: `findFirst` over a hash set is modelled as "some matching container", because the set's order is not modelled.
- The documentation of `getUserContainer(user, name)` and `getUserContainer(user, location)` at src/main/java/com/github/projectsandstone/spongeremotechests/api/manager/ContainerManager.java:134-151 describes removal. These are queries, so those comments are not used as contracts.

## Findings

| source | as written | input that shows it | evidently intended | confidence | as-written member | corrected member |
|---|---|---|---|---|---|---|
| src/main/java/com/github/projectsandstone/spongeremotechests/manager/ConfigBackend.java:89-96 | `getAllContainers(user)` returns `Collections.unmodifiableSet` of the user's own set inside the map, a live view | `getAllContainers(user)`, then `register(user, c)` for a new container: the set handed out before now contains c | an immutable set of the user's containers, as documented at src/main/java/com/github/projectsandstone/spongeremotechests/manager/Backend.java:53-58 | medium, not executed | ConfigBackend.HandedOutSetChanges | ConfigBackend.SnapshotStaysPut |
| src/main/java/com/github/projectsandstone/spongeremotechests/manager/ConfigBackend.java:83-86 | `hasAnyContainer` returns true when the user is absent or has an empty set | a user with one registered container: `hasAnyContainer` is false, so the facade's `getUserContainers(user)` returns {} | true exactly when the user has at least one container, as documented at src/main/java/com/github/projectsandstone/spongeremotechests/manager/Backend.java:43-51 | high, not executed | ConfigBackend.HasAnyAsWrittenInverted | ConfigBackend.HasAnyIntendedHonest |
| src/main/java/com/github/projectsandstone/spongeremotechests/manager/SqlBackend.java:154-173 | the insert branch binds parameters 2-6 on the SELECT statement and runs `executeUpdate` on it; the INSERT statement gets only parameter 1 and is never run | `register(user, c)` for a container not yet registered: the table is unchanged, so if the update reports success the result is true while `isOwner(user, c)` stays false | bind every parameter on the INSERT statement and execute it, adding one row | high, not executed | SqlBackend.RegisterAsWrittenNeverAdds | SqlBackend.RegisterIntendedHonest |
