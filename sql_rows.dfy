/**
 * The containers table of the SQL backend and the meaning of the statements run on it.
 *
 * The SQL text lives in resource files that are not part of this model, so each statement
 * is given the meaning its name and use imply: select by owner, select all, existence of
 * a row by owner, world and block coordinates, and delete by owner, world and block
 * coordinates. Each filter is defined from the end of the table so that it unfolds the
 * way the row loop of `query` steps.
 */
module SqlRows {
  import opened Wrappers
  import opened RemoteContainers
  import opened Backend

  /** One row: `(id, owner, world, name?, x, y, z)`. */
  datatype Row = Row(id: int, owner: Uuid, world: Uuid, name: Option<string>, x: int, y: int, z: int)

  function RowLocation(r: Row): Location {
    Location(r.world, r.x, r.y, r.z)
  }

  /** The container a row stands for. */
  function RowContainer(r: Row): RemoteContainer {
    CreateChest(r.name, RowLocation(r))
  }

  /**
   * The collaborators consulted at read time: whether a world uuid resolves to a loaded
   * world, and whether a user uuid resolves to a known user.
   */
  datatype Env = Env(worldLoaded: Uuid -> bool, userKnown: Uuid -> bool)

  /** A row whose world and owner both resolve; all other rows are skipped by `query`. */
  predicate Resolvable(env: Env, r: Row) {
    env.worldLoaded(r.world) && env.userKnown(r.owner)
  }

  /** `query_user.sql`: the rows of owner `u`, in table order. */
  function SelectByOwner(rows: seq<Row>, u: Owner): (rs: seq<Row>)
    ensures forall i :: 0 <= i < |rs| ==> rs[i].owner == u
  {
    if rows == [] then []
    else SelectByOwner(rows[..|rows| - 1], u) + (if rows[|rows| - 1].owner == u then [rows[|rows| - 1]] else [])
  }

  /** `query_container.sql` finds a row: owner `u` has a row at location `l`. */
  predicate ExistsAt(rows: seq<Row>, u: Owner, l: Location) {
    exists i :: 0 <= i < |rows| && rows[i].owner == u && RowLocation(rows[i]) == l
  }

  /** Row `r` is one that `delete_container.sql` removes for owner `u` at one of the locations `ls`. */
  predicate Doomed(r: Row, u: Owner, ls: set<Location>) {
    r.owner == u && RowLocation(r) in ls
  }

  /** `delete_container.sql` for owner `u`, run once per location in `ls`: the rows left. */
  function DeleteAt(rows: seq<Row>, u: Owner, ls: set<Location>): (rs: seq<Row>)
    ensures |rs| <= |rows|
  {
    if rows == [] then []
    else DeleteAt(rows[..|rows| - 1], u, ls) + (if Doomed(rows[|rows| - 1], u, ls) then [] else [rows[|rows| - 1]])
  }

  /** Some row of owner `u` lies at one of the locations `ls`, so a delete there affects a row. */
  predicate Affects(rows: seq<Row>, u: Owner, ls: set<Location>) {
    exists i :: 0 <= i < |rows| && Doomed(rows[i], u, ls)
  }

  // ---------------------------------------------------------------------------
  // The row loop of `query`
  // ---------------------------------------------------------------------------

  /**
   * One step of the row loop: a row whose world or owner does not resolve is skipped;
   * otherwise the owner's set is created if absent and the row's container is added (an
   * equal container already there is kept, so the first row at a location names it).
   */
  function AddRow(m: Registry, r: Row, env: Env): (m': Registry)
    ensures !Resolvable(env, r) ==> m' == m
    ensures Resolvable(env, r) ==> r.owner in m' && Contains(m'[r.owner], RowContainer(r))
    ensures forall o :: o != r.owner ==> (o in m' <==> o in m) && (o in m ==> m'[o] == m[o])
  {
    if !env.worldLoaded(r.world) then m
    else if !env.userKnown(r.owner) then m
    else m[r.owner := Add(OwnerSet(m, r.owner), RowContainer(r))]
  }

  /**
   * The map the row loop builds from `rows`, starting from the empty map: an owner
   * appears only for a resolvable row of that owner.
   */
  function Collect(rows: seq<Row>, env: Env): (m: Registry)
    ensures forall o :: o in m ==> exists i :: 0 <= i < |rows| && rows[i].owner == o && Resolvable(env, rows[i])
  {
    if rows == [] then map[] else AddRow(Collect(rows[..|rows| - 1], env), rows[|rows| - 1], env)
  }

  /** The row loop after `i + 1` rows is one step after `i` rows. */
  lemma CollectPrefixStep(rows: seq<Row>, i: nat, env: Env)
    requires i < |rows|
    ensures Collect(rows[..i + 1], env) == AddRow(Collect(rows[..i], env), rows[i], env)
  {
    assert rows[..i + 1] == rows[..i] + [rows[i]];
    CollectAppend(rows[..i], rows[i], env);
  }

  lemma {:induction false} CollectAppend(rows: seq<Row>, r: Row, env: Env)
    ensures Collect(rows + [r], env) == AddRow(Collect(rows, env), r, env)
  {
    assert (rows + [r])[..|rows|] == rows;
  }

  /** What one step does to the set of a given owner. */
  lemma AddRowOwnerSet(m: Registry, r: Row, env: Env, o: Owner)
    ensures OwnerSet(AddRow(m, r, env), o)
      == if Resolvable(env, r) && r.owner == o then Add(OwnerSet(m, o), RowContainer(r)) else OwnerSet(m, o)
  {
  }

  /**
   * Soundness and completeness of `query`: location `l` is in owner `o`'s set exactly when
   * some resolvable row of `o` lies at `l`.
   */
  lemma {:induction false} CollectMembership(rows: seq<Row>, env: Env, o: Owner, l: Location)
    ensures l in OwnerSet(Collect(rows, env), o)
      <==> exists i :: 0 <= i < |rows| && Resolvable(env, rows[i]) && rows[i].owner == o && RowLocation(rows[i]) == l
  {
    if rows != [] {
      var front, last := rows[..|rows| - 1], rows[|rows| - 1];
      assert rows == front + [last];
      CollectMembership(front, env, o, l);
      AddRowOwnerSet(Collect(front, env), last, env, o);
      if l in OwnerSet(Collect(rows, env), o) && !(l in OwnerSet(Collect(front, env), o)) {
        assert Resolvable(env, last) && last.owner == o && RowLocation(last) == l;
      }
      if exists i :: 0 <= i < |rows| && Resolvable(env, rows[i]) && rows[i].owner == o && RowLocation(rows[i]) == l {
        var i :| 0 <= i < |rows| && Resolvable(env, rows[i]) && rows[i].owner == o && RowLocation(rows[i]) == l;
        if i < |front| {
          assert front[i] == rows[i];
        }
      }
    }
  }

  /** Every owner in `query`'s result has a non-empty set: a set is created only to add to it. */
  lemma {:induction false} CollectSetsNonEmpty(rows: seq<Row>, env: Env)
    ensures forall o :: o in Collect(rows, env) ==> Collect(rows, env)[o] != map[]
  {
    if rows != [] {
      CollectSetsNonEmpty(rows[..|rows| - 1], env);
    }
  }

  /** A row whose world or owner does not resolve changes nothing: it is skipped, without error. */
  lemma SkipUnresolvable(rows: seq<Row>, r: Row, env: Env)
    requires !Resolvable(env, r)
    ensures Collect(rows + [r], env) == Collect(rows, env)
  {
    CollectAppend(rows, r, env);
  }

  /**
   * A later row of the same owner at a location already collected changes nothing: rows
   * with the same owner and location collapse to one container, named by the first.
   */
  lemma SameLocationCollapses(rows: seq<Row>, r: Row, env: Env)
    requires RowLocation(r) in OwnerSet(Collect(rows, env), r.owner)
    ensures Collect(rows + [r], env) == Collect(rows, env)
  {
    CollectAppend(rows, r, env);
    var m := Collect(rows, env);
    if Resolvable(env, r) {
      assert r.owner in m && Add(m[r.owner], RowContainer(r)) == m[r.owner];
      assert AddRow(m, r, env) == m[r.owner := m[r.owner]] == m;
    }
  }

  // ---------------------------------------------------------------------------
  // Selecting by owner and deleting
  // ---------------------------------------------------------------------------

  lemma {:induction false} SelectAppend(rows: seq<Row>, r: Row, u: Owner)
    ensures SelectByOwner(rows + [r], u) == SelectByOwner(rows, u) + (if r.owner == u then [r] else [])
  {
    assert (rows + [r])[..|rows|] == rows;
  }

  lemma {:induction false} DeleteAppend(rows: seq<Row>, r: Row, u: Owner, ls: set<Location>)
    ensures DeleteAt(rows + [r], u, ls) == DeleteAt(rows, u, ls) + (if Doomed(r, u, ls) then [] else [r])
  {
    assert (rows + [r])[..|rows|] == rows;
  }

  /** Owner `u` has a row exactly when selecting by `u` finds one. */
  lemma {:induction false} SelectNonEmpty(rows: seq<Row>, u: Owner)
    ensures SelectByOwner(rows, u) != [] <==> exists i :: 0 <= i < |rows| && rows[i].owner == u
  {
    if rows != [] {
      var front, last := rows[..|rows| - 1], rows[|rows| - 1];
      SelectNonEmpty(front, u);
      if exists i :: 0 <= i < |front| && front[i].owner == u {
        var i :| 0 <= i < |front| && front[i].owner == u;
        assert rows[i].owner == u;
      }
      if exists i :: 0 <= i < |rows| && rows[i].owner == u {
        var i :| 0 <= i < |rows| && rows[i].owner == u;
        if i < |front| {
          assert front[i].owner == u;
        }
      }
    }
  }

  /** Selecting the owner's rows first does not change what `query` collects for that owner. */
  lemma {:induction false} SelectKeepsOwnerSet(rows: seq<Row>, u: Owner, env: Env)
    ensures OwnerSet(Collect(SelectByOwner(rows, u), env), u) == OwnerSet(Collect(rows, env), u)
  {
    if rows != [] {
      var front, last := rows[..|rows| - 1], rows[|rows| - 1];
      assert rows == front + [last];
      SelectKeepsOwnerSet(front, u, env);
      SelectAppend(front, last, u);
      CollectAppend(front, last, env);
      AddRowOwnerSet(Collect(front, env), last, env, u);
      if last.owner == u {
        CollectAppend(SelectByOwner(front, u), last, env);
        AddRowOwnerSet(Collect(SelectByOwner(front, u), env), last, env, u);
      } else {
        assert SelectByOwner(rows, u) == SelectByOwner(front, u);
      }
    }
  }

  /** Selecting by owner `u` collects at most owner `u`. */
  lemma {:induction false} SelectCollectsOnlyOwner(rows: seq<Row>, u: Owner, env: Env)
    ensures Collect(SelectByOwner(rows, u), env).Keys <= {u}
  {
    if rows != [] {
      var front, last := rows[..|rows| - 1], rows[|rows| - 1];
      assert rows == front + [last];
      SelectCollectsOnlyOwner(front, u, env);
      SelectAppend(front, last, u);
      if last.owner == u {
        CollectAppend(SelectByOwner(front, u), last, env);
      } else {
        assert SelectByOwner(rows, u) == SelectByOwner(front, u);
      }
    }
  }

  /** A set minus the containers at the locations `ls`. */
  function Without(s: ContainerSet, ls: set<Location>): (r: ContainerSet)
    ensures forall l :: l in r <==> l in s && l !in ls
    ensures forall l :: l in r ==> r[l] == s[l]
  {
    map l | l in s && l !in ls :: s[l]
  }

  lemma WithoutAddKept(s: ContainerSet, c: RemoteContainer, ls: set<Location>)
    requires c.location !in ls
    ensures Add(Without(s, ls), c) == Without(Add(s, c), ls)
  {
  }

  lemma WithoutAddDropped(s: ContainerSet, c: RemoteContainer, ls: set<Location>)
    requires c.location in ls
    ensures Without(Add(s, c), ls) == Without(s, ls)
  {
  }

  /** What deleting at `ls` should leave of owner `o`'s set `s`. */
  function AfterDelete(s: ContainerSet, u: Owner, ls: set<Location>, o: Owner): ContainerSet {
    if o == u then Without(s, ls) else s
  }

  /** One step of `CollectAfterDelete`: the last row is deleted. */
  lemma AfterDeleteDoomedStep(m: Registry, md: Registry, last: Row, u: Owner, ls: set<Location>, env: Env, o: Owner)
    requires Doomed(last, u, ls)
    requires OwnerSet(md, o) == AfterDelete(OwnerSet(m, o), u, ls, o)
    ensures OwnerSet(md, o) == AfterDelete(OwnerSet(AddRow(m, last, env), o), u, ls, o)
  {
    AddRowOwnerSet(m, last, env, o);
    if o == u && Resolvable(env, last) {
      WithoutAddDropped(OwnerSet(m, o), RowContainer(last), ls);
    }
  }

  /** One step of `CollectAfterDelete`: the last row is kept. */
  lemma AfterDeleteKeptStep(m: Registry, md: Registry, last: Row, u: Owner, ls: set<Location>, env: Env, o: Owner)
    requires !Doomed(last, u, ls)
    requires OwnerSet(md, o) == AfterDelete(OwnerSet(m, o), u, ls, o)
    ensures OwnerSet(AddRow(md, last, env), o) == AfterDelete(OwnerSet(AddRow(m, last, env), o), u, ls, o)
  {
    AddRowOwnerSet(m, last, env, o);
    AddRowOwnerSet(md, last, env, o);
    if o == u && Resolvable(env, last) && last.owner == o {
      WithoutAddKept(OwnerSet(m, o), RowContainer(last), ls);
    }
  }

  /**
   * Deleting owner `u`'s rows at the locations `ls` removes exactly those locations from
   * what `query` collects for `u`, and changes nothing for any other owner.
   */
  lemma {:induction false} CollectAfterDelete(rows: seq<Row>, u: Owner, ls: set<Location>, env: Env, o: Owner)
    ensures OwnerSet(Collect(DeleteAt(rows, u, ls), env), o) == AfterDelete(OwnerSet(Collect(rows, env), o), u, ls, o)
  {
    if rows == [] {
      assert Without(map[], ls) == map[];
    } else {
      var front, last := rows[..|rows| - 1], rows[|rows| - 1];
      assert rows == front + [last];
      CollectAfterDelete(front, u, ls, env, o);
      DeleteAppend(front, last, u, ls);
      CollectAppend(front, last, env);
      if Doomed(last, u, ls) {
        assert DeleteAt(rows, u, ls) == DeleteAt(front, u, ls);
        AfterDeleteDoomedStep(Collect(front, env), Collect(DeleteAt(front, u, ls), env), last, u, ls, env, o);
      } else {
        CollectAppend(DeleteAt(front, u, ls), last, env);
        AfterDeleteKeptStep(Collect(front, env), Collect(DeleteAt(front, u, ls), env), last, u, ls, env, o);
      }
    }
  }

  /** A row not doomed by a delete survives it. */
  lemma {:induction false} DeleteKeeps(rows: seq<Row>, u: Owner, ls: set<Location>, i: nat)
    requires i < |rows| && !Doomed(rows[i], u, ls)
    ensures rows[i] in DeleteAt(rows, u, ls)
  {
    var front, last := rows[..|rows| - 1], rows[|rows| - 1];
    assert rows == front + [last];
    DeleteAppend(front, last, u, ls);
    if i < |front| {
      DeleteKeeps(front, u, ls, i);
    }
  }

  /** Deleting at one more location is deleting at the union. */
  lemma {:induction false} DeleteTwice(rows: seq<Row>, u: Owner, ls: set<Location>, l: Location)
    ensures DeleteAt(DeleteAt(rows, u, ls), u, {l}) == DeleteAt(rows, u, ls + {l})
  {
    if rows != [] {
      var front, last := rows[..|rows| - 1], rows[|rows| - 1];
      assert rows == front + [last];
      DeleteTwice(front, u, ls, l);
      DeleteAppend(front, last, u, ls);
      DeleteAppend(front, last, u, ls + {l});
      if !Doomed(last, u, ls) {
        DeleteAppend(DeleteAt(front, u, ls), last, u, {l});
      } else {
        assert DeleteAt(rows, u, ls) == DeleteAt(front, u, ls);
      }
    }
  }

  /** A delete affects a row of `rows + [r]` iff it affects one of `rows` or `r` itself. */
  lemma AffectsAppend(rows: seq<Row>, r: Row, u: Owner, ls: set<Location>)
    ensures Affects(rows + [r], u, ls) <==> Affects(rows, u, ls) || Doomed(r, u, ls)
  {
    var all := rows + [r];
    if Affects(rows, u, ls) {
      var i :| 0 <= i < |rows| && Doomed(rows[i], u, ls);
      assert all[i] == rows[i];
    }
    if Doomed(r, u, ls) {
      assert all[|rows|] == r;
    }
    if Affects(all, u, ls) {
      var i :| 0 <= i < |all| && Doomed(all[i], u, ls);
      if i < |rows| {
        assert all[i] == rows[i];
      }
    }
  }

  /** A row of `u` at `l` survives deletes at other locations. */
  lemma {:induction false} AffectsAfterDelete(rows: seq<Row>, u: Owner, ls: set<Location>, l: Location)
    requires l !in ls
    ensures Affects(DeleteAt(rows, u, ls), u, {l}) <==> Affects(rows, u, {l})
  {
    if rows != [] {
      var front, last := rows[..|rows| - 1], rows[|rows| - 1];
      assert rows == front + [last];
      AffectsAfterDelete(front, u, ls, l);
      DeleteAppend(front, last, u, ls);
      AffectsAppend(front, last, u, {l});
      if !Doomed(last, u, ls) {
        AffectsAppend(DeleteAt(front, u, ls), last, u, {l});
      } else {
        assert DeleteAt(rows, u, ls) == DeleteAt(front, u, ls) + [] == DeleteAt(front, u, ls);
        assert !Doomed(last, u, {l});
      }
    }
  }

  /** How many rows `delete_container.sql` removes for owner `u` at location `l`. */
  function DeleteCount(rows: seq<Row>, u: Owner, l: Location): nat {
    |rows| - |DeleteAt(rows, u, {l})|
  }

  /** A delete reports an affected row exactly when some row of `u` lies at one of the locations. */
  lemma {:induction false} DeleteShrinks(rows: seq<Row>, u: Owner, ls: set<Location>)
    ensures |DeleteAt(rows, u, ls)| < |rows| <==> Affects(rows, u, ls)
  {
    if rows != [] {
      var front, last := rows[..|rows| - 1], rows[|rows| - 1];
      assert rows == front + [last];
      DeleteShrinks(front, u, ls);
      DeleteAppend(front, last, u, ls);
      AffectsAppend(front, last, u, ls);
    }
  }

  /** Deleting at no location keeps every row. */
  lemma {:induction false} DeleteNothing(rows: seq<Row>, u: Owner)
    ensures DeleteAt(rows, u, {}) == rows
  {
    if rows != [] {
      var front, last := rows[..|rows| - 1], rows[|rows| - 1];
      DeleteNothing(front, u);
      assert !Doomed(last, u, {});
      assert DeleteAt(rows, u, {}) == front + [last];
      assert rows == front + [last];
    }
  }

  /**
   * One more delete at `l` after the deletes at `ls`: the rows left are those of deleting
   * at `ls + {l}`, and the deletes so far affected a row exactly when the earlier ones did
   * or this one reports a removed row.
   */
  lemma DeleteStep(rows: seq<Row>, u: Owner, ls: set<Location>, l: Location)
    requires l !in ls
    ensures DeleteAt(DeleteAt(rows, u, ls), u, {l}) == DeleteAt(rows, u, ls + {l})
    ensures Affects(rows, u, ls + {l}) <==> Affects(rows, u, ls) || DeleteCount(DeleteAt(rows, u, ls), u, l) > 0
  {
    DeleteTwice(rows, u, ls, l);
    DeleteShrinks(DeleteAt(rows, u, ls), u, {l});
    AffectsAfterDelete(rows, u, ls, l);
    if Affects(rows, u, ls + {l}) {
      var i :| 0 <= i < |rows| && Doomed(rows[i], u, ls + {l});
      assert Doomed(rows[i], u, ls) || Doomed(rows[i], u, {l});
    }
    if Affects(rows, u, ls) {
      var i :| 0 <= i < |rows| && Doomed(rows[i], u, ls);
      assert Doomed(rows[i], u, ls + {l});
    }
    if Affects(rows, u, {l}) {
      var i :| 0 <= i < |rows| && Doomed(rows[i], u, {l});
      assert Doomed(rows[i], u, ls + {l});
    }
  }
}
