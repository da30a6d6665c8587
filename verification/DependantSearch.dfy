/** The worklist search for the dependants of a change. */
module DependantSearch {
  import opened Wrappers
  import opened QueueTypes
  import opened Dependencies

  /** The ids of the changes that directly require an id. */
  ghost function Users(id: Id, changes: seq<Change>): set<Id> {
    set c | c in changes && id in c.requirements :: c.id
  }

  function Lookup(depmap: map<Id, set<Id>>, id: Id): set<Id> {
    if id in depmap then depmap[id] else {}
  }

  /** The map knows the direct users of every id, except for the ids taken out of it. */
  ghost predicate MapsUsers(depmap: map<Id, set<Id>>, changes: seq<Change>, out: set<Id>) {
    forall id :: Lookup(depmap, id) == if id in out then {} else Users(id, changes)
  }

  method DependencyMap(changes: seq<Change>) returns (depmap: map<Id, set<Id>>)
    ensures MapsUsers(depmap, changes, {})
  {
    depmap := map[];
    for i := 0 to |changes|
      invariant MapsUsers(depmap, changes[..i], {})
    {
      depmap := AddUser(depmap, changes[i]);
      forall id
        ensures Users(id, changes[..i + 1])
             == Users(id, changes[..i]) + if id in changes[i].requirements then {changes[i].id} else {}
      {
        assert changes[..i + 1] == changes[..i] + [changes[i]];
      }
    }
    assert changes[..|changes|] == changes;
  }

  method AddUser(depmap: map<Id, set<Id>>, c: Change) returns (depmap': map<Id, set<Id>>)
    ensures forall id :: Lookup(depmap', id) == Lookup(depmap, id) + if id in c.requirements then {c.id} else {}
  {
    depmap' := depmap;
    var todo := c.requirements;
    while todo != {}
      invariant todo <= c.requirements
      invariant forall id ::
        Lookup(depmap', id) == Lookup(depmap, id) + if id in c.requirements - todo then {c.id} else {}
    {
      var id :| id in todo;
      depmap' := depmap'[id := Lookup(depmap', id) + {c.id}];
      todo := todo - {id};
    }
  }

  /** The elements of a set in some order. */
  method Listed(ids: set<Id>) returns (list: seq<Id>)
    ensures forall id :: id in list <==> id in ids
  {
    list := [];
    var todo := ids;
    while todo != {}
      invariant todo <= ids
      invariant forall id :: id in list <==> id in ids - todo
    {
      var id :| id in todo;
      list := list + [id];
      todo := todo - {id};
    }
  }

  /** The set holds the users of the root and of all its members. */
  ghost predicate HoldsUsers(ids: set<Id>, root: Id, changes: seq<Change>) {
    forall id :: id == root || id in ids ==> Users(id, changes) <= ids
  }

  lemma DependantsHoldUsers(root: Id, changes: seq<Change>)
    ensures HoldsUsers(Dependants(root, changes), root, changes)
  {
    DependantsClosed(root, changes);
    forall id, c | (id == root || id in Dependants(root, changes)) && c in changes && id in c.requirements
      ensures c.id in Dependants(root, changes)
    {
      assert Requires(c, Dependants(root, changes) + {root});
    }
  }

  method FindDependantsOn(root: Id, changes: seq<Change>) returns (dependants: set<Id>)
    ensures dependants == Dependants(root, changes)
  {
    DependantsHoldUsers(root, changes);
    var depmap := DependencyMap(changes);
    dependants := Explore(root, changes, depmap, Dependants(root, changes));
    DependantsLeast(dependants, root, changes);
  }

  /** What was looked up so far has its users among the dependants; what was not is still to
      be looked up. */
  ghost predicate Explored(dependants: set<Id>, todo: seq<Id>, out: set<Id>, root: Id, changes: seq<Change>) {
    && (forall id :: id in out || id in todo <==> id == root || id in dependants)
    && (forall id :: id in out ==> Users(id, changes) <= dependants)
  }

  lemma ExploredNext(dependants: set<Id>, todo: seq<Id>, out: set<Id>, root: Id, changes: seq<Change>, found: set<Id>,
                     more: seq<Id>)
    requires Explored(dependants, todo, out, root, changes) && todo != []
    requires found == (if todo[0] in out then {} else Users(todo[0], changes)) - dependants
    requires forall id :: id in more <==> id in found
    ensures Explored(dependants + found, todo[1..] + more, out + {todo[0]}, root, changes)
    ensures found == {} ==> more == []
  {
    assert todo == [todo[0]] + todo[1..];
    assert more != [] ==> more[0] in more;
  }

  /** Explore who requires whom, starting from the root; the result is within any set
      that holds users. */
  method Explore(root: Id, ghost changes: seq<Change>, depmap0: map<Id, set<Id>>, ghost bound: set<Id>)
      returns (dependants: set<Id>)
    requires MapsUsers(depmap0, changes, {}) && HoldsUsers(bound, root, changes)
    ensures HoldsUsers(dependants, root, changes) && dependants <= bound
  {
    var depmap := depmap0;
    dependants := {};
    var recurseInto := [root];
    ghost var out: set<Id> := {};
    while recurseInto != []
      invariant MapsUsers(depmap, changes, out)
      invariant dependants <= bound
      invariant Explored(dependants, recurseInto, out, root, changes)
      decreases bound - dependants, |recurseInto|
    {
      var id := recurseInto[0];
      var users := Lookup(depmap, id);
      assert id == root || id in dependants;
      var found := users - dependants;
      var list := Listed(found);
      ExploredNext(dependants, recurseInto, out, root, changes, found, list);
      depmap := depmap - {id};
      out := out + {id};
      dependants := dependants + found;
      recurseInto := recurseInto[1..] + list;
    }
  }
}
