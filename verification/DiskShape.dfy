/**
 The shape of a node table: the key of every node, which nodes are directories, and the path
 index.  Keys are plain strings here; how they come from names does not matter.
 */
module DiskShape {
  import opened Common
  import opened DiskPaths

  type NodeId = nat

  const ROOT_ID: NodeId := 1

  datatype Shape = Shape(keys: map<NodeId, string>, dirs: set<NodeId>, byPath: map<string, NodeId>)

  /** The index holds exactly the keys of the live nodes. */
  ghost predicate Exact(s: Shape) {
    && (forall i :: i in s.keys ==> s.keys[i] in s.byPath && s.byPath[s.keys[i]] == i)
    && (forall k :: k in s.byPath ==> s.byPath[k] in s.keys && s.keys[s.byPath[k]] == k)
  }

  /** The parent of this key is a live directory. */
  ghost predicate HasParent(s: Shape, key: string) {
    && ParentCanon(key).Some?
    && ParentCanon(key).value in s.byPath
    && s.byPath[ParentCanon(key).value] in s.dirs
  }

  ghost predicate Rooted(s: Shape) {
    && ROOT_ID in s.keys && s.keys[ROOT_ID] == ROOT && ROOT_ID in s.dirs
    && (forall i :: i in s.keys && i != ROOT_ID ==> HasParent(s, s.keys[i]))
  }

  /** Index and table agree, and every node but the root hangs under a live directory. */
  ghost predicate Proper(s: Shape) { Exact(s) && Rooted(s) && s.dirs <= s.keys.Keys }

  /** Some node other than the directory itself has it as parent. */
  ghost predicate HasChild(s: Shape, key: string) {
    exists i :: i in s.keys && s.keys[i] != key && ParentCanon(s.keys[i]) == Some(key)
  }

  // ----- adding and removing a node -----

  function Added(s: Shape, id: NodeId, key: string, isDir: bool): Shape {
    Shape(s.keys[id := key], if isDir then s.dirs + {id} else s.dirs - {id}, s.byPath[key := id])
  }

  function Removed(s: Shape, id: NodeId): Shape
    requires id in s.keys
  {
    Shape(s.keys - {id}, s.dirs - {id}, s.byPath - {s.keys[id]})
  }

  lemma AddKeeps(s: Shape, id: NodeId, key: string, isDir: bool)
    requires Proper(s) && id !in s.keys && key !in s.byPath && HasParent(s, key)
    ensures Proper(Added(s, id, key, isDir))
  {
    var u := Added(s, id, key, isDir);
    forall i | i in u.keys && i != ROOT_ID ensures HasParent(u, u.keys[i]) {
      assert HasParent(s, u.keys[i]);
    }
  }

  lemma RemoveKeepsExact(s: Shape, id: NodeId)
    requires Exact(s) && id in s.keys
    ensures Exact(Removed(s, id))
  {
    var u := Removed(s, id);
    forall i | i in u.keys ensures u.keys[i] in u.byPath && u.byPath[u.keys[i]] == i {
      assert s.byPath[s.keys[i]] == i;
    }
  }

  /** A node whose parent is not removed keeps it. */
  lemma RemoveKeepsParent(s: Shape, id: NodeId, i: NodeId)
    requires Exact(s) && id in s.keys && i in s.keys && HasParent(s, s.keys[i])
    requires ParentCanon(s.keys[i]) != Some(s.keys[id])
    ensures HasParent(Removed(s, id), s.keys[i])
  {
    var p := ParentCanon(s.keys[i]).value;
    assert s.keys[s.byPath[p]] == p;
  }

  lemma RemoveKeepsIff(s: Shape, id: NodeId)
    requires Proper(s) && id in s.keys && !HasChild(s, s.keys[id])
    ensures Proper(Removed(s, id)) <==> id != ROOT_ID
  {
    var u := Removed(s, id);
    if id != ROOT_ID {
      RemoveKeepsExact(s, id);
      forall i | i in u.keys && i != ROOT_ID ensures HasParent(u, u.keys[i]) {
        assert HasParent(s, s.keys[i]);
        assert s.keys[i] != s.keys[id];
        RemoveKeepsParent(s, id, i);
      }
    } else {
      assert ROOT_ID !in u.keys;
    }
  }

  /** In a proper tree only directories have children. */
  lemma FilesAreChildless(s: Shape, id: NodeId)
    requires Proper(s) && id in s.keys && id !in s.dirs
    ensures !HasChild(s, s.keys[id])
  {
    forall i | i in s.keys ensures ParentCanon(s.keys[i]) != Some(s.keys[id]) {
      if i != ROOT_ID {
        assert HasParent(s, s.keys[i]);
      }
    }
  }

  // ----- moving a subtree -----

  /** The nodes in the subtree of a key. */
  ghost function Subtree(s: Shape, top: string): set<NodeId> {
    set i | i in s.keys && InSubtree(s.keys[i], top)
  }

  /** Where a key of the subtree goes. */
  function MovedKey(key: string, old': string, new': string): string
    requires |old'| <= |key|
  {
    new' + key[|old'|..]
  }

  /** One turn of the rename loop: drop the original key, enter the moved one. */
  function MoveOne(s: Shape, id: NodeId, original: string, moved: string): Shape
    requires id in s.keys
  {
    s.(keys := s.keys[id := moved], byPath := (s.byPath - {original})[moved := id])
  }

  /** Every visited key is at least as long as the key of the top. */
  ghost predicate Movable(s: Shape, order: seq<NodeId>, top: string) {
    forall i :: 0 <= i < |order| ==> order[i] in s.keys && |top| <= |s.keys[order[i]]|
  }

  /** The loop over `order`, with the keys of `base` as originals. */
  ghost function MoveAll(base: Shape, order: seq<NodeId>, old': string, new': string): (r: Shape)
    requires Movable(base, order, old')
    ensures r.keys.Keys == base.keys.Keys && r.dirs == base.dirs
  {
    if order == [] then base
    else
      var n := |order| - 1;
      var original := base.keys[order[n]];
      MoveOne(MoveAll(base, order[..n], old', new'), order[n], original, MovedKey(original, old', new'))
  }

  /** Every element once. */
  ghost predicate Enumerates(order: seq<NodeId>, s: set<NodeId>) {
    && (forall i :: 0 <= i < |order| ==> order[i] in s)
    && (forall x :: x in s ==> x in order)
    && (forall i, j :: 0 <= i < j < |order| ==> order[i] != order[j])
  }

  /** No moved key meets the key of another node, moved or not. */
  ghost predicate NoClash(s: Shape, old': string, new': string) {
    forall a, b :: a in Subtree(s, old') && b in s.keys && a != b ==> MovedKey(s.keys[a], old', new') != s.keys[b]
  }

  /** The keys after the nodes in `done` have moved. */
  ghost predicate KeysMoved(s: Shape, base: Shape, done: set<NodeId>, old': string, new': string)
    requires forall i :: i in done ==> i in base.keys && |old'| <= |base.keys[i]|
  {
    && s.keys.Keys == base.keys.Keys && s.dirs == base.dirs
    && forall i :: i in s.keys ==>
         s.keys[i] == if i in done then MovedKey(base.keys[i], old', new') else base.keys[i]
  }

  ghost function Elements(order: seq<NodeId>): set<NodeId> { set x | x in order }

  lemma {:induction false} KeysAfter(base: Shape, order: seq<NodeId>, old': string, new': string)
    requires Movable(base, order, old')
    ensures KeysMoved(MoveAll(base, order, old', new'), base, Elements(order), old', new')
  {
    if order != [] {
      var n := |order| - 1;
      KeysAfter(base, order[..n], old', new');
      assert Elements(order) == Elements(order[..n]) + {order[n]};
    }
  }

  lemma MovedKeysDiffer(base: Shape, a: NodeId, b: NodeId, old': string, new': string)
    requires Exact(base) && a in Subtree(base, old') && b in Subtree(base, old') && a != b
    ensures MovedKey(base.keys[a], old', new') != MovedKey(base.keys[b], old', new')
  {
    var ka, kb := base.keys[a], base.keys[b];
    assert ka == old' + ka[|old'|..] && kb == old' + kb[|old'|..];
    assert ka != kb;
    assert MovedKey(ka, old', new')[|new'|..] == ka[|old'|..] && MovedKey(kb, old', new')[|new'|..] == kb[|old'|..];
  }

  /** One turn keeps the index exact if the moved key is free. */
  lemma MoveOneKeepsExact(s: Shape, id: NodeId, moved: string)
    requires Exact(s) && id in s.keys
    requires forall b :: b in s.keys && b != id ==> s.keys[b] != moved
    ensures Exact(MoveOne(s, id, s.keys[id], moved))
  {
  }

  /** The moved key of a node whose turn has not come is free. */
  lemma MovedKeyIsFree(base: Shape, mid: Shape, done: set<NodeId>, a: NodeId, old': string, new': string)
    requires Exact(base) && NoClash(base, old', new')
    requires done <= Subtree(base, old') && a in Subtree(base, old') - done && KeysMoved(mid, base, done, old', new')
    ensures forall b :: b in mid.keys && b != a ==> mid.keys[b] != MovedKey(base.keys[a], old', new')
  {
    forall b | b in mid.keys && b != a ensures mid.keys[b] != MovedKey(base.keys[a], old', new') {
      if b in done {
        MovedKeysDiffer(base, a, b, old', new');
      }
    }
  }

  /** Without clashes the index is exact after every turn, whatever the order. */
  lemma {:induction false} IndexStaysExact(base: Shape, order: seq<NodeId>, old': string, new': string)
    requires Exact(base) && NoClash(base, old', new')
    requires forall i :: 0 <= i < |order| ==> order[i] in Subtree(base, old')
    requires forall i, j :: 0 <= i < j < |order| ==> order[i] != order[j]
    ensures Exact(MoveAll(base, order, old', new'))
  {
    if order != [] {
      var n := |order| - 1;
      var a, mid := order[n], MoveAll(base, order[..n], old', new');
      IndexStaysExact(base, order[..n], old', new');
      KeysAfter(base, order[..n], old', new');
      assert a !in Elements(order[..n]);
      MovedKeyIsFree(base, mid, Elements(order[..n]), a, old', new');
      MoveOneKeepsExact(mid, a, MovedKey(base.keys[a], old', new'));
    }
  }

  // ----- renaming -----

  /** The shape the loop starts from: a different node at the target is gone. */
  ghost function Vacated(s: Shape, id: NodeId, target: string): Shape
    requires Exact(s)
  {
    if target in s.byPath && s.byPath[target] != id then Removed(s, s.byPath[target]) else s
  }

  /** The nodes the loop visits. */
  ghost function Moving(s: Shape, id: NodeId, target: string): set<NodeId>
    requires Exact(s) && id in s.keys
  {
    Subtree(Vacated(s, id, target), s.keys[id])
  }

  /** The result of the loop in the given order. */
  ghost function Renamed(s: Shape, id: NodeId, target: string, order: seq<NodeId>): Shape
    requires Exact(s) && id in s.keys && Enumerates(order, Moving(s, id, target))
  {
    MoveAll(Vacated(s, id, target), order, s.keys[id], target)
  }

  /** The target's parent is a live directory that does not move. */
  ghost predicate ParentStays(s: Shape, id: NodeId, target: string)
    requires Exact(s) && id in s.keys
  {
    var base := Vacated(s, id, target);
    HasParent(base, target) && base.byPath[ParentCanon(target).value] !in Moving(s, id, target)
  }

  /** Children left behind by a replaced node find a directory in its place. */
  ghost predicate Adopts(s: Shape, id: NodeId, target: string)
    requires Exact(s) && id in s.keys
  {
    var base := Vacated(s, id, target);
    forall u :: u in base.keys && u != ROOT_ID && u !in Moving(s, id, target) && ParentCanon(base.keys[u]) == Some(target)
      ==> id in base.dirs
  }

  /** Exactly when a rename leaves a proper tree; a caller can check it beforehand. */
  ghost predicate RenameFits(s: Shape, id: NodeId, target: string)
    requires Exact(s) && id in s.keys
  {
    if id == ROOT_ID then target == ROOT
    else ParentStays(s, id, target) && NoClash(Vacated(s, id, target), s.keys[id], target) && Adopts(s, id, target)
  }

  lemma VacatedExact(s: Shape, id: NodeId, target: string)
    requires Exact(s) && id in s.keys
    ensures Exact(Vacated(s, id, target)) && id in Vacated(s, id, target).keys
    ensures id in Moving(s, id, target)
    ensures forall i :: i in Vacated(s, id, target).keys ==> i in s.keys && Vacated(s, id, target).keys[i] == s.keys[i]
  {
  }

  lemma {:induction false} EnumerationOf(s: set<NodeId>) returns (order: seq<NodeId>)
    ensures Enumerates(order, s)
  {
    if s == {} {
      order := [];
    } else {
      var x :| x in s;
      var rest := EnumerationOf(s - {x});
      order := [x] + rest;
    }
  }

  /** Keys after the whole loop. */
  lemma FinalKeys(s: Shape, id: NodeId, target: string, order: seq<NodeId>)
    requires Exact(s) && id in s.keys && Enumerates(order, Moving(s, id, target))
    ensures KeysMoved(Renamed(s, id, target, order), Vacated(s, id, target), Moving(s, id, target), s.keys[id], target)
    ensures Renamed(s, id, target, order).keys[id] == target
  {
    VacatedExact(s, id, target);
    KeysAfter(Vacated(s, id, target), order, s.keys[id], target);
    assert Elements(order) == Moving(s, id, target);
    assert target + s.keys[id][|s.keys[id]|..] == target;
  }

  // Sufficiency.

  /** A non-root key of a proper tree is neither empty nor the root key. */
  lemma NonRootKey(s: Shape, id: NodeId)
    requires Proper(s) && id in s.keys && id != ROOT_ID
    ensures s.keys[id] != "" && s.keys[id] != ROOT
  {
    assert HasParent(s, s.keys[id]);
  }

  /** Moving a key moves its parent along. */
  lemma ParentMovesAlong(key: string, top: string, target: string)
    requires top != "" && target != "" && Below(key, top)
    ensures ParentCanon(key).Some? && InSubtree(ParentCanon(key).value, top)
    ensures ParentCanon(MovedKey(key, top, target)) == Some(MovedKey(ParentCanon(key).value, top, target))
  {
    ParentStaysInSubtree(key, top);
    var rest := key[|top|..];
    assert key == top + rest && rest[0] == '\\';
    ParentBelow(top, rest);
    ParentBelow(target, rest);
    assert (top + rest[..LastSlash(rest).value])[|top|..] == rest[..LastSlash(rest).value];
  }

  /** The parent of a moving node moves too: it is not the node being replaced. */
  lemma MovingParent(s: Shape, id: NodeId, target: string, a: NodeId)
    requires Proper(s) && id in s.keys && id != ROOT_ID && ParentStays(s, id, target)
    requires a in Moving(s, id, target) && a != id && a != ROOT_ID
    ensures HasParent(s, s.keys[a]) && Below(s.keys[a], s.keys[id])
    ensures s.byPath[ParentCanon(s.keys[a]).value] in Moving(s, id, target)
  {
    var top := s.keys[id];
    NonRootKey(s, id);
    assert HasParent(s, s.keys[a]);
    assert s.keys[a] != top;
    ParentStaysInSubtree(s.keys[a], top);
    if Below(target, top) {
      ParentStaysInSubtree(target, top);
      assert false;
    }
  }

  /** A moved node other than the top finds its moved parent. */
  lemma MovedChildHasParent(s: Shape, id: NodeId, target: string, order: seq<NodeId>, a: NodeId)
    requires Proper(s) && id in s.keys && id != ROOT_ID && target != "" && ParentStays(s, id, target)
    requires Enumerates(order, Moving(s, id, target)) && Exact(Renamed(s, id, target, order))
    requires a in Moving(s, id, target) && a != id && a != ROOT_ID
    ensures HasParent(Renamed(s, id, target, order), Renamed(s, id, target, order).keys[a])
  {
    var r, top := Renamed(s, id, target, order), s.keys[id];
    NonRootKey(s, id);
    FinalKeys(s, id, target, order);
    MovingParent(s, id, target, a);
    ParentMovesAlong(s.keys[a], top, target);
    var v := s.byPath[ParentCanon(s.keys[a]).value];
    assert r.keys[v] == MovedKey(s.keys[v], top, target);
  }

  /** A node that stays finds its old parent, or the renamed node in place of a replaced one. */
  lemma StayingNodeHasParent(s: Shape, id: NodeId, target: string, order: seq<NodeId>, u: NodeId)
    requires Proper(s) && id in s.keys && id != ROOT_ID && RenameFits(s, id, target)
    requires Enumerates(order, Moving(s, id, target)) && Exact(Renamed(s, id, target, order))
    requires u in Vacated(s, id, target).keys && u !in Moving(s, id, target) && u != ROOT_ID
    ensures HasParent(Renamed(s, id, target, order), Renamed(s, id, target, order).keys[u])
  {
    var base, r, top := Vacated(s, id, target), Renamed(s, id, target, order), s.keys[id];
    VacatedExact(s, id, target);
    FinalKeys(s, id, target, order);
    NonRootKey(s, id);
    assert HasParent(s, s.keys[u]);
    var pk := ParentCanon(s.keys[u]).value;
    var v := s.byPath[pk];
    if v in Moving(s, id, target) {
      ChildIsBelow(s.keys[u], top);
    } else if v in base.keys {
      assert r.keys[v] == pk;
    } else {
      assert pk == target;
      assert r.byPath[target] == id;
    }
  }

  lemma RootStays(s: Shape, id: NodeId, target: string)
    requires Proper(s) && id in s.keys && id != ROOT_ID && ParentCanon(target).Some?
    ensures ROOT_ID in Vacated(s, id, target).keys && ROOT_ID !in Moving(s, id, target)
  {
    NonRootKey(s, id);
  }

  lemma TopHasParent(s: Shape, id: NodeId, target: string, order: seq<NodeId>)
    requires Exact(s) && id in s.keys && ParentStays(s, id, target)
    requires Enumerates(order, Moving(s, id, target)) && Exact(Renamed(s, id, target, order))
    ensures HasParent(Renamed(s, id, target, order), target)
  {
    VacatedExact(s, id, target);
    FinalKeys(s, id, target, order);
    var p := ParentCanon(target).value;
    assert Renamed(s, id, target, order).keys[Vacated(s, id, target).byPath[p]] == p;
  }

  lemma RenameFitsSuffices(s: Shape, id: NodeId, target: string, order: seq<NodeId>)
    requires Proper(s) && id in s.keys && id != ROOT_ID && target != "" && RenameFits(s, id, target)
    requires Enumerates(order, Moving(s, id, target))
    ensures Proper(Renamed(s, id, target, order))
  {
    var r := Renamed(s, id, target, order);
    VacatedExact(s, id, target);
    IndexStaysExact(Vacated(s, id, target), order, s.keys[id], target);
    FinalKeys(s, id, target, order);
    RootStays(s, id, target);
    forall i | i in r.keys && i != ROOT_ID ensures HasParent(r, r.keys[i]) {
      if i == id {
        TopHasParent(s, id, target, order);
      } else if i in Moving(s, id, target) {
        MovedChildHasParent(s, id, target, order, i);
      } else {
        StayingNodeHasParent(s, id, target, order, i);
      }
    }
  }

  // Necessity.

  lemma ParentStaysNeeded(s: Shape, id: NodeId, target: string, order: seq<NodeId>)
    requires Exact(s) && id in s.keys && id != ROOT_ID && Enumerates(order, Moving(s, id, target))
    requires Proper(Renamed(s, id, target, order))
    ensures ParentStays(s, id, target)
  {
    var r, base := Renamed(s, id, target, order), Vacated(s, id, target);
    VacatedExact(s, id, target);
    FinalKeys(s, id, target, order);
    assert HasParent(r, r.keys[id]);
    var p := ParentCanon(target).value;
    var q := r.byPath[p];
    assert r.keys[q] == p;
    assert q !in Moving(s, id, target);
    assert base.keys[q] == p;
  }

  lemma AdoptsNeeded(s: Shape, id: NodeId, target: string, order: seq<NodeId>)
    requires Exact(s) && id in s.keys && Enumerates(order, Moving(s, id, target))
    requires Proper(Renamed(s, id, target, order))
    ensures Adopts(s, id, target)
  {
    var r, base := Renamed(s, id, target, order), Vacated(s, id, target);
    FinalKeys(s, id, target, order);
    forall u | u in base.keys && u != ROOT_ID && u !in Moving(s, id, target) && ParentCanon(base.keys[u]) == Some(target)
      ensures id in base.dirs
    {
      assert HasParent(r, r.keys[u]);
      assert r.byPath[target] == id;
    }
  }

  /** Turn `j` drops a key; if neither it nor a later turn enters it, the key stays out of the index. */
  lemma {:induction false} DroppedStaysOut(
    base: Shape, order: seq<NodeId>, j: nat, key: string, old': string, new': string)
    requires Movable(base, order, old')
    requires j < |order| && base.keys[order[j]] == key
    requires forall i :: j <= i < |order| ==> MovedKey(base.keys[order[i]], old', new') != key
    ensures key !in MoveAll(base, order, old', new').byPath
    decreases |order|
  {
    var m := |order| - 1;
    if j < m {
      DroppedStaysOut(base, order[..m], j, key, old', new');
      NotEntered(base, order, key, old', new');
    }
  }

  lemma NotEntered(base: Shape, order: seq<NodeId>, key: string, old': string, new': string)
    requires order != [] && Movable(base, order, old')
    requires key !in MoveAll(base, order[..|order| - 1], old', new').byPath
    requires MovedKey(base.keys[order[|order| - 1]], old', new') != key
    ensures key !in MoveAll(base, order, old', new').byPath
  {
  }

  /** If the moved key of `a` is the original key of `b`, moving `a` before `b` loses it. */
  lemma ClashLosesKey(base: Shape, a: NodeId, b: NodeId, rest: seq<NodeId>, old': string, new': string)
    requires Exact(base) && a in Subtree(base, old') && b in Subtree(base, old')
    requires Enumerates([a, b] + rest, Subtree(base, old'))
    requires MovedKey(base.keys[a], old', new') == base.keys[b]
    ensures base.keys[b] !in MoveAll(base, [a, b] + rest, old', new').byPath
  {
    var order, key := [a, b] + rest, base.keys[b];
    assert order[0] == a && order[1] == b;
    forall i | 1 <= i < |order| ensures MovedKey(base.keys[order[i]], old', new') != key {
      MovedKeysDiffer(base, a, order[i], old', new');
    }
    DroppedStaysOut(base, order, 1, key, old', new');
  }

  ghost predicate ProperInEveryOrder(s: Shape, id: NodeId, target: string)
    requires Exact(s) && id in s.keys
  {
    forall order :: Enumerates(order, Moving(s, id, target)) ==> Proper(Renamed(s, id, target, order))
  }

  /** A clash breaks the index in some order. */
  lemma ClashBreaks(s: Shape, id: NodeId, target: string, a: NodeId, b: NodeId)
    requires Exact(s) && id in s.keys && a != b
    requires a in Moving(s, id, target) && b in Vacated(s, id, target).keys
    requires MovedKey(Vacated(s, id, target).keys[a], s.keys[id], target) == Vacated(s, id, target).keys[b]
    ensures !ProperInEveryOrder(s, id, target)
  {
    var base, top := Vacated(s, id, target), s.keys[id];
    VacatedExact(s, id, target);
    var rest := EnumerationOf(Moving(s, id, target) - {a, b});
    var order := (if b in Moving(s, id, target) then [a, b] else [a]) + rest;
    assert Enumerates(order, Moving(s, id, target));
    FinalKeys(s, id, target, order);
    if b in Moving(s, id, target) {
      ClashLosesKey(base, a, b, rest, top, target);
    }
    assert !Exact(Renamed(s, id, target, order));
  }

  lemma NoClashNeeded(s: Shape, id: NodeId, target: string)
    requires Exact(s) && id in s.keys && ProperInEveryOrder(s, id, target)
    ensures NoClash(Vacated(s, id, target), s.keys[id], target)
  {
    var base, top := Vacated(s, id, target), s.keys[id];
    forall a, b | a in Subtree(base, top) && b in base.keys && a != b
      ensures MovedKey(base.keys[a], top, target) != base.keys[b]
    {
      if MovedKey(base.keys[a], top, target) == base.keys[b] {
        ClashBreaks(s, id, target, a, b);
      }
    }
  }

  // ----- the theorem -----

  /** Moving a subtree to its own key, as a change of case does, leaves the shape alone. */
  lemma {:induction false} MoveToSameKey(s: Shape, order: seq<NodeId>, top: string)
    requires Exact(s)
    requires Movable(s, order, top)
    requires forall i :: 0 <= i < |order| ==> InSubtree(s.keys[order[i]], top)
    ensures MoveAll(s, order, top, top) == s
  {
    if order != [] {
      var n := |order| - 1;
      MoveToSameKey(s, order[..n], top);
      var key := s.keys[order[n]];
      assert key == top + key[|top|..];
      assert s.byPath == (s.byPath - {key})[key := order[n]];
    }
  }

  /**
   For every proper tree, node and target: the rename loop yields a proper tree in every order
   of visiting the subtree if and only if `RenameFits`.
   */
  lemma RenameKeepsTreeIff(s: Shape, id: NodeId, target: string)
    requires Proper(s) && id in s.keys && target != ""
    ensures ProperInEveryOrder(s, id, target) <==> RenameFits(s, id, target)
  {
    VacatedExact(s, id, target);
    if id == ROOT_ID {
      if target == ROOT {
        forall order | Enumerates(order, Moving(s, id, target)) ensures Proper(Renamed(s, id, target, order)) {
          MoveToSameKey(s, order, s.keys[id]);
        }
      } else {
        var order := EnumerationOf(Moving(s, id, target));
        FinalKeys(s, id, target, order);
        assert !Proper(Renamed(s, id, target, order));
      }
    } else if RenameFits(s, id, target) {
      forall order | Enumerates(order, Moving(s, id, target)) ensures Proper(Renamed(s, id, target, order)) {
        RenameFitsSuffices(s, id, target, order);
      }
    } else if ProperInEveryOrder(s, id, target) {
      var order := EnumerationOf(Moving(s, id, target));
      ParentStaysNeeded(s, id, target, order);
      AdoptsNeeded(s, id, target, order);
      NoClashNeeded(s, id, target);
      assert false;
    }
  }

  /** When it fits, the order of the visits does not show in the result. */
  lemma OrderDoesNotMatter(s: Shape, id: NodeId, target: string, one: seq<NodeId>, two: seq<NodeId>)
    requires Proper(s) && id in s.keys && target != "" && RenameFits(s, id, target)
    requires Enumerates(one, Moving(s, id, target)) && Enumerates(two, Moving(s, id, target))
    ensures Renamed(s, id, target, one) == Renamed(s, id, target, two)
  {
    RenameKeepsTreeIff(s, id, target);
    FinalKeysAgree(s, id, target, one, two);
    ExactDeterminesIndex(Renamed(s, id, target, one), Renamed(s, id, target, two));
  }

  lemma FinalKeysAgree(s: Shape, id: NodeId, target: string, one: seq<NodeId>, two: seq<NodeId>)
    requires Exact(s) && id in s.keys
    requires Enumerates(one, Moving(s, id, target)) && Enumerates(two, Moving(s, id, target))
    ensures Renamed(s, id, target, one).keys == Renamed(s, id, target, two).keys
    ensures Renamed(s, id, target, one).dirs == Renamed(s, id, target, two).dirs
  {
    FinalKeys(s, id, target, one);
    FinalKeys(s, id, target, two);
  }

  lemma ExactDeterminesIndex(a: Shape, b: Shape)
    requires Exact(a) && Exact(b) && a.keys == b.keys
    ensures a.byPath == b.byPath
  {
    forall k | k in a.byPath ensures k in b.byPath && a.byPath[k] == b.byPath[k] {
      assert a.keys[a.byPath[k]] == k;
    }
    forall k | k in b.byPath ensures k in a.byPath {
      assert b.keys[b.byPath[k]] == k;
    }
  }

  // ----- the everyday case -----

  /** A descendant implies a live node at the top and a child directly below it. */
  lemma {:induction false} DescendantImpliesChild(s: Shape, b: NodeId, top: string)
    requires Proper(s) && b in s.keys && top != "" && Below(s.keys[b], top)
    ensures top in s.byPath && HasChild(s, top)
    decreases |s.keys[b]|
  {
    assert b != ROOT_ID;
    assert HasParent(s, s.keys[b]);
    ParentStaysInSubtree(s.keys[b], top);
    var p := ParentCanon(s.keys[b]).value;
    if p != top {
      DescendantImpliesChild(s, s.byPath[p], top);
    }
  }

  /** A key that moves from strictly below `top` lands strictly below `target`. */
  lemma MovedBelow(key: string, top: string, target: string)
    requires Below(key, top)
    ensures Below(MovedKey(key, top, target), target)
  {
    var moved := MovedKey(key, top, target);
    assert key[|top|] == '\\';
    assert moved[|target|] == key[|top|];
    assert moved[..|target| + 1] == target + "\\";
  }

  /** A childless or vacant target has nothing below it. */
  lemma NothingBelow(s: Shape, id: NodeId, target: string, b: NodeId)
    requires Proper(s) && id in s.keys && target != ""
    requires target in s.byPath && s.byPath[target] != id ==> !HasChild(s, target)
    requires b in s.keys && Below(s.keys[b], target)
    ensures s.keys[id] == target
  {
    DescendantImpliesChild(s, b, target);
  }

  lemma SimpleTargetNoClash(s: Shape, id: NodeId, target: string)
    requires Proper(s) && id in s.keys && id != ROOT_ID && target != ""
    requires target in s.byPath && s.byPath[target] != id ==> !HasChild(s, target)
    ensures NoClash(Vacated(s, id, target), s.keys[id], target)
  {
    var base, top := Vacated(s, id, target), s.keys[id];
    VacatedExact(s, id, target);
    forall a, b | a in Subtree(base, top) && b in base.keys && a != b
      ensures MovedKey(base.keys[a], top, target) != base.keys[b]
    {
      MovesClear(s, id, target, a, b);
    }
  }

  lemma MovesClear(s: Shape, id: NodeId, target: string, a: NodeId, b: NodeId)
    requires Proper(s) && id in s.keys && target != "" && a in s.keys && a != b
    requires target in s.byPath && s.byPath[target] != id ==> !HasChild(s, target)
    requires InSubtree(s.keys[a], s.keys[id]) && b in Vacated(s, id, target).keys && b in s.keys
    ensures MovedKey(s.keys[a], s.keys[id], target) != s.keys[b]
  {
    var key, top := s.keys[a], s.keys[id];
    if MovedKey(key, top, target) == s.keys[b] {
      if key == top {
        assert MovedKey(key, top, target) == target;
        VacantTarget(s, id, target, b);
      } else {
        MovedBelow(key, top, target);
        NothingBelow(s, id, target, b);
        MoveToSelf(key, top);
      }
    }
  }

  /** After vacating, only the renamed node itself can have the target key. */
  lemma VacantTarget(s: Shape, id: NodeId, target: string, b: NodeId)
    requires Exact(s) && id in s.keys && b in Vacated(s, id, target).keys && s.keys[b] == target
    ensures b == id
  {
    assert s.byPath[target] == b;
  }

  lemma MoveToSelf(key: string, top: string)
    requires Below(key, top)
    ensures MovedKey(key, top, top) == key
  {
    assert key == key[..|top|] + key[|top|..];
  }

  /** A target that is free, the node itself, or childless, in a live directory outside the subtree. */
  lemma SimpleTargetFits(s: Shape, id: NodeId, target: string)
    requires Proper(s) && id in s.keys && id != ROOT_ID && target != "" && ParentStays(s, id, target)
    requires target in s.byPath && s.byPath[target] != id ==> !HasChild(s, target)
    ensures RenameFits(s, id, target)
  {
    var base, top := Vacated(s, id, target), s.keys[id];
    VacatedExact(s, id, target);
    NonRootKey(s, id);
    SimpleTargetNoClash(s, id, target);
    forall u | u in base.keys && u != ROOT_ID && u !in Moving(s, id, target) && ParentCanon(base.keys[u]) == Some(target)
      ensures id in base.dirs
    {
      assert HasParent(s, s.keys[u]);
      if target == top {
        ChildIsBelow(s.keys[u], top);
      }
    }
  }
}
