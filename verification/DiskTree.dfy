/**
 The node table of the Clave Disk and its path index: create, delete and subtree rename, and
 exactly when each of them leaves a proper tree.
 */
module DiskTree {
  import opened Common
  import opened Cipher
  import opened DiskPaths
  import S = DiskShape

  type NodeId = S.NodeId

  const ROOT_ID := S.ROOT_ID

  /** One node; for files `data` is ciphertext in whole sectors and `size` the logical length. */
  datatype Node = Node(name: string, isDir: bool, data: seq<Byte>, size: nat)

  datatype Tree = Tree(nodes: map<NodeId, Node>, byPath: map<string, NodeId>, nextId: NodeId)

  datatype Status =
    | Success | NameCollision | NameInvalid | PathNotFound | NotADirectory | EndOfFile | DiskFull

  /** Keys, directories and index of a tree. */
  function ShapeOf(t: Tree): S.Shape {
    S.Shape((map i | i in t.nodes :: Canon(t.nodes[i].name)), (set i | i in t.nodes && t.nodes[i].isDir), t.byPath)
  }

  /**
   Index and table agree and every node but the root hangs under a live directory; ids stay
   below the next one.
   */
  ghost predicate WellFormed(t: Tree) {
    S.Proper(ShapeOf(t)) && forall i :: i in t.nodes ==> i < t.nextId
  }

  // ----- create and delete -----

  const FRESH := Tree(map[ROOT_ID := Node(ROOT, true, [], 0)], map[ROOT := ROOT_ID], 2)

  lemma FreshIsWellFormed()
    ensures WellFormed(FRESH)
  {
    assert Upper(ROOT) == ROOT;
    assert ShapeOf(FRESH) == S.Shape(map[ROOT_ID := ROOT], {ROOT_ID}, map[ROOT := ROOT_ID]);
  }

  function CreateStatus(t: Tree, key: string): Status {
    if key in t.byPath then NameCollision
    else
      match ParentCanon(key)
      case None => NameInvalid
      case Some(p) =>
        if p !in t.byPath then PathNotFound
        else if t.byPath[p] in t.nodes && t.nodes[t.byPath[p]].isDir then Success
        else NotADirectory
  }

  function Created(t: Tree, name: string, isDir: bool): Tree {
    if CreateStatus(t, Canon(name)) != Success then t
    else Tree(t.nodes[t.nextId := Node(name, isDir, [], 0)], t.byPath[Canon(name) := t.nextId], t.nextId + 1)
  }

  lemma CreatedShape(t: Tree, name: string, isDir: bool)
    requires CreateStatus(t, Canon(name)) == Success
    ensures ShapeOf(Created(t, name, isDir)) == S.Added(ShapeOf(t), t.nextId, Canon(name), isDir)
  {
    var a, b := ShapeOf(Created(t, name, isDir)), S.Added(ShapeOf(t), t.nextId, Canon(name), isDir);
    assert a.keys == b.keys;
    assert a.dirs == b.dirs;
  }

  /** Creating keeps the tree, for every name. */
  lemma CreateKeeps(t: Tree, name: string, isDir: bool)
    requires WellFormed(t)
    ensures WellFormed(Created(t, name, isDir))
  {
    var key := Canon(name);
    if CreateStatus(t, key) == Success {
      assert S.HasParent(ShapeOf(t), key);
      assert t.nextId !in ShapeOf(t).keys;
      S.AddKeeps(ShapeOf(t), t.nextId, key, isDir);
      CreatedShape(t, name, isDir);
    }
  }

  /** A live node with this key. */
  ghost predicate Has(t: Tree, key: string) { exists i :: i in t.nodes && Canon(t.nodes[i].name) == key }

  ghost predicate HasDir(t: Tree, key: string) {
    exists i :: i in t.nodes && Canon(t.nodes[i].name) == key && t.nodes[i].isDir
  }

  lemma IndexFinds(t: Tree, key: string)
    requires WellFormed(t)
    ensures Has(t, key) <==> key in t.byPath
    ensures key in t.byPath ==> t.byPath[key] in t.nodes && Canon(t.nodes[t.byPath[key]].name) == key
    ensures HasDir(t, key) <==> key in t.byPath && t.nodes[t.byPath[key]].isDir
  {
    var s := ShapeOf(t);
    forall i | i in t.nodes ensures Canon(t.nodes[i].name) in t.byPath && t.byPath[Canon(t.nodes[i].name)] == i {
      assert s.keys[i] in s.byPath;
    }
    if key in t.byPath {
      assert s.keys[s.byPath[key]] == key;
    }
  }

  /** `u` is `t` with one more node, and nothing else. */
  ghost predicate PlusNode(t: Tree, u: Tree, id: NodeId, node: Node) {
    && id !in t.nodes && u.nodes.Keys == t.nodes.Keys + {id} && u.nodes[id] == node
    && (forall i :: i in t.nodes ==> u.nodes[i] == t.nodes[i])
    && (forall k :: k in u.byPath <==> k in t.byPath || k == Canon(node.name))
    && Canon(node.name) !in t.byPath && u.byPath[Canon(node.name)] == id
    && (forall k :: k in t.byPath ==> u.byPath[k] == t.byPath[k])
  }

  /**
   In a well-formed tree: creating succeeds if and only if no node has the key and a live directory
   has its parent's key; otherwise the status says what is missing.
   */
  lemma CreateStatusMeans(t: Tree, key: string)
    requires WellFormed(t)
    ensures var (status, parent) := (CreateStatus(t, key), ParentCanon(key));
            && (status == Success <==> !Has(t, key) && parent.Some? && HasDir(t, parent.value))
            && (status == NameCollision <==> Has(t, key))
            && (status == NameInvalid <==> !Has(t, key) && parent.None?)
            && (status == PathNotFound <==> !Has(t, key) && parent.Some? && !Has(t, parent.value))
            && (status == NotADirectory <==>
                  !Has(t, key) && parent.Some? && Has(t, parent.value) && !HasDir(t, parent.value))
  {
    IndexFinds(t, key);
    if ParentCanon(key).Some? {
      IndexFinds(t, ParentCanon(key).value);
    }
  }

  /** Creating adds just one empty node under a new id, or changes nothing. */
  lemma CreateMeans(t: Tree, name: string, isDir: bool)
    requires t.nextId !in t.nodes
    ensures var u := Created(t, name, isDir);
            if CreateStatus(t, Canon(name)) == Success
            then PlusNode(t, u, t.nextId, Node(name, isDir, [], 0)) && u.nextId == t.nextId + 1
            else u == t
  {
  }

  /** A name that differs in case and trailing separators only is taken. */
  lemma OtherSpellingCollides(t: Tree, i: NodeId, name: string, stem: string, other: string)
    requires WellFormed(t) && i in t.nodes && IsStem(name, stem) && IsStem(t.nodes[i].name, other)
    requires SameSpelling(stem, other)
    ensures CreateStatus(t, Canon(name)) == NameCollision
  {
    SameKeyIff(name, stem, t.nodes[i].name, other);
    IndexFinds(t, Canon(name));
  }

  /** No live node has this node as parent. */
  ghost predicate Childless(t: Tree, id: NodeId)
    requires id in t.nodes
  {
    forall i :: i in t.nodes ==> ParentCanon(Canon(t.nodes[i].name)) != Some(Canon(t.nodes[id].name))
  }

  /** `u` is `t` without one node and its key, and otherwise the same. */
  ghost predicate MinusNode(t: Tree, u: Tree, id: NodeId)
    requires id in t.nodes
  {
    var key := Canon(t.nodes[id].name);
    && u.nodes.Keys == t.nodes.Keys - {id} && (forall i :: i in u.nodes ==> u.nodes[i] == t.nodes[i])
    && u.byPath.Keys == t.byPath.Keys - {key} && (forall k :: k in u.byPath ==> u.byPath[k] == t.byPath[k])
    && u.nextId == t.nextId
  }

  /**
   Deleting a live node takes away just that node and its key if and only if it is a file or has no
   child; otherwise it changes nothing.  A stale id changes nothing.
   */
  lemma DeleteMeans(t: Tree, id: NodeId)
    ensures id !in t.nodes ==> Deleted(t, id) == t
    ensures id in t.nodes ==>
              if !t.nodes[id].isDir || Childless(t, id) then MinusNode(t, Deleted(t, id), id) else Deleted(t, id) == t
  {
    if id in t.nodes {
      var key := Canon(t.nodes[id].name);
      if HasChildren(t, key) {
        var i :| i in t.nodes && IsChild(Canon(t.nodes[i].name), key);
        assert ParentCanon(Canon(t.nodes[i].name)) == Some(key);
      } else {
        forall i | i in t.nodes ensures ParentCanon(Canon(t.nodes[i].name)) != Some(key) {
          assert !IsChild(Canon(t.nodes[i].name), key);
        }
      }
    }
  }

  /** The directory that holds a node. */
  lemma HolderOf(t: Tree, id: NodeId) returns (p: NodeId)
    requires WellFormed(t) && id in t.nodes && id != ROOT_ID
    ensures ParentCanon(Canon(t.nodes[id].name)).Some?
    ensures p in t.nodes && p != id && t.nodes[p].isDir
    ensures Canon(t.nodes[p].name) == ParentCanon(Canon(t.nodes[id].name)).value
    ensures Canon(t.nodes[p].name) in t.byPath && t.byPath[Canon(t.nodes[p].name)] == p
  {
    var s, key := ShapeOf(t), Canon(t.nodes[id].name);
    assert s.keys[id] == key && S.HasParent(s, key);
    p := s.byPath[ParentCanon(key).value];
    assert s.keys[p] == ParentCanon(key).value;
  }

  /** What was deleted, other than the root, can be created again under the same name. */
  lemma DeletedCanReturn(t: Tree, id: NodeId)
    requires WellFormed(t) && id in t.nodes && id != ROOT_ID && (!t.nodes[id].isDir || Childless(t, id))
    ensures CreateStatus(Deleted(t, id), Canon(t.nodes[id].name)) == Success
  {
    DeleteMeans(t, id);
    var p := HolderOf(t, id);
    HeldIsFree(t, Deleted(t, id), id, p);
  }

  lemma HeldIsFree(t: Tree, u: Tree, id: NodeId, p: NodeId)
    requires id in t.nodes && MinusNode(t, u, id) && p in t.nodes && p != id && t.nodes[p].isDir
    requires ParentCanon(Canon(t.nodes[id].name)) == Some(Canon(t.nodes[p].name))
    requires Canon(t.nodes[p].name) in t.byPath && t.byPath[Canon(t.nodes[p].name)] == p
    ensures CreateStatus(u, Canon(t.nodes[id].name)) == Success
  {
    assert p in u.nodes && u.nodes[p] == t.nodes[p];
    assert Canon(t.nodes[p].name) in u.byPath.Keys;
  }

  /** A directory with children is left alone. */
  predicate Deletable(t: Tree, id: NodeId) {
    id in t.nodes && !(t.nodes[id].isDir && HasChildren(t, Canon(t.nodes[id].name)))
  }

  predicate HasChildren(t: Tree, dirKey: string) {
    exists i :: i in t.nodes && IsChild(Canon(t.nodes[i].name), dirKey)
  }

  predicate IsChild(key: string, dirKey: string) { key != dirKey && ParentCanon(key) == Some(dirKey) }

  function Deleted(t: Tree, id: NodeId): Tree {
    if !Deletable(t, id) then t
    else t.(nodes := t.nodes - {id}, byPath := t.byPath - {Canon(t.nodes[id].name)})
  }

  lemma HasChildrenShape(t: Tree, dirKey: string)
    ensures HasChildren(t, dirKey) <==> S.HasChild(ShapeOf(t), dirKey)
  {
    var s := ShapeOf(t);
    if HasChildren(t, dirKey) {
      var i :| i in t.nodes && IsChild(Canon(t.nodes[i].name), dirKey);
      assert i in s.keys && s.keys[i] != dirKey;
    }
    if S.HasChild(s, dirKey) {
      var i :| i in s.keys && s.keys[i] != dirKey && ParentCanon(s.keys[i]) == Some(dirKey);
      assert IsChild(Canon(t.nodes[i].name), dirKey);
    }
  }

  lemma WithoutShape(t: Tree, i: NodeId, key: string)
    ensures ShapeOf(t.(nodes := t.nodes - {i}, byPath := t.byPath - {key})) ==
            S.Shape(ShapeOf(t).keys - {i}, ShapeOf(t).dirs - {i}, t.byPath - {key})
  {
    var a := ShapeOf(t.(nodes := t.nodes - {i}, byPath := t.byPath - {key}));
    assert a.keys == ShapeOf(t).keys - {i};
    assert a.dirs == ShapeOf(t).dirs - {i};
  }

  /** Deleting keeps the tree, unless it takes a childless root away. */
  lemma DeleteKeepsIff(t: Tree, id: NodeId)
    requires WellFormed(t)
    ensures WellFormed(Deleted(t, id)) <==> (id == ROOT_ID ==> HasChildren(t, ROOT))
  {
    var s := ShapeOf(t);
    HasChildrenShape(t, ROOT);
    if Deletable(t, id) {
      HasChildrenShape(t, s.keys[id]);
      if id !in s.dirs {
        S.FilesAreChildless(s, id);
      }
      S.RemoveKeepsIff(s, id);
      WithoutShape(t, id, s.keys[id]);
    }
  }

  // ----- rename -----

  /** The node that a rename replaces. */
  function Victim(t: Tree, id: NodeId, target: string): Option<NodeId> {
    if target in t.byPath && t.byPath[target] != id then Some(t.byPath[target]) else None
  }

  function Vacated(t: Tree, id: NodeId, target: string): Tree {
    match Victim(t, id, target)
    case None => t
    case Some(other) => t.(nodes := t.nodes - {other}, byPath := t.byPath - {target})
  }

  /** The nodes a rename visits. */
  function Affected(t: Tree, top: string): set<NodeId> {
    set i | i in t.nodes && InSubtree(Canon(t.nodes[i].name), top)
  }

  /** One turn of the loop, on names; `base` holds the original names. */
  function MoveNode(t: Tree, i: NodeId, original: string, moved: string): Tree
    requires i in t.nodes
  {
    t.(nodes := t.nodes[i := t.nodes[i].(name := moved)], byPath := (t.byPath - {Canon(original)})[Canon(moved) := i])
  }

  /** Every visited name is at least as long as the name of the top. */
  ghost predicate Movable(t: Tree, order: seq<NodeId>, n: nat) {
    forall i :: 0 <= i < |order| ==> order[i] in t.nodes && n <= |t.nodes[order[i]].name|
  }

  ghost function MoveNodes(base: Tree, order: seq<NodeId>, oldName: string, newName: string): (r: Tree)
    requires Movable(base, order, |oldName|)
    ensures r.nodes.Keys == base.nodes.Keys
  {
    if order == [] then base
    else
      var n := |order| - 1;
      var original := base.nodes[order[n]].name;
      MoveNode(MoveNodes(base, order[..n], oldName, newName), order[n], original, newName + original[|oldName|..])
  }

  /**
   The rename loop cuts a visited name at the length of the stored name of the top, while its key
   was found by the key of the top.  Below a key without doubled separators, the name put together
   again has the moved key exactly when old and new name carry the same surplus, at most one separator.
   */
  lemma MovedNameKeyIff(oldName: string, newName: string, name: string)
    requires Below(Canon(name), Canon(oldName)) && |oldName| <= |name|
    requires |Canon(name)| > |Canon(oldName)| + 1 && Canon(name)[|Canon(oldName)| + 1] != '\\'
    ensures Canon(newName + name[|oldName|..]) == S.MovedKey(Canon(name), Canon(oldName), Canon(newName)) <==>
            Surplus(oldName) == Surplus(newName) <= 1
  {
    SurplusFacts(oldName);
    if Surplus(oldName) == Surplus(newName) <= 1 {
      SameSurplusFits(oldName, newName, name);
    } else if |oldName| < |Canon(name)| {
      OtherSurplusMisses(oldName, newName, name);
    } else {
      AllCutOff(oldName, newName, name);
    }
  }

  /** The name up to its key, split where the key of the top ends. */
  lemma KeySplits(oldName: string, name: string)
    requires Below(Canon(name), Canon(oldName))
    ensures |Canon(oldName)| < |Canon(name)| <= |name| && name[|Canon(oldName)|] == '\\'
    ensures name[|Canon(name)| - 1] != '\\' && forall j :: |Canon(name)| <= j < |name| ==> name[j] == '\\'
    ensures Canon(name)[|Canon(oldName)|..] == Upper(name[|Canon(oldName)|..|Canon(name)|])
  {
    var n := |Canon(oldName)|;
    KeyEnd(oldName);
    assert Canon("") == ROOT;
    CanonFacts(name);
    assert Canon(name)[n] == '\\' == UpperChar(name[n]);
    assert name[..|Canon(name)|][n..] == name[n..|Canon(name)|];
  }

  /** A name and its key differ by the surplus, which is separators. */
  lemma SurplusFacts(name: string)
    ensures Surplus(name) >= -1 && (Surplus(name) == -1 <==> name == "")
    ensures name != "" ==> Canon(name) == Upper(name[..|Canon(name)|])
    ensures forall j :: |Canon(name)| <= j < |name| ==> name[j] == '\\'
  {
    if name != "" {
      CanonFacts(name);
    }
  }

  /** Cutting one separator off the rest and finding it at the end of the new name. */
  lemma SameCut(newName: string, name: string, n: nat, at: nat, cut: nat)
    requires |newName| - n == cut - at && n <= |newName| <= n + 1 && cut <= |name| && at < |name|
    requires name[at] == '\\' && forall j :: n <= j < |newName| ==> newName[j] == '\\'
    ensures newName + name[cut..] == newName[..n] + name[at..]
  {
    if |newName| == n + 1 {
      assert newName == newName[..n] + [name[at]];
      assert name[at..] == [name[at]] + name[cut..];
    }
  }

  lemma SameSurplusFits(oldName: string, newName: string, name: string)
    requires Below(Canon(name), Canon(oldName)) && |oldName| <= |name|
    requires Surplus(oldName) == Surplus(newName) <= 1
    ensures Canon(newName + name[|oldName|..]) == S.MovedKey(Canon(name), Canon(oldName), Canon(newName))
  {
    SurplusFacts(oldName);
    SurplusFacts(newName);
    KeySplits(oldName, name);
    var at, key := |Canon(oldName)|, |Canon(name)|;
    if oldName == "" {
      assert newName + name[0..] == name;
      assert Canon(name) == Canon(oldName) + Canon(name)[at..];
    } else {
      var head := newName[..|Canon(newName)|];
      SameCut(newName, name, |head|, at, |oldName|);
      CanonOfJoin(head, name[at..], key - at);
      assert name[at..][..key - at] == name[at..key];
    }
  }

  lemma OtherSurplusMisses(oldName: string, newName: string, name: string)
    requires Below(Canon(name), Canon(oldName)) && |oldName| < |Canon(name)|
    requires |Canon(name)| > |Canon(oldName)| + 1 && Canon(name)[|Canon(oldName)| + 1] != '\\'
    requires !(Surplus(oldName) == Surplus(newName) <= 1)
    ensures |oldName| <= |name|
    ensures Canon(newName + name[|oldName|..]) != S.MovedKey(Canon(name), Canon(oldName), Canon(newName))
  {
    SurplusFacts(oldName);
    SurplusFacts(newName);
    KeySplits(oldName, name);
    var rest, m := name[|oldName|..], |Canon(name)| - |oldName|;
    CanonOfJoin(newName, rest, m);
    var got, meant := Upper(newName) + Upper(rest[..m]), S.MovedKey(Canon(name), Canon(oldName), Canon(newName));
    if Surplus(oldName) == Surplus(newName) {
      var at := |Canon(newName)| + 1;
      assert got[at] == UpperChar(newName[at]) == '\\';
      assert meant[at] == Canon(name)[|Canon(oldName)| + 1];
    } else {
      assert |got| != |meant|;
    }
  }

  /** A cut behind the key leaves only separators, and the new name alone. */
  lemma AllCutOff(oldName: string, newName: string, name: string)
    requires Below(Canon(name), Canon(oldName)) && |Canon(name)| <= |oldName| <= |name|
    ensures Canon(newName + name[|oldName|..]) == Canon(newName)
    ensures |S.MovedKey(Canon(name), Canon(oldName), Canon(newName))| > |Canon(newName)|
  {
    KeySplits(oldName, name);
    CanonOfSeparators(newName, name[|oldName|..]);
  }

  /** The node one level up from a key below `top`, when it is not `top` itself. */
  lemma NodeAbove(t: Tree, i: NodeId, top: string, rest: string) returns (p: NodeId)
    requires WellFormed(t) && i in t.nodes && top != "" && Canon(t.nodes[i].name) == top + rest
    requires |rest| > 1 && rest[0] == '\\' && LastSlash(rest).Some? && LastSlash(rest).value > 0
    ensures p in t.nodes && Canon(t.nodes[p].name) == top + rest[..LastSlash(rest).value]
  {
    var s := ShapeOf(t);
    assert s.keys[i] == top + rest;
    assert S.HasParent(s, s.keys[i]);
    ParentBelow(top, rest);
    p := s.byPath[top + rest[..LastSlash(rest).value]];
    assert s.keys[p] == top + rest[..LastSlash(rest).value];
  }

  /** Keys of a well-formed tree have no doubled separator below another key. */
  lemma {:induction false} NoDoubledSeparator(t: Tree, i: NodeId, top: string, rest: string)
    requires WellFormed(t) && i in t.nodes && top != "" && Canon(t.nodes[i].name) == top + rest
    requires rest != "" && rest[0] == '\\'
    ensures |rest| > 1 && rest[1] != '\\'
    decreases |rest|
  {
    KeyEnd(t.nodes[i].name);
    assert (top + rest)[|top| + |rest| - 1] == rest[|rest| - 1];
    LastSlashOfRest(top, rest);
    var j := LastSlash(rest).value;
    if j > 0 {
      var p := NodeAbove(t, i, top, rest);
      NoDoubledSeparator(t, p, top, rest[..j]);
    }
  }

  /** On keys, moving names that land on their moved keys is the loop on shapes. */
  lemma {:induction false} MoveNodesShape(base: Tree, order: seq<NodeId>, oldName: string, newName: string)
    requires Movable(base, order, |oldName|)
    requires forall i :: 0 <= i < |order| ==>
               order[i] in Affected(base, Canon(oldName)) && LandsRight(base.nodes[order[i]].name, oldName, newName)
    ensures MoveNodes(base, order, oldName, newName).nextId == base.nextId
    ensures S.Movable(ShapeOf(base), order, Canon(oldName))
    ensures ShapeOf(MoveNodes(base, order, oldName, newName)) ==
            S.MoveAll(ShapeOf(base), order, Canon(oldName), Canon(newName))
  {
    var s := ShapeOf(base);
    forall i | 0 <= i < |order| ensures |Canon(oldName)| <= |s.keys[order[i]]| {
      assert InSubtree(Canon(base.nodes[order[i]].name), Canon(oldName));
    }
    if order != [] {
      var n := |order| - 1;
      MoveNodesShape(base, order[..n], oldName, newName);
      var name := base.nodes[order[n]].name;
      var mid := MoveNodes(base, order[..n], oldName, newName);
      MoveNodeShape(mid, order[n], name, newName + name[|oldName|..]);
    }
  }

  /** The name that the loop gives has the key that the move is meant to give. */
  ghost predicate LandsRight(name: string, oldName: string, newName: string)
    requires |oldName| <= |name| && InSubtree(Canon(name), Canon(oldName))
  {
    Canon(newName + name[|oldName|..]) == S.MovedKey(Canon(name), Canon(oldName), Canon(newName))
  }

  lemma MoveNodeShape(t: Tree, i: NodeId, original: string, moved: string)
    requires i in t.nodes
    ensures ShapeOf(MoveNode(t, i, original, moved)) == S.MoveOne(ShapeOf(t), i, Canon(original), Canon(moved))
  {
    var a, b := ShapeOf(MoveNode(t, i, original, moved)), S.MoveOne(ShapeOf(t), i, Canon(original), Canon(moved));
    assert a.keys == b.keys;
    assert a.dirs == b.dirs;
  }

  // ----- the rename theorem, on trees -----

  /** The nodes a rename of `id` to `newName` visits, in some order. */
  function Visited(t: Tree, id: NodeId, newName: string): set<NodeId>
    requires id in t.nodes
  {
    Affected(Vacated(t, id, Canon(newName)), Canon(t.nodes[id].name))
  }

  /**
   No visited name is shorter than the stored name of the top, so that it can be cut; otherwise
   the original aborts.
   */
  ghost predicate Sliceable(t: Tree, id: NodeId, newName: string)
    requires id in t.nodes
  {
    forall i :: i in Visited(t, id, newName) ==> |t.nodes[id].name| <= |t.nodes[i].name|
  }

  /** The tree after an accepted rename. */
  ghost function RenameDone(t: Tree, id: NodeId, newName: string, order: seq<NodeId>): Tree
    requires id in t.nodes && Sliceable(t, id, newName) && S.Enumerates(order, Visited(t, id, newName))
  {
    MoveNodes(Vacated(t, id, Canon(newName)), order, t.nodes[id].name, newName)
  }

  /** A rename changes names and nothing else, and only of the visited nodes. */
  lemma {:induction false} NodesAfter(base: Tree, order: seq<NodeId>, oldName: string, newName: string, i: NodeId)
    requires Movable(base, order, |oldName|) && i in base.nodes
    ensures i in order ==> |oldName| <= |base.nodes[i].name|
    ensures MoveNodes(base, order, oldName, newName).nodes[i] ==
            if i in order then base.nodes[i].(name := newName + base.nodes[i].name[|oldName|..]) else base.nodes[i]
  {
    if order != [] {
      NodesAfter(base, order[..|order| - 1], oldName, newName, i);
    }
  }

  lemma VacatedKeys(t: Tree, id: NodeId, target: string)
    requires WellFormed(t) && id in t.nodes
    ensures ShapeOf(Vacated(t, id, target)) == S.Vacated(ShapeOf(t), id, target)
    ensures id in Vacated(t, id, target).nodes && Vacated(t, id, target).nodes[id] == t.nodes[id]
  {
    if target in t.byPath && t.byPath[target] != id {
      WithoutShape(t, t.byPath[target], target);
    }
  }

  lemma AffectedShape(t: Tree, top: string)
    ensures Affected(t, top) == S.Subtree(ShapeOf(t), top)
  {
  }

  lemma VacatedShape(t: Tree, id: NodeId, target: string)
    requires WellFormed(t) && id in t.nodes
    ensures ShapeOf(Vacated(t, id, target)) == S.Vacated(ShapeOf(t), id, target)
    ensures id in Vacated(t, id, target).nodes && Vacated(t, id, target).nodes[id] == t.nodes[id]
    ensures Affected(Vacated(t, id, target), Canon(t.nodes[id].name)) == S.Moving(ShapeOf(t), id, target)
  {
    VacatedKeys(t, id, target);
    AffectedShape(Vacated(t, id, target), Canon(t.nodes[id].name));
  }

  /** Every visited node ends at its moved key: the subtree keeps its shape below the new name. */
  ghost predicate AllLandRight(t: Tree, id: NodeId, newName: string)
    requires id in t.nodes && Sliceable(t, id, newName)
  {
    forall i :: i in Visited(t, id, newName) ==> LandsRight(t.nodes[i].name, t.nodes[id].name, newName)
  }

  /** Old and new name carry the same surplus, at most one separator; without descendants any will do. */
  ghost predicate NamesMatch(t: Tree, id: NodeId, newName: string)
    requires id in t.nodes
  {
    (exists i :: i in Visited(t, id, newName) && i != id) ==> Surplus(t.nodes[id].name) == Surplus(newName) <= 1
  }

  lemma TopLandsRight(oldName: string, newName: string)
    ensures LandsRight(oldName, oldName, newName)
  {
    assert newName + oldName[|oldName|..] == newName;
  }

  /** Another visited node lies below the top, and one separator leads to it. */
  lemma DescendantKey(t: Tree, id: NodeId, newName: string, i: NodeId)
    requires WellFormed(t) && id in t.nodes && i in Visited(t, id, newName) && i != id
    ensures var top, key := Canon(t.nodes[id].name), Canon(t.nodes[i].name);
            Below(key, top) && |key| > |top| + 1 && key[|top| + 1] != '\\'
  {
    var top, key := Canon(t.nodes[id].name), Canon(t.nodes[i].name);
    assert ShapeOf(t).keys[i] != ShapeOf(t).keys[id];
    KeyEnd(t.nodes[id].name);
    assert key == top + key[|top|..];
    NoDoubledSeparator(t, i, top, key[|top|..]);
  }

  /** It lands right exactly when the surpluses match. */
  lemma DescendantLandsRightIff(t: Tree, id: NodeId, newName: string, i: NodeId)
    requires WellFormed(t) && id in t.nodes && Sliceable(t, id, newName)
    requires i in Visited(t, id, newName) && i != id
    ensures LandsRight(t.nodes[i].name, t.nodes[id].name, newName) <==>
            Surplus(t.nodes[id].name) == Surplus(newName) <= 1
  {
    DescendantKey(t, id, newName, i);
    MovedNameKeyIff(t.nodes[id].name, newName, t.nodes[i].name);
  }

  /** Names that match can always be cut. */
  lemma MatchingNamesAreSliceable(t: Tree, id: NodeId, newName: string)
    requires WellFormed(t) && id in t.nodes && NamesMatch(t, id, newName)
    ensures Sliceable(t, id, newName)
  {
    forall i | i in Visited(t, id, newName) ensures |t.nodes[id].name| <= |t.nodes[i].name| {
      if i != id {
        DescendantKey(t, id, newName, i);
        SurplusFacts(t.nodes[i].name);
      }
    }
  }

  /** In a well-formed tree a rename carries every descendant along if and only if the names match. */
  lemma AllLandRightIff(t: Tree, id: NodeId, newName: string)
    requires WellFormed(t) && id in t.nodes && Sliceable(t, id, newName)
    ensures AllLandRight(t, id, newName) <==> NamesMatch(t, id, newName)
  {
    TopLandsRight(t.nodes[id].name, newName);
    forall i | i in Visited(t, id, newName) && i != id
      ensures LandsRight(t.nodes[i].name, t.nodes[id].name, newName) <==>
              Surplus(t.nodes[id].name) == Surplus(newName) <= 1
    {
      DescendantLandsRightIff(t, id, newName, i);
    }
  }

  /** On keys, an accepted rename whose names land right is the loop on shapes. */
  lemma RenameDoneShape(t: Tree, id: NodeId, newName: string, order: seq<NodeId>)
    requires WellFormed(t) && id in t.nodes && Sliceable(t, id, newName) && AllLandRight(t, id, newName)
    requires S.Enumerates(order, Visited(t, id, newName))
    ensures S.Enumerates(order, S.Moving(ShapeOf(t), id, Canon(newName)))
    ensures ShapeOf(RenameDone(t, id, newName, order)) == S.Renamed(ShapeOf(t), id, Canon(newName), order)
    ensures RenameDone(t, id, newName, order).nextId == t.nextId
  {
    VacatedShape(t, id, Canon(newName));
    MoveNodesShape(Vacated(t, id, Canon(newName)), order, t.nodes[id].name, newName);
  }

  /** The rename did its job: a well-formed tree, with every visited node at its moved key. */
  ghost predicate RightInOrder(t: Tree, id: NodeId, newName: string, order: seq<NodeId>)
    requires id in t.nodes && Sliceable(t, id, newName) && S.Enumerates(order, Visited(t, id, newName))
  {
    var u := RenameDone(t, id, newName, order);
    && WellFormed(u)
    && forall i :: i in Visited(t, id, newName) ==>
         Canon(u.nodes[i].name) == S.MovedKey(Canon(t.nodes[i].name), Canon(t.nodes[id].name), Canon(newName))
  }

  ghost predicate RightInEveryOrder(t: Tree, id: NodeId, newName: string)
    requires id in t.nodes && Sliceable(t, id, newName)
  {
    forall order :: S.Enumerates(order, Visited(t, id, newName)) ==> RightInOrder(t, id, newName, order)
  }

  /** A visited node gets the name that the loop puts together. */
  lemma VisitedName(t: Tree, id: NodeId, newName: string, order: seq<NodeId>, i: NodeId)
    requires id in t.nodes && Sliceable(t, id, newName) && S.Enumerates(order, Visited(t, id, newName))
    requires i in Visited(t, id, newName)
    ensures RenameDone(t, id, newName, order).nodes[i].name == newName + t.nodes[i].name[|t.nodes[id].name|..]
  {
    NodesAfter(Vacated(t, id, Canon(newName)), order, t.nodes[id].name, newName, i);
  }

  lemma RightNeedsLanding(t: Tree, id: NodeId, newName: string)
    requires id in t.nodes && Sliceable(t, id, newName) && RightInEveryOrder(t, id, newName)
    ensures AllLandRight(t, id, newName)
  {
    var order := S.EnumerationOf(Visited(t, id, newName));
    assert RightInOrder(t, id, newName, order);
    forall i | i in Visited(t, id, newName) ensures LandsRight(t.nodes[i].name, t.nodes[id].name, newName) {
      VisitedName(t, id, newName, order, i);
    }
  }

  /** Nodes that land right are where they are meant to be, in every order. */
  lemma LandedKeys(t: Tree, id: NodeId, newName: string, order: seq<NodeId>)
    requires id in t.nodes && Sliceable(t, id, newName) && AllLandRight(t, id, newName)
    requires S.Enumerates(order, Visited(t, id, newName))
    ensures forall i :: i in Visited(t, id, newName) ==>
              Canon(RenameDone(t, id, newName, order).nodes[i].name) ==
              S.MovedKey(Canon(t.nodes[i].name), Canon(t.nodes[id].name), Canon(newName))
  {
    forall i | i in Visited(t, id, newName)
      ensures Canon(RenameDone(t, id, newName, order).nodes[i].name) ==
              S.MovedKey(Canon(t.nodes[i].name), Canon(t.nodes[id].name), Canon(newName))
    {
      VisitedName(t, id, newName, order, i);
      assert LandsRight(t.nodes[i].name, t.nodes[id].name, newName);
    }
  }

  lemma RenameKeepsIds(t: Tree, id: NodeId, newName: string, order: seq<NodeId>)
    requires id in t.nodes && Sliceable(t, id, newName) && S.Enumerates(order, Visited(t, id, newName))
    ensures RenameDone(t, id, newName, order).nodes.Keys <= t.nodes.Keys
  {
  }

  /** Once the names land right, only the shape decides. */
  lemma RightIffShape(t: Tree, id: NodeId, newName: string, order: seq<NodeId>)
    requires WellFormed(t) && id in t.nodes && Sliceable(t, id, newName) && AllLandRight(t, id, newName)
    requires S.Enumerates(order, Visited(t, id, newName))
    ensures S.Enumerates(order, S.Moving(ShapeOf(t), id, Canon(newName)))
    ensures RightInOrder(t, id, newName, order) <==> S.Proper(S.Renamed(ShapeOf(t), id, Canon(newName), order))
  {
    RenameDoneShape(t, id, newName, order);
    LandedKeys(t, id, newName, order);
    RenameKeepsIds(t, id, newName, order);
  }

  lemma SliceableRenameIff(t: Tree, id: NodeId, newName: string)
    requires WellFormed(t) && id in t.nodes && Sliceable(t, id, newName)
    ensures RightInEveryOrder(t, id, newName) <==>
            NamesMatch(t, id, newName) && S.RenameFits(ShapeOf(t), id, Canon(newName))
  {
    var s, target := ShapeOf(t), Canon(newName);
    AllLandRightIff(t, id, newName);
    if RightInEveryOrder(t, id, newName) {
      RightNeedsLanding(t, id, newName);
    }
    if AllLandRight(t, id, newName) {
      VacatedShape(t, id, target);
      KeyEnd(newName);
      forall order | S.Enumerates(order, Visited(t, id, newName))
        ensures RightInOrder(t, id, newName, order) <==> S.Proper(S.Renamed(s, id, target, order))
      {
        RightIffShape(t, id, newName, order);
      }
      S.RenameKeepsTreeIff(s, id, target);
    }
  }

  /**
   For every well-formed tree, live node and new name: the rename does not abort and leaves a
   well-formed tree with every descendant carried along, in whatever order its loop visits the
   subtree, if and only if the names match and the move fits.
   */
  lemma RenameKeepsTreeIff(t: Tree, id: NodeId, newName: string)
    requires WellFormed(t) && id in t.nodes
    ensures Sliceable(t, id, newName) && RightInEveryOrder(t, id, newName) <==>
            NamesMatch(t, id, newName) && S.RenameFits(ShapeOf(t), id, Canon(newName))
  {
    if NamesMatch(t, id, newName) {
      MatchingNamesAreSliceable(t, id, newName);
    }
    if Sliceable(t, id, newName) {
      SliceableRenameIff(t, id, newName);
    }
  }

  /** The nodes other than `id` that have the key of the new name: at most one in a well-formed tree. */
  ghost function Taken(t: Tree, id: NodeId, newName: string): set<NodeId> {
    set i | i in t.nodes && i != id && Canon(t.nodes[i].name) == Canon(newName)
  }

  /** A rename takes away exactly the other node that has the new name's key. */
  lemma RenameReplaces(t: Tree, id: NodeId, newName: string)
    requires WellFormed(t) && id in t.nodes
    ensures Victim(t, id, Canon(newName)).Some? <==> Taken(t, id, newName) != {}
    ensures Vacated(t, id, Canon(newName)).nodes == t.nodes - Taken(t, id, newName)
  {
    var s, key := ShapeOf(t), Canon(newName);
    IndexFinds(t, key);
    forall i | i in Taken(t, id, newName) ensures key in t.byPath && t.byPath[key] == i {
      assert s.keys[i] == key;
    }
    if Victim(t, id, key).Some? {
      assert t.byPath[key] in Taken(t, id, newName);
      assert Taken(t, id, newName) == {t.byPath[key]};
    }
  }
}
