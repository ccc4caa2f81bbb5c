/** Renames on the Clave Disk that go wrong, at concrete trees that create reaches. */
module DiskCases {
  import opened Common
  import opened DiskPaths
  import opened DiskTree
  import S = DiskShape

  /** The key of a short ASCII name with nothing to trim. */
  lemma PlainKey(name: string, key: string)
    requires name != "" && name[|name| - 1] != '\\' && key == Upper(name)
    ensures Canon(name) == key
  {
    CanonUnique(name, |name|);
    assert name[..|name|] == name;
  }

  lemma RootKey()
    ensures Canon(ROOT) == ROOT
  {
    assert Upper(ROOT) == ROOT;
  }

  lemma ParentAt(key: string, i: nat)
    requires |key| > 1 && i < |key| && key[i] == '\\' && forall j :: i < j < |key| ==> key[j] != '\\'
    ensures ParentCanon(key) == Some(if i == 0 then ROOT else key[..i])
  {
  }

  /** Node `i` is a directory stored under `name` and found under `key`. */
  predicate DirAt(t: Tree, i: NodeId, name: string, key: string) {
    && i in t.nodes && t.nodes[i].name == name && t.nodes[i].isDir && Canon(name) == key
    && key in t.byPath && t.byPath[key] == i
  }

  /** Creating a directory whose parent directory is live. */
  lemma CreateDir(t: Tree, name: string, key: string, parent: string, p: NodeId)
    requires WellFormed(t) && Canon(name) == key && key !in t.byPath && ParentCanon(key) == Some(parent)
    requires parent in t.byPath && t.byPath[parent] == p && p in t.nodes && t.nodes[p].isDir
    ensures WellFormed(Created(t, name, true))
    ensures Created(t, name, true) ==
            Tree(t.nodes[t.nextId := Node(name, true, [], 0)], t.byPath[key := t.nextId], t.nextId + 1)
  {
    CreateKeeps(t, name, true);
  }

  /** `one` directly below the root and `two` directly below `one`, both directories. */
  function Chain(one: string, two: string): Tree { Created(Created(FRESH, one, true), two, true) }

  ghost predicate IsChain(t: Tree, one: string, key1: string, two: string, key2: string) {
    && t.nextId == 4 && t.nodes.Keys == {ROOT_ID, 2, 3} && t.byPath.Keys == {ROOT, key1, key2}
    && DirAt(t, ROOT_ID, ROOT, ROOT) && DirAt(t, 2, one, key1) && DirAt(t, 3, two, key2)
  }

  lemma ChainIs(one: string, key1: string, two: string, key2: string, t: Tree)
    requires Canon(one) == key1 && Canon(two) == key2 && key1 != ROOT && key2 != ROOT && key1 != key2
    requires t == Tree(FRESH.nodes[2 := Node(one, true, [], 0)][3 := Node(two, true, [], 0)],
                       FRESH.byPath[key1 := 2][key2 := 3], 4)
    ensures IsChain(t, one, key1, two, key2)
  {
    RootKey();
  }

  lemma ChainTree(one: string, key1: string, two: string, key2: string)
    requires Canon(one) == key1 && Canon(two) == key2 && key1 != ROOT && key2 != ROOT && key1 != key2
    requires ParentCanon(key1) == Some(ROOT) && ParentCanon(key2) == Some(key1)
    ensures WellFormed(Chain(one, two)) && IsChain(Chain(one, two), one, key1, two, key2)
  {
    FreshIsWellFormed();
    CreateDir(FRESH, one, key1, ROOT, ROOT_ID);
    CreateDir(Created(FRESH, one, true), two, key2, key1, 2);
    ChainIs(one, key1, two, key2, Chain(one, two));
  }

  // ----- a directory stored with a trailing separator -----

  lemma TrailingKeys()
    ensures Canon("\\A\\") == "\\A" && Canon("\\A\\x") == "\\A\\X"
    ensures Canon("\\B") == "\\B" && Canon("\\Bx") == "\\BX"
    ensures ParentCanon("\\A") == Some(ROOT) && ParentCanon("\\A\\X") == Some("\\A")
    ensures "\\B" + "\\A\\x"[3..] == "\\Bx" && Below("\\A\\X", "\\A")
  {
    CanonUnique("\\A\\", 2);
    assert "\\A\\"[..2] == "\\A" && Upper("\\A") == "\\A";
    PlainKey("\\A\\x", "\\A\\X");
    PlainKey("\\B", "\\B");
    PlainKey("\\Bx", "\\BX");
    ParentAt("\\A", 0);
    ParentAt("\\A\\X", 2);
    assert "\\A\\X"[..2] == "\\A" && "\\A" + "\\" <= "\\A\\X";
  }

  /** Renaming the upper of two directories to a free name moves the lower one as the loop cuts it. */
  lemma ChainMoves(t: Tree, one: string, key1: string, two: string, key2: string, newName: string, order: seq<NodeId>)
    requires IsChain(t, one, key1, two, key2) && Below(key2, key1) && |key1| > 1 && |one| <= |two|
    requires Canon(newName) !in t.byPath && S.Enumerates(order, Visited(t, 2, newName))
    ensures Sliceable(t, 2, newName) && 3 in Visited(t, 2, newName)
    ensures RenameDone(t, 2, newName, order).nodes[3].name == newName + two[|one|..]
  {
    assert !InSubtree(ROOT, key1);
    assert 3 in Visited(t, 2, newName);
    VisitedName(t, 2, newName, order, 3);
  }

  /** Renaming the directory stored as `\A\` to `\B` takes its child `x` to `\Bx`, next to it. */
  lemma TrailingSeparatorLosesChild(order: seq<NodeId>)
    requires 2 in Chain("\\A\\", "\\A\\x").nodes
    requires S.Enumerates(order, Visited(Chain("\\A\\", "\\A\\x"), 2, "\\B"))
    ensures var t := Chain("\\A\\", "\\A\\x");
            && WellFormed(t) && Sliceable(t, 2, "\\B") && 3 in Visited(t, 2, "\\B")
            && RenameDone(t, 2, "\\B", order).nodes[3].name == "\\Bx"
            && Canon("\\Bx") == "\\BX"
  {
    TrailingKeys();
    ChainTree("\\A\\", "\\A", "\\A\\x", "\\A\\X");
    ChainMoves(Chain("\\A\\", "\\A\\x"), "\\A\\", "\\A", "\\A\\x", "\\A\\X", "\\B", order);
  }

  /** With more trailing separators the child's name is too short to be cut, and the rename aborts. */
  lemma LongTopAborts(newName: string)
    requires Canon(newName) !in [ROOT, "\\A", "\\A\\X"]
    ensures var t := Chain("\\A\\\\\\", "\\A\\x");
            WellFormed(t) && 2 in t.nodes && !Sliceable(t, 2, newName)
  {
    TrailingKeys();
    CanonUnique("\\A\\\\\\", 2);
    assert "\\A\\\\\\"[..2] == "\\A" && Upper("\\A") == "\\A";
    ChainTree("\\A\\\\\\", "\\A", "\\A\\x", "\\A\\X");
    ChainCut(Chain("\\A\\\\\\", "\\A\\x"), "\\A\\\\\\", "\\A", "\\A\\x", "\\A\\X", newName);
  }

  lemma ChainCut(t: Tree, one: string, key1: string, two: string, key2: string, newName: string)
    requires IsChain(t, one, key1, two, key2) && Below(key2, key1) && |one| > |two| && Canon(newName) !in t.byPath
    ensures !Sliceable(t, 2, newName)
  {
    assert 3 in Visited(t, 2, newName);
  }

  // ----- the root -----

  /** Deleting the root of an empty disk takes it away. */
  lemma EmptyRootIsDeleted()
    ensures WellFormed(FRESH) && !WellFormed(Deleted(FRESH, ROOT_ID)) && ROOT_ID !in Deleted(FRESH, ROOT_ID).nodes
  {
    FreshIsWellFormed();
    RootKey();
    DeleteKeepsIff(FRESH, ROOT_ID);
  }

  // ----- a move onto the parent -----

  /** One turn of the loop. */
  lemma OneTurn(base: Tree, i: NodeId, oldName: string, newName: string)
    requires i in base.nodes && |oldName| <= |base.nodes[i].name|
    ensures Movable(base, [i], |oldName|)
    ensures MoveNodes(base, [i], oldName, newName) ==
            MoveNode(base, i, base.nodes[i].name, newName + base.nodes[i].name[|oldName|..])
  {
    assert [i][..0] == [];
  }

  /** Two turns of the loop. */
  lemma TwoTurns(base: Tree, i: NodeId, j: NodeId, oldName: string, newName: string)
    requires i in base.nodes && |oldName| <= |base.nodes[i].name|
    requires j in base.nodes && |oldName| <= |base.nodes[j].name|
    ensures Movable(base, [i, j], |oldName|)
    ensures MoveNodes(base, [i, j], oldName, newName) ==
            MoveNode(MoveNode(base, i, base.nodes[i].name, newName + base.nodes[i].name[|oldName|..]),
                     j, base.nodes[j].name, newName + base.nodes[j].name[|oldName|..])
  {
    OneTurn(base, i, oldName, newName);
    assert [i, j][..1] == [i];
  }

  /** A descendant whose moved name is the old name of the top, visited before the top, leaves the index. */
  lemma DeepFirstLosesEntry(base: Tree, top: NodeId, deep: NodeId, newName: string)
    requires top in base.nodes && deep in base.nodes && top != deep && |base.nodes[top].name| <= |base.nodes[deep].name|
    requires newName + base.nodes[deep].name[|base.nodes[top].name|..] == base.nodes[top].name
    requires Canon(newName) != Canon(base.nodes[top].name)
    ensures var oldName := base.nodes[top].name;
            var u := MoveNodes(base, [deep, top], oldName, newName);
            && deep in u.nodes && u.nodes[deep].name == oldName && Canon(oldName) !in u.byPath
  {
    var oldName := base.nodes[top].name;
    TwoTurns(base, deep, top, oldName, newName);
    assert newName + oldName[|oldName|..] == newName;
  }

  /** The same two nodes in the other order: nothing is lost. */
  lemma TopFirstKeepsEntry(base: Tree, top: NodeId, deep: NodeId, newName: string)
    requires top in base.nodes && deep in base.nodes && top != deep && |base.nodes[top].name| <= |base.nodes[deep].name|
    requires newName + base.nodes[deep].name[|base.nodes[top].name|..] == base.nodes[top].name
    ensures var oldName := base.nodes[top].name;
            var u := MoveNodes(base, [top, deep], oldName, newName);
            && deep in u.nodes && u.nodes[deep].name == oldName
            && Canon(oldName) in u.byPath && u.byPath[Canon(oldName)] == deep
  {
    TwoTurns(base, top, deep, base.nodes[top].name, newName);
  }

  function Chain3(one: string, two: string, three: string): Tree { Created(Chain(one, two), three, true) }

  ghost predicate IsChain3(t: Tree, one: string, two: string, three: string) {
    && t.nodes.Keys == {ROOT_ID, 2, 3, 4}
    && DirAt(t, ROOT_ID, ROOT, ROOT) && DirAt(t, 2, one, one) && DirAt(t, 3, two, two) && DirAt(t, 4, three, three)
  }

  lemma Chain3Is(t: Tree, one: string, two: string, three: string)
    requires IsChain(t, one, one, two, two) && Canon(three) == three && three !in [ROOT, one, two]
    ensures IsChain3(Tree(t.nodes[4 := Node(three, true, [], 0)], t.byPath[three := 4], 5), one, two, three)
  {
  }

  lemma Chain3Tree(one: string, two: string, three: string)
    requires Canon(one) == one && Canon(two) == two && Canon(three) == three
    requires one != ROOT && two != ROOT && three != ROOT && one != two && one != three && two != three
    requires ParentCanon(one) == Some(ROOT) && ParentCanon(two) == Some(one) && ParentCanon(three) == Some(two)
    ensures WellFormed(Chain3(one, two, three)) && IsChain3(Chain3(one, two, three), one, two, three)
  {
    ChainTree(one, one, two, two);
    CreateDir(Chain(one, two), three, three, two, 3);
    Chain3Is(Chain(one, two), one, two, three);
  }

  /** Renaming the middle directory onto the upper one visits the middle and the lower one. */
  lemma Chain3Visits(t: Tree, one: string, two: string, three: string)
    requires IsChain3(t, one, two, three) && Below(three, two) && 1 < |one| < |two|
    ensures Visited(t, 3, one) == {3, 4} && Sliceable(t, 3, one)
    ensures var base := Vacated(t, 3, one);
            && 3 in base.nodes && base.nodes[3] == t.nodes[3] && 4 in base.nodes && base.nodes[4] == t.nodes[4]
  {
    var base := Vacated(t, 3, one);
    assert base.nodes == t.nodes - {2};
    assert base.nodes[ROOT_ID].name == ROOT && !InSubtree(ROOT, two);
    assert InSubtree(Canon(base.nodes[3].name), two) && InSubtree(Canon(base.nodes[4].name), two);
  }

  lemma DeepFirst(t: Tree, one: string, two: string, three: string)
    requires IsChain3(t, one, two, three) && Below(three, two) && 1 < |one| < |two| && one + three[|two|..] == two
    ensures Sliceable(t, 3, one) && S.Enumerates([4, 3], Visited(t, 3, one))
    ensures var u := RenameDone(t, 3, one, [4, 3]);
            4 in u.nodes && u.nodes[4].name == two && two !in u.byPath
  {
    Chain3Visits(t, one, two, three);
    DeepFirstLosesEntry(Vacated(t, 3, one), 3, 4, one);
  }

  lemma TopFirst(t: Tree, one: string, two: string, three: string)
    requires IsChain3(t, one, two, three) && Below(three, two) && 1 < |one| < |two| && one + three[|two|..] == two
    ensures Sliceable(t, 3, one) && S.Enumerates([3, 4], Visited(t, 3, one))
    ensures var v := RenameDone(t, 3, one, [3, 4]);
            4 in v.nodes && v.nodes[4].name == two && two in v.byPath && v.byPath[two] == 4
  {
    Chain3Visits(t, one, two, three);
    TopFirstKeepsEntry(Vacated(t, 3, one), 3, 4, one);
  }

  /**
   `\A`, `\A\B` and `\A\B\B`, the middle one renamed onto `\A`: visiting the lowest first leaves
   it out of the index, visiting it last does not.
   */
  lemma MoveOntoParentLosesEntry()
    ensures var t := Chain3("\\A", "\\A\\B", "\\A\\B\\B");
            && WellFormed(t) && 3 in t.nodes && Sliceable(t, 3, "\\A")
            && S.Enumerates([4, 3], Visited(t, 3, "\\A")) && S.Enumerates([3, 4], Visited(t, 3, "\\A"))
            && (var u := RenameDone(t, 3, "\\A", [4, 3]);
                4 in u.nodes && u.nodes[4].name == "\\A\\B" && "\\A\\B" !in u.byPath)
            && (var v := RenameDone(t, 3, "\\A", [3, 4]);
                4 in v.nodes && v.nodes[4].name == "\\A\\B" && "\\A\\B" in v.byPath && v.byPath["\\A\\B"] == 4)
  {
    PlainKey("\\A", "\\A");
    PlainKey("\\A\\B", "\\A\\B");
    PlainKey("\\A\\B\\B", "\\A\\B\\B");
    ParentAt("\\A", 0);
    ParentAt("\\A\\B", 2);
    ParentAt("\\A\\B\\B", 4);
    assert "\\A\\B"[..2] == "\\A" && "\\A\\B\\B"[..4] == "\\A\\B";
    assert "\\A\\B" + "\\" <= "\\A\\B\\B";
    assert "\\A" + "\\A\\B\\B"[4..] == "\\A\\B";
    Chain3Tree("\\A", "\\A\\B", "\\A\\B\\B");
    DeepFirst(Chain3("\\A", "\\A\\B", "\\A\\B\\B"), "\\A", "\\A\\B", "\\A\\B\\B");
    TopFirst(Chain3("\\A", "\\A\\B", "\\A\\B\\B"), "\\A", "\\A\\B", "\\A\\B\\B");
  }
}
