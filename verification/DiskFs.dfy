/** The Clave Disk file system object, and what holds over every run of its operations. */
module DiskFs {
  import opened Common
  import opened Cipher
  import opened DiskPaths
  import opened DiskTree
  import opened DiskFile
  import S = DiskShape

  /** Every node's ciphertext is padded and within the per-file maximum. */
  ghost predicate FilesOk(t: Tree, maxSize: nat) {
    forall i :: i in t.nodes ==> Padded(t.nodes[i]) && t.nodes[i].size <= maxSize
  }

  /** The tree after a file operation on one node. */
  function FileOpDone(t: Tree, c: Xts, maxSize: nat, id: NodeId, op: FileOp): Tree
    requires id in t.nodes && Padded(t.nodes[id])
  {
    t.(nodes := t.nodes[id := NodeStep(c, maxSize, t.nodes[id], op).0])
  }

  /** A rename is refused, changing nothing, when the target is taken and must not be replaced. */
  predicate Refused(t: Tree, id: NodeId, newName: string, replace: bool) {
    Victim(t, id, Canon(newName)).Some? && !replace
  }

  /** In a well-formed tree a rename is refused exactly when another node has the key and must not be replaced. */
  lemma RefusedMeans(t: Tree, id: NodeId, newName: string, replace: bool)
    requires WellFormed(t) && id in t.nodes
    ensures Refused(t, id, newName, replace) <==> !replace && Taken(t, id, newName) != {}
    ensures !Refused(t, id, newName, replace) && !replace ==> Vacated(t, id, Canon(newName)) == t
  {
    RenameReplaces(t, id, newName);
  }

  lemma NextTurn(base: Tree, order: seq<NodeId>, i: NodeId, oldName: string, newName: string)
    requires Movable(base, order, |oldName|) && i in base.nodes && |oldName| <= |base.nodes[i].name|
    ensures Movable(base, order + [i], |oldName|)
    ensures MoveNodes(base, order + [i], oldName, newName) ==
            MoveNode(MoveNodes(base, order, oldName, newName), i, base.nodes[i].name,
                     newName + base.nodes[i].name[|oldName|..])
  {
    assert (order + [i])[..|order|] == order;
  }

  lemma OneMore(order: seq<NodeId>, affected: set<NodeId>, todo: set<NodeId>, i: NodeId)
    requires S.Enumerates(order, affected - todo) && i in todo && todo <= affected
    ensures S.Enumerates(order + [i], affected - (todo - {i}))
  {
    assert affected - (todo - {i}) == affected - todo + {i};
  }

  class ClaveDiskFs {
    var nodes: map<NodeId, Node>
    var byPath: map<string, NodeId>
    var nextId: NodeId
    const cipher: Xts
    const maxFileSize: nat

    function Value(): Tree
      reads this
    {
      Tree(nodes, byPath, nextId)
    }

    constructor (cipher: Xts, capacity: nat)
      ensures Value() == FRESH && this.cipher == cipher && maxFileSize == capacity
    {
      nodes, byPath, nextId := map[ROOT_ID := Node(ROOT, true, [], 0)], map[ROOT := ROOT_ID], 2;
      this.cipher, maxFileSize := cipher, capacity;
    }

    method Create(name: string, isDir: bool) returns (r: Result<NodeId, Status>)
      modifies this
      ensures Value() == Created(old(Value()), name, isDir)
      ensures var status := CreateStatus(old(Value()), Canon(name));
              r == if status == Success then Ok(old(nextId)) else Err(status)
      ensures r.Ok? && old(nextId) !in old(nodes) ==>
                PlusNode(old(Value()), Value(), r.value, Node(name, isDir, [], 0)) && nextId == r.value + 1
      ensures r.Err? ==> Value() == old(Value())
    {
      var key := ComputeCanon(name);
      if key in byPath {
        return Err(NameCollision);
      }
      var parent := ParentCanon(key);
      if parent.None? {
        return Err(NameInvalid);
      }
      if parent.value !in byPath {
        return Err(PathNotFound);
      }
      var p := byPath[parent.value];
      if p !in nodes || !nodes[p].isDir {
        return Err(NotADirectory);
      }
      var id := nextId;
      nextId := nextId + 1;
      nodes := nodes[id := Node(name, isDir, [], 0)];
      byPath := byPath[key := id];
      r := Ok(id);
    }

    /** Deletes on cleanup, unless the handle is stale or the directory has children. */
    method Cleanup(id: NodeId, delete: bool)
      modifies this
      ensures Value() == if delete then Deleted(old(Value()), id) else old(Value())
      ensures delete && id in old(nodes) && (!old(nodes)[id].isDir || Childless(old(Value()), id)) ==>
                MinusNode(old(Value()), Value(), id)
      ensures !delete || id !in old(nodes) || (old(nodes)[id].isDir && !Childless(old(Value()), id)) ==>
                Value() == old(Value())
    {
      DeleteMeans(Value(), id);
      if !delete || id !in nodes {
        return;
      }
      var key := ComputeCanon(nodes[id].name);
      if nodes[id].isDir && HasChildren(Value(), key) {
        return;
      }
      byPath := byPath - {key};
      nodes := nodes - {id};
    }

    /** Moves the node and its subtree; `order` is the order in which the table yielded them. */
    method Rename(id: NodeId, newName: string, replace: bool) returns (status: Status, ghost order: seq<NodeId>)
      requires id in nodes && (!Refused(Value(), id, newName, replace) ==> Sliceable(Value(), id, newName))
      modifies this
      ensures status == if Refused(old(Value()), id, newName, replace) then NameCollision else Success
      ensures status == NameCollision ==> Value() == old(Value())
      ensures status == Success ==>
                && S.Enumerates(order, Visited(old(Value()), id, newName))
                && Value() == RenameDone(old(Value()), id, newName, order)
    {
      order := [];
      var target := ComputeCanon(newName);
      if target in byPath && byPath[target] != id {
        if !replace {
          return NameCollision, [];
        }
        var other := byPath[target];
        byPath := byPath - {target};
        nodes := nodes - {other};
      }
      assert Value() == Vacated(old(Value()), id, target);
      var oldName := nodes[id].name;
      var oldKey := ComputeCanon(oldName);
      order := MoveSubtree(oldName, newName, Affected(Value(), oldKey));
      status := Success;
    }

    /** The rename loop over the affected nodes, in whatever order they come. */
    method MoveSubtree(oldName: string, newName: string, affected: set<NodeId>) returns (ghost order: seq<NodeId>)
      requires forall i :: i in affected ==> i in nodes && |oldName| <= |nodes[i].name|
      modifies this
      ensures S.Enumerates(order, affected) && Movable(old(Value()), order, |oldName|)
      ensures Value() == MoveNodes(old(Value()), order, oldName, newName)
    {
      order := [];
      var originals := map i | i in affected :: nodes[i].name;
      var todo := affected;
      ghost var base := Value();
      while todo != {}
        invariant todo <= affected && S.Enumerates(order, affected - todo)
        invariant Movable(base, order, |oldName|) && Value() == MoveNodes(base, order, oldName, newName)
        decreases |todo|
      {
        var i :| i in todo;
        var original := originals[i];
        var moved := newName + original[|oldName|..];
        NextTurn(base, order, i, oldName, newName);
        OneMore(order, affected, todo, i);
        MoveOne(i, original, moved);
        order := order + [i];
        todo := todo - {i};
      }
      assert affected - todo == affected;
    }

    /** One turn of the rename loop. */
    method MoveOne(id: NodeId, original: string, moved: string)
      requires id in nodes
      modifies this
      ensures Value() == MoveNode(old(Value()), id, original, moved)
    {
      byPath := (byPath - {Canon(original)})[Canon(moved) := id];
      nodes := nodes[id := nodes[id].(name := moved)];
    }

    /** Copies up to the buffer's length from `offset` on; the rest of the buffer stays. */
    method Read(id: NodeId, buffer: array<Byte>, offset: nat) returns (r: Result<nat, Status>)
      requires id in nodes && Padded(nodes[id])
      modifies buffer
      ensures match ReadFrom(Decrypt(cipher, nodes[id]), offset, buffer.Length)
              case Bytes(bytes) => r == Ok(|bytes|) && |bytes| <= buffer.Length
                                   && buffer[..] == bytes + old(buffer[..])[|bytes|..]
              case Failed(e) => r == Err(e) && buffer[..] == old(buffer[..])
              case _ => false
    {
      if offset >= nodes[id].size {
        return Err(EndOfFile);
      }
      var plain := Decrypt(cipher, nodes[id]);
      var n := Min(offset + buffer.Length, nodes[id].size) - offset;
      forall i | 0 <= i < n {
        buffer[i] := plain[offset + i];
      }
      assert buffer[..] == plain[offset..offset + n] + old(buffer[..])[n..];
      r := Ok(n);
    }

    method Write(id: NodeId, buffer: seq<Byte>, offset: nat, toEof: bool, constrained: bool) returns (r: Result<nat, Status>)
      requires id in nodes && Padded(nodes[id])
      modifies this
      ensures var op := FileOp.Write(buffer, offset, toEof, constrained);
              && Value() == FileOpDone(old(Value()), cipher, maxFileSize, id, op)
              && NodeStep(cipher, maxFileSize, old(nodes[id]), op).1 ==
                 (match r case Ok(n) => Count(n) case Err(e) => Failed(e))
    {
      assert nodes == nodes[id := nodes[id]];
      var plain := Decrypt(cipher, nodes[id]);
      var size := |plain|;
      var start := if toEof then size else offset;
      ghost var outcome := WriteTo(plain, maxFileSize, buffer, start, constrained);
      var written;
      if constrained {
        if start >= size {
          return Ok(0);
        }
        written := Min(start + |buffer|, size) - start;
        plain := Spliced(plain, start, buffer[..written]);
      } else {
        var end := start + |buffer|;
        if end > maxFileSize {
          return Err(DiskFull);
        }
        if end > |plain| {
          plain := Resize(plain, end);
        }
        plain := Spliced(plain, start, buffer);
        written := |buffer|;
      }
      assert outcome == (Some(plain), Count(written));
      nodes := nodes[id := Store(cipher, nodes[id], plain)];
      r := Ok(written);
    }

    method SetFileSize(id: NodeId, newSize: nat, allocation: bool) returns (r: Result<(), Status>)
      requires id in nodes && Padded(nodes[id])
      modifies this
      ensures Value() == FileOpDone(old(Value()), cipher, maxFileSize, id, SetSize(newSize, allocation))
      ensures r == if newSize > maxFileSize then Err(DiskFull) else Ok(())
    {
      assert nodes == nodes[id := nodes[id]];
      if newSize > maxFileSize {
        return Err(DiskFull);
      }
      var current := nodes[id].size;
      var plain := Decrypt(cipher, nodes[id]);
      if allocation {
        if newSize < current {
          nodes := nodes[id := Store(cipher, nodes[id], plain[..newSize])];
        }
      } else if newSize != current {
        nodes := nodes[id := Store(cipher, nodes[id], Resize(plain, newSize))];
      }
      r := Ok(());
    }

    method Overwrite(id: NodeId)
      requires id in nodes && Padded(nodes[id])
      modifies this
      ensures Value() == FileOpDone(old(Value()), cipher, maxFileSize, id, FileOp.Overwrite)
    {
      nodes := nodes[id := nodes[id].(data := [], size := 0)];
    }
  }

  // ----- every run of the file system -----

  datatype DiskOp =
    | CreateOp(name: string, isDir: bool)
    | DeleteOp(id: NodeId)
    | RenameOp(id: NodeId, newName: string, replace: bool, order: seq<NodeId>)
    | FileOpOn(id: NodeId, op: FileOp)

  /**
   What a caller has to respect for the disk to stay in order; the clauses for delete and rename
   are exact, by `DeleteKeepsIff` and `RenameKeepsTreeIff`.
   */
  ghost predicate Allowed(t: Tree, op: DiskOp) {
    match op
    case CreateOp(_, _) => true
    case DeleteOp(id) => id == ROOT_ID ==> HasChildren(t, ROOT)
    case RenameOp(id, newName, replace, order) =>
      && id in t.nodes
      && (!Refused(t, id, newName, replace) ==>
            && NamesMatch(t, id, newName) && S.Exact(ShapeOf(t)) && S.RenameFits(ShapeOf(t), id, Canon(newName))
            && S.Enumerates(order, Visited(t, id, newName)))
    case FileOpOn(id, _) => id in t.nodes
  }

  ghost function DiskStep(t: Tree, c: Xts, maxSize: nat, op: DiskOp): Tree
    requires InOrder(t, maxSize) && Allowed(t, op)
  {
    match op
    case CreateOp(name, isDir) => Created(t, name, isDir)
    case DeleteOp(id) => Deleted(t, id)
    case RenameOp(id, newName, replace, order) =>
      if Refused(t, id, newName, replace) then t
      else
        MatchingNamesAreSliceable(t, id, newName);
        RenameDone(t, id, newName, order)
    case FileOpOn(id, f) => FileOpDone(t, c, maxSize, id, f)
  }

  /** A file operation leaves names, directories and index alone. */
  lemma FileOpShape(t: Tree, i: NodeId, node: Node)
    requires i in t.nodes && node.name == t.nodes[i].name && node.isDir == t.nodes[i].isDir
    ensures ShapeOf(t.(nodes := t.nodes[i := node])) == ShapeOf(t)
  {
    var a, b := ShapeOf(t.(nodes := t.nodes[i := node])), ShapeOf(t);
    assert a.keys == b.keys;
    assert a.dirs == b.dirs;
  }

  lemma FileOpKeepsFiles(t: Tree, c: Xts, maxSize: nat, id: NodeId, op: FileOp)
    requires FilesOk(t, maxSize) && id in t.nodes
    ensures FilesOk(FileOpDone(t, c, maxSize, id, op), maxSize)
  {
    StepRefines(c, maxSize, t.nodes[id], op);
  }

  lemma FileOpKeeps(t: Tree, c: Xts, maxSize: nat, id: NodeId, op: FileOp)
    requires InOrder(t, maxSize) && id in t.nodes
    ensures InOrder(FileOpDone(t, c, maxSize, id, op), maxSize)
  {
    var node := NodeStep(c, maxSize, t.nodes[id], op).0;
    FileOpShape(t, id, node);
    FileOpKeepsFiles(t, c, maxSize, id, op);
    assert t.nodes[id := node].Keys == t.nodes.Keys;
  }

  /** A rename keeps the contents of every surviving node. */
  lemma RenameKeepsContents(t: Tree, id: NodeId, newName: string, order: seq<NodeId>, i: NodeId)
    requires id in t.nodes && Sliceable(t, id, newName) && S.Enumerates(order, Visited(t, id, newName))
    requires i in RenameDone(t, id, newName, order).nodes
    ensures i in t.nodes
    ensures RenameDone(t, id, newName, order).nodes[i] ==
            t.nodes[i].(name := RenameDone(t, id, newName, order).nodes[i].name)
  {
    NodesAfter(Vacated(t, id, Canon(newName)), order, t.nodes[id].name, newName, i);
  }

  lemma RenameKeepsDisk(t: Tree, maxSize: nat, id: NodeId, newName: string, order: seq<NodeId>)
    requires InOrder(t, maxSize) && id in t.nodes && NamesMatch(t, id, newName)
    requires S.RenameFits(ShapeOf(t), id, Canon(newName)) && S.Enumerates(order, Visited(t, id, newName))
    ensures Sliceable(t, id, newName) && InOrder(RenameDone(t, id, newName, order), maxSize)
  {
    RenameKeepsTreeIff(t, id, newName);
    assert RightInOrder(t, id, newName, order);
    RenameKeepsFiles(t, maxSize, id, newName, order);
  }

  ghost predicate InOrder(t: Tree, maxSize: nat) { WellFormed(t) && FilesOk(t, maxSize) }

  lemma CreateKeepsDisk(t: Tree, maxSize: nat, name: string, isDir: bool)
    requires InOrder(t, maxSize)
    ensures InOrder(Created(t, name, isDir), maxSize)
  {
    CreateKeeps(t, name, isDir);
  }

  lemma DeleteKeepsDisk(t: Tree, maxSize: nat, id: NodeId)
    requires InOrder(t, maxSize) && (id == ROOT_ID ==> HasChildren(t, ROOT))
    ensures InOrder(Deleted(t, id), maxSize)
  {
    DeleteKeepsIff(t, id);
  }

  lemma StepStaysInOrder(t: Tree, c: Xts, maxSize: nat, op: DiskOp)
    requires InOrder(t, maxSize) && Allowed(t, op)
    ensures InOrder(DiskStep(t, c, maxSize, op), maxSize)
  {
    match op {
      case CreateOp(name, isDir) => CreateKeepsDisk(t, maxSize, name, isDir);
      case DeleteOp(id) => DeleteKeepsDisk(t, maxSize, id);
      case RenameOp(id, newName, replace, order) =>
        if !Refused(t, id, newName, replace) {
          RenameKeepsDisk(t, maxSize, id, newName, order);
        }
      case FileOpOn(id, f) => FileOpKeeps(t, c, maxSize, id, f);
    }
  }

  lemma FreshDiskInOrder(maxSize: nat)
    ensures InOrder(FRESH, maxSize)
  {
    FreshIsWellFormed();
  }

  /**
   A run from a fresh disk; operations that are not allowed are left out.  Every run keeps index
   and table a tree and every file padded and within bounds.
   */
  ghost function DiskAfter(ops: seq<DiskOp>, c: Xts, maxSize: nat): (t: Tree)
    ensures InOrder(t, maxSize)
  {
    if ops == [] then FreshDiskInOrder(maxSize); FRESH
    else
      var t, op := DiskAfter(ops[..|ops| - 1], c, maxSize), ops[|ops| - 1];
      if Allowed(t, op) then StepStaysInOrder(t, c, maxSize, op); DiskStep(t, c, maxSize, op) else t
  }

  // ----- contents over mixed runs -----

  /** The plain bytes of every node. */
  ghost function Contents(t: Tree, c: Xts): map<NodeId, seq<Byte>>
    requires forall i :: i in t.nodes ==> Padded(t.nodes[i])
  {
    map i | i in t.nodes :: Decrypt(c, t.nodes[i])
  }

  /** The reference: what an operation does to a map of byte strings; `t` only says which nodes are concerned. */
  ghost function ContentsStep(t: Tree, m: map<NodeId, seq<Byte>>, maxSize: nat, op: DiskOp): map<NodeId, seq<Byte>> {
    match op
    case CreateOp(name, _) =>
      var parent := ParentCanon(Canon(name));
      if !Has(t, Canon(name)) && parent.Some? && HasDir(t, parent.value) then m[t.nextId := []] else m
    case DeleteOp(id) => if id in t.nodes && (!t.nodes[id].isDir || Childless(t, id)) then m - {id} else m
    case RenameOp(id, newName, replace, _) => if replace then m - Taken(t, id, newName) else m
    case FileOpOn(id, f) => if id in m then m[id := PlainStep(maxSize, m[id], f).0] else m
  }

  lemma SameContents(a: Tree, b: Tree, c: Xts)
    requires a.nodes.Keys == b.nodes.Keys
    requires forall i :: i in a.nodes ==> Padded(a.nodes[i])
    requires forall i :: i in b.nodes ==> a.nodes[i] == b.nodes[i].(name := a.nodes[i].name)
    ensures forall i :: i in b.nodes ==> Padded(b.nodes[i])
    ensures Contents(a, c) == Contents(b, c)
  {
    forall i | i in b.nodes ensures Padded(b.nodes[i]) && Decrypt(c, a.nodes[i]) == Decrypt(c, b.nodes[i]) {
      assert a.nodes[i] == b.nodes[i].(name := a.nodes[i].name);
    }
  }

  lemma RenameKeepsFiles(t: Tree, maxSize: nat, id: NodeId, newName: string, order: seq<NodeId>)
    requires FilesOk(t, maxSize) && id in t.nodes && Sliceable(t, id, newName)
    requires S.Enumerates(order, Visited(t, id, newName))
    ensures FilesOk(RenameDone(t, id, newName, order), maxSize)
  {
    var u := RenameDone(t, id, newName, order);
    forall i | i in u.nodes ensures Padded(u.nodes[i]) && u.nodes[i].size <= maxSize {
      RenameKeepsContents(t, id, newName, order, i);
    }
  }

  lemma RenameContents(t: Tree, c: Xts, maxSize: nat, id: NodeId, newName: string, order: seq<NodeId>)
    requires InOrder(t, maxSize) && id in t.nodes && Sliceable(t, id, newName)
    requires S.Enumerates(order, Visited(t, id, newName))
    ensures FilesOk(RenameDone(t, id, newName, order), maxSize)
    ensures Contents(RenameDone(t, id, newName, order), c) == Contents(t, c) - Taken(t, id, newName)
  {
    var u, base := RenameDone(t, id, newName, order), Vacated(t, id, Canon(newName));
    RenameKeepsFiles(t, maxSize, id, newName, order);
    forall i | i in base.nodes ensures u.nodes[i] == base.nodes[i].(name := u.nodes[i].name) {
      RenameKeepsContents(t, id, newName, order, i);
    }
    SameContents(u, base, c);
    VacatedContents(t, c, maxSize, id, newName);
  }

  /** The reference step of a rename that is not refused. */
  lemma RenameReference(t: Tree, m: map<NodeId, seq<Byte>>, maxSize: nat, op: DiskOp)
    requires op.RenameOp? && WellFormed(t) && op.id in t.nodes
    ensures ContentsStep(t, m, maxSize, op) ==
            if Refused(t, op.id, op.newName, op.replace) then m else m - Taken(t, op.id, op.newName)
  {
    RefusedMeans(t, op.id, op.newName, op.replace);
  }

  lemma RenameIsDone(t: Tree, c: Xts, maxSize: nat, op: DiskOp)
    requires InOrder(t, maxSize) && Allowed(t, op) && op.RenameOp? && !Refused(t, op.id, op.newName, op.replace)
    ensures Sliceable(t, op.id, op.newName)
    ensures DiskStep(t, c, maxSize, op) == RenameDone(t, op.id, op.newName, op.order)
  {
    MatchingNamesAreSliceable(t, op.id, op.newName);
  }

  lemma RenameOpContents(t: Tree, c: Xts, maxSize: nat, op: DiskOp)
    requires InOrder(t, maxSize) && Allowed(t, op) && op.RenameOp?
    ensures FilesOk(DiskStep(t, c, maxSize, op), maxSize)
    ensures Contents(DiskStep(t, c, maxSize, op), c) == ContentsStep(t, Contents(t, c), maxSize, op)
  {
    RenameReference(t, Contents(t, c), maxSize, op);
    if !Refused(t, op.id, op.newName, op.replace) {
      RenameIsDone(t, c, maxSize, op);
      RenameContents(t, c, maxSize, op.id, op.newName, op.order);
    }
  }

  lemma VacatedContents(t: Tree, c: Xts, maxSize: nat, id: NodeId, newName: string)
    requires InOrder(t, maxSize) && id in t.nodes
    ensures FilesOk(Vacated(t, id, Canon(newName)), maxSize)
    ensures Contents(Vacated(t, id, Canon(newName)), c) == Contents(t, c) - Taken(t, id, newName)
  {
    RenameReplaces(t, id, newName);
    FewerContents(t, Vacated(t, id, Canon(newName)), c, Taken(t, id, newName));
  }

  lemma FewerContents(t: Tree, u: Tree, c: Xts, gone: set<NodeId>)
    requires (forall i :: i in t.nodes ==> Padded(t.nodes[i])) && u.nodes == t.nodes - gone
    ensures Contents(u, c) == Contents(t, c) - gone
  {
  }

  lemma FileOpContents(t: Tree, c: Xts, maxSize: nat, id: NodeId, op: FileOp)
    requires FilesOk(t, maxSize) && id in t.nodes
    ensures FilesOk(FileOpDone(t, c, maxSize, id, op), maxSize)
    ensures Contents(FileOpDone(t, c, maxSize, id, op), c) ==
            ContentsStep(t, Contents(t, c), maxSize, FileOpOn(id, op))
  {
    FileOpKeepsFiles(t, c, maxSize, id, op);
    StepRefines(c, maxSize, t.nodes[id], op);
  }

  lemma CreateContents(t: Tree, c: Xts, maxSize: nat, name: string, isDir: bool)
    requires InOrder(t, maxSize)
    ensures FilesOk(Created(t, name, isDir), maxSize)
    ensures Contents(Created(t, name, isDir), c) == ContentsStep(t, Contents(t, c), maxSize, CreateOp(name, isDir))
  {
    CreateStatusMeans(t, Canon(name));
    CreatedContents(t, c, maxSize, name, isDir);
  }

  lemma CreatedContents(t: Tree, c: Xts, maxSize: nat, name: string, isDir: bool)
    requires FilesOk(t, maxSize) && t.nextId !in t.nodes
    ensures FilesOk(Created(t, name, isDir), maxSize)
    ensures Contents(Created(t, name, isDir), c) ==
            if CreateStatus(t, Canon(name)) == Success then Contents(t, c)[t.nextId := []] else Contents(t, c)
  {
    EmptyNode(c, name, isDir);
  }

  lemma EmptyNode(c: Xts, name: string, isDir: bool)
    ensures Padded(Node(name, isDir, [], 0)) && Decrypt(c, Node(name, isDir, [], 0)) == []
  {
  }

  lemma DeleteContents(t: Tree, c: Xts, maxSize: nat, id: NodeId)
    requires FilesOk(t, maxSize)
    ensures FilesOk(Deleted(t, id), maxSize)
    ensures Contents(Deleted(t, id), c) == ContentsStep(t, Contents(t, c), maxSize, DeleteOp(id))
  {
    DeleteMeans(t, id);
  }

  /** Each operation on the disk does to the contents what it does to a map of byte strings. */
  lemma StepContents(t: Tree, c: Xts, maxSize: nat, op: DiskOp)
    requires InOrder(t, maxSize) && Allowed(t, op)
    ensures FilesOk(DiskStep(t, c, maxSize, op), maxSize)
    ensures Contents(DiskStep(t, c, maxSize, op), c) == ContentsStep(t, Contents(t, c), maxSize, op)
  {
    match op {
      case CreateOp(name, isDir) => CreateContents(t, c, maxSize, name, isDir);
      case DeleteOp(id) => DeleteContents(t, c, maxSize, id);
      case RenameOp(_, _, _, _) => RenameOpContents(t, c, maxSize, op);
      case FileOpOn(id, f) => FileOpContents(t, c, maxSize, id, f);
    }
  }

  /** The byte strings after a run, computed on byte strings throughout. */
  ghost function PlainContents(ops: seq<DiskOp>, c: Xts, maxSize: nat): map<NodeId, seq<Byte>> {
    if ops == [] then map[ROOT_ID := []]
    else
      var n := |ops| - 1;
      var t, m := DiskAfter(ops[..n], c, maxSize), PlainContents(ops[..n], c, maxSize);
      if Allowed(t, ops[n]) then ContentsStep(t, m, maxSize, ops[n]) else m
  }

  /** Over every mixed run of creates, deletes, renames and file operations, files hold what byte strings would. */
  lemma {:induction false} RunContents(ops: seq<DiskOp>, c: Xts, maxSize: nat)
    ensures FilesOk(DiskAfter(ops, c, maxSize), maxSize)
    ensures Contents(DiskAfter(ops, c, maxSize), c) == PlainContents(ops, c, maxSize)
  {
    if ops != [] {
      var n := |ops| - 1;
      RunContents(ops[..n], c, maxSize);
      var t := DiskAfter(ops[..n], c, maxSize);
      if Allowed(t, ops[n]) {
        StepContents(t, c, maxSize, ops[n]);
      }
    } else {
      EmptyNode(c, ROOT, true);
    }
  }
}
