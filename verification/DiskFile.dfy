/**
 File contents on the Clave Disk: held as sector-padded ciphertext, behaving as plain byte
 strings with zero-filled gaps.
 */
module DiskFile {
  import opened Common
  import opened Cipher
  import opened DiskTree

  function RoundUp(n: nat): nat { (n + SECTOR - 1) / SECTOR * SECTOR }

  /** The stored length is the size rounded up to whole sectors. */
  predicate Padded(node: Node) { |node.data| == RoundUp(node.size) }

  /** Cut or zero-extend to `n` bytes. */
  function Resize(s: seq<Byte>, n: nat): (r: seq<Byte>)
    ensures |r| == n
  {
    if n <= |s| then s[..n] else s + seq(n - |s|, _ => 0)
  }

  /** The plaintext of a node, exactly `size` bytes. */
  function Decrypt(c: Xts, node: Node): (r: seq<Byte>)
    requires Padded(node)
    ensures |r| == node.size
  {
    DecryptArea(c, node.data, 0, |node.data| / SECTOR)[..node.size]
  }

  /** Encrypts a plaintext back into the node, padded with zeros. */
  function Store(c: Xts, node: Node, plain: seq<Byte>): (r: Node)
    ensures Padded(r) && r.size == |plain| && r.name == node.name && r.isDir == node.isDir
  {
    var padded := Resize(plain, RoundUp(|plain|));
    node.(data := EncryptArea(c, padded, 0, |padded| / SECTOR), size := |plain|)
  }

  lemma StoreDecrypts(c: Xts, node: Node, plain: seq<Byte>)
    ensures Decrypt(c, Store(c, node, plain)) == plain
  {
    var padded := Resize(plain, RoundUp(|plain|));
    DecryptUndoesEncrypt(c, padded, 0, |padded| / SECTOR);
  }

  // ----- the operations -----

  datatype FileOp =
    | Read(offset: nat, len: nat)
    | Write(buffer: seq<Byte>, at: nat, toEof: bool, constrained: bool)
    | SetSize(newSize: nat, allocation: bool)
    | Overwrite

  datatype FileReply = Bytes(bytes: seq<Byte>) | Count(n: nat) | Done | Failed(status: Status)

  function Min(a: nat, b: nat): nat { if a < b then a else b }

  function ReadFrom(plain: seq<Byte>, offset: nat, len: nat): FileReply {
    if offset >= |plain| then Failed(EndOfFile)
    else Bytes(plain[offset..Min(offset + len, |plain|)])
  }

  /** The buffer copied over the bytes from `start` on. */
  function Spliced(s: seq<Byte>, start: nat, part: seq<Byte>): (r: seq<Byte>)
    requires start + |part| <= |s|
    ensures |r| == |s|
  {
    s[..start] + part + s[start + |part|..]
  }

  /** The plaintext to store back, if any, and the answer. */
  function WriteTo(plain: seq<Byte>, maxSize: nat, buffer: seq<Byte>, start: nat, constrained: bool)
    : (Option<seq<Byte>>, FileReply)
  {
    if constrained then
      if start >= |plain| then (None, Count(0))
      else
        var n := Min(start + |buffer|, |plain|) - start;
        (Some(Spliced(plain, start, buffer[..n])), Count(n))
    else if start + |buffer| > maxSize then (None, Failed(DiskFull))
    else
      var grown := if start + |buffer| > |plain| then Resize(plain, start + |buffer|) else plain;
      (Some(Spliced(grown, start, buffer)), Count(|buffer|))
  }

  function NodeStep(c: Xts, maxSize: nat, node: Node, op: FileOp): (r: (Node, FileReply))
    requires Padded(node)
    ensures Padded(r.0) && r.0.name == node.name && r.0.isDir == node.isDir
  {
    var plain := Decrypt(c, node);
    match op
    case Read(offset, len) => (node, ReadFrom(plain, offset, len))
    case Write(buffer, at, toEof, constrained) =>
      var (after, reply) := WriteTo(plain, maxSize, buffer, if toEof then |plain| else at, constrained);
      (if after.Some? then Store(c, node, after.value) else node, reply)
    case SetSize(newSize, allocation) =>
      if newSize > maxSize then (node, Failed(DiskFull))
      else if allocation then (if newSize < node.size then Store(c, node, plain[..newSize]) else node, Done)
      else if newSize != node.size then (Store(c, node, Resize(plain, newSize)), Done)
      else (node, Done)
    case Overwrite => (node.(data := [], size := 0), Done)
  }

  // ----- the reference: byte strings -----

  /** The byte at `i`: zero beyond the end. */
  function ByteAt(s: seq<Byte>, i: nat): Byte { if i < |s| then s[i] else 0 }

  /** The content after bytes `from` to `from + |part|` become `part`, `len` bytes in all. */
  function Patched(s: seq<Byte>, from: nat, part: seq<Byte>, len: nat): (r: seq<Byte>)
    ensures |r| == len
  {
    seq(len, i requires 0 <= i < len => if from <= i < from + |part| then part[i - from] else ByteAt(s, i))
  }

  function Max(a: nat, b: nat): nat { if a < b then b else a }

  function PlainStep(maxSize: nat, s: seq<Byte>, op: FileOp): (seq<Byte>, FileReply) {
    match op
    case Read(offset, len) =>
      (s, if offset >= |s| then Failed(EndOfFile)
          else Bytes(seq(Min(len, |s| - offset), i requires 0 <= i < |s| - offset => s[offset + i])))
    case Write(buffer, at, toEof, constrained) =>
      var start := if toEof then |s| else at;
      if constrained then
        var n := if start >= |s| then 0 else Min(|buffer|, |s| - start);
        (Patched(s, start, buffer[..n], |s|), Count(n))
      else if start + |buffer| > maxSize then (s, Failed(DiskFull))
      else (Patched(s, start, buffer, Max(|s|, start + |buffer|)), Count(|buffer|))
    case SetSize(newSize, allocation) =>
      if newSize > maxSize then (s, Failed(DiskFull))
      else (Patched(s, 0, [], if allocation then Min(newSize, |s|) else newSize), Done)
    case Overwrite => ([], Done)
  }

  lemma SpliceIsPatch(s: seq<Byte>, start: nat, part: seq<Byte>, len: nat)
    requires start + |part| <= len && |s| <= len
    ensures Spliced(Resize(s, len), start, part) == Patched(s, start, part, len)
  {
  }

  lemma ResizeIsPatch(s: seq<Byte>, n: nat)
    ensures Resize(s, n) == Patched(s, 0, [], n)
  {
  }

  lemma NoPatch(s: seq<Byte>, from: nat)
    ensures Patched(s, from, [], |s|) == s && Resize(s, |s|) == s
  {
  }

  /** Writing into plaintext is patching the byte string. */
  lemma WriteIsPatch(s: seq<Byte>, maxSize: nat, buffer: seq<Byte>, start: nat, constrained: bool)
    ensures var (after, reply) := WriteTo(s, maxSize, buffer, start, constrained);
            PlainStep(maxSize, s, Write(buffer, start, false, constrained)) ==
            (if after.Some? then after.value else s, reply)
  {
    NoPatch(s, start);
    if constrained {
      var n := if start >= |s| then 0 else Min(start + |buffer|, |s|) - start;
      if start < |s| {
        SpliceIsPatch(s, start, buffer[..n], |s|);
      } else {
        assert buffer[..0] == [];
      }
    } else {
      SpliceIsPatch(s, start, buffer, Max(|s|, start + |buffer|));
    }
  }

  /** Appending writes at the end. */
  lemma ToEofIsAt(maxSize: nat, s: seq<Byte>, buffer: seq<Byte>, at: nat, toEof: bool, constrained: bool)
    ensures PlainStep(maxSize, s, Write(buffer, at, toEof, constrained)) ==
            PlainStep(maxSize, s, Write(buffer, if toEof then |s| else at, false, constrained))
  {
  }

  lemma WriteRefines(c: Xts, maxSize: nat, node: Node, op: FileOp)
    requires Padded(node) && op.Write?
    ensures var (node', reply) := NodeStep(c, maxSize, node, op);
            PlainStep(maxSize, Decrypt(c, node), op) == (Decrypt(c, node'), reply)
  {
    var plain := Decrypt(c, node);
    var start := if op.toEof then |plain| else op.at;
    ToEofIsAt(maxSize, plain, op.buffer, op.at, op.toEof, op.constrained);
    WriteIsPatch(plain, maxSize, op.buffer, start, op.constrained);
    var after := WriteTo(plain, maxSize, op.buffer, start, op.constrained).0;
    if after.Some? {
      StoreDecrypts(c, node, after.value);
    }
  }

  lemma ReadRefines(s: seq<Byte>, offset: nat, len: nat, maxSize: nat)
    ensures PlainStep(maxSize, s, Read(offset, len)) == (s, ReadFrom(s, offset, len))
  {
    if offset < |s| {
      assert s[offset..Min(offset + len, |s|)] ==
        seq(Min(len, |s| - offset), i requires 0 <= i < |s| - offset => s[offset + i]);
    }
  }

  lemma SetSizeRefines(c: Xts, maxSize: nat, node: Node, op: FileOp)
    requires Padded(node) && op.SetSize?
    ensures var (node', reply) := NodeStep(c, maxSize, node, op);
            PlainStep(maxSize, Decrypt(c, node), op) == (Decrypt(c, node'), reply)
  {
    var plain := Decrypt(c, node);
    NoPatch(plain, 0);
    ResizeIsPatch(plain, op.newSize);
    ResizeIsPatch(plain, Min(op.newSize, |plain|));
    StoreDecrypts(c, node, plain[..Min(op.newSize, |plain|)]);
    StoreDecrypts(c, node, Resize(plain, op.newSize));
  }

  /** One operation on the ciphertext is the same operation on the plain bytes. */
  lemma StepRefines(c: Xts, maxSize: nat, node: Node, op: FileOp)
    requires Padded(node)
    ensures var (node', reply) := NodeStep(c, maxSize, node, op);
            && PlainStep(maxSize, Decrypt(c, node), op) == (Decrypt(c, node'), reply)
            && (node.size <= maxSize ==> node'.size <= maxSize)
  {
    match op {
      case Read(offset, len) => ReadRefines(Decrypt(c, node), offset, len, maxSize);
      case Write(_, _, _, _) => WriteRefines(c, maxSize, node, op);
      case SetSize(_, _) => SetSizeRefines(c, maxSize, node, op);
      case Overwrite =>
    }
  }

  /**
   A write of no bytes leaves the content alone if and only if it is constrained, starts within
   the file, or is refused; otherwise it extends the file up to its start.
   */
  lemma EmptyWriteKeepsIff(c: Xts, maxSize: nat, node: Node, at: nat, toEof: bool, constrained: bool)
    requires Padded(node)
    ensures var start := if toEof then node.size else at;
            var after := Decrypt(c, NodeStep(c, maxSize, node, Write([], at, toEof, constrained)).0);
            && (after == Decrypt(c, node) <==> constrained || start <= node.size || start > maxSize)
            && (after != Decrypt(c, node) ==> after == Decrypt(c, node) + seq(start - node.size, _ => 0))
  {
    StepRefines(c, maxSize, node, Write([], at, toEof, constrained));
    NoPatch(Decrypt(c, node), if toEof then node.size else at);
  }

  /** For instance, writing nothing at offset 1 of an empty file leaves it with one zero byte. */
  lemma EmptyWriteExtends(c: Xts, name: string)
    ensures var node := Node(name, false, [], 0);
            && Padded(node) && Decrypt(c, node) == []
            && Decrypt(c, NodeStep(c, 1, node, Write([], 1, false, false)).0) == [0]
  {
    EmptyWriteKeepsIff(c, 1, Node(name, false, [], 0), 1, false, false);
  }

  function NodeAfter(c: Xts, maxSize: nat, node: Node, ops: seq<FileOp>): (r: Node)
    requires Padded(node)
    ensures Padded(r)
  {
    if ops == [] then node else NodeStep(c, maxSize, NodeAfter(c, maxSize, node, ops[..|ops| - 1]), ops[|ops| - 1]).0
  }

  function NodeReplies(c: Xts, maxSize: nat, node: Node, ops: seq<FileOp>): seq<FileReply>
    requires Padded(node)
  {
    if ops == [] then []
    else
      var n := |ops| - 1;
      NodeReplies(c, maxSize, node, ops[..n]) + [NodeStep(c, maxSize, NodeAfter(c, maxSize, node, ops[..n]), ops[n]).1]
  }

  function PlainAfter(maxSize: nat, s: seq<Byte>, ops: seq<FileOp>): seq<Byte> {
    if ops == [] then s else PlainStep(maxSize, PlainAfter(maxSize, s, ops[..|ops| - 1]), ops[|ops| - 1]).0
  }

  function PlainReplies(maxSize: nat, s: seq<Byte>, ops: seq<FileOp>): seq<FileReply> {
    if ops == [] then []
    else
      var n := |ops| - 1;
      PlainReplies(maxSize, s, ops[..n]) + [PlainStep(maxSize, PlainAfter(maxSize, s, ops[..n]), ops[n]).1]
  }

  /** Any run on an encrypted file answers like the same run on a byte string, within the size limit. */
  lemma {:induction false} FileIsByteString(c: Xts, maxSize: nat, node: Node, ops: seq<FileOp>)
    requires Padded(node) && node.size <= maxSize
    ensures NodeAfter(c, maxSize, node, ops).size <= maxSize
    ensures Decrypt(c, NodeAfter(c, maxSize, node, ops)) == PlainAfter(maxSize, Decrypt(c, node), ops)
    ensures NodeReplies(c, maxSize, node, ops) == PlainReplies(maxSize, Decrypt(c, node), ops)
  {
    if ops != [] {
      var n := |ops| - 1;
      FileIsByteString(c, maxSize, node, ops[..n]);
      StepRefines(c, maxSize, NodeAfter(c, maxSize, node, ops[..n]), ops[n]);
    }
  }
}
