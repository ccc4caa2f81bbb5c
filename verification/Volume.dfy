/**
 The encrypted block volume: a cipher over a byte array, gated by the process supervisor and
 by a key that a wipe destroys.  Its reference is a plain array of sectors.
 */
module Volume {
  import opened Common
  import opened Cipher

  type ContainerId = nat

  type ProcId = nat

  type Dek = nat

  type Kek = nat

  datatype VolumeError =
    AccessDenied | Locked | KeyDestroyed | KeyUnwrap | WipeMarkerSet | OutOfRange | Misaligned

  datatype Reply = Done | Bytes(bytes: seq<Byte>) | Failed(error: VolumeError)

  // ----- key store -----

  /** A wrapped key opens only under the key-encryption key that wrapped it. */
  datatype WrappedDek = WrappedDek(under: Kek, dek: Dek)

  datatype Entry = Entry(kek: Kek, wrapped: WrappedDek)

  datatype Unwrapped = Key(dek: Dek) | NoKey(error: VolumeError)

  function UnwrapFrom(keys: map<ContainerId, Entry>, id: ContainerId): Unwrapped {
    if id !in keys then NoKey(KeyDestroyed)
    else if keys[id].kek == keys[id].wrapped.under then Key(keys[id].wrapped.dek)
    else NoKey(KeyUnwrap)
  }

  class MemKeyStore {
    var keys: map<ContainerId, Entry>

    constructor ()
      ensures keys == map[]
    {
      keys := map[];
    }

    method Provision(id: ContainerId, kek: Kek, dek: Dek)
      modifies this
      ensures keys == old(keys)[id := Entry(kek, WrappedDek(kek, dek))]
      ensures UnwrapFrom(keys, id) == Key(dek)
    {
      keys := keys[id := Entry(kek, WrappedDek(kek, dek))];
    }

    method Destroy(id: ContainerId)
      modifies this
      ensures keys == old(keys) - {id}
    {
      keys := keys - {id};
    }
  }

  // ----- backing store -----

  /** The byte range of a sector, or why there is none. */
  function Range(sector: nat, len: nat, cap: nat): Option<VolumeError> {
    if len != SECTOR then Some(Misaligned)
    else if (sector + 1) * SECTOR > cap then Some(OutOfRange)
    else None
  }

  class MemBacking {
    const data: array<Byte>
    var wiped: bool

    constructor Zeroed(sectors: nat)
      ensures fresh(data) && Sectors(data[..], sectors) && !wiped
      ensures forall i :: 0 <= i < data.Length ==> data[i] == 0
    {
      data := new Byte[sectors * SECTOR](_ => 0);
      wiped := false;
    }

    /** Copies one sector into `buf` at `at`. */
    method ReadSector(sector: nat, buf: array<Byte>, at: nat, len: nat) returns (e: Option<VolumeError>)
      requires buf != data && at + len <= buf.Length
      modifies buf
      ensures e == Range(sector, len, data.Length)
      ensures buf[..] == if e.None? then old(buf[..at]) + Sector(data[..], sector) + old(buf[at + len..])
                         else old(buf[..])
    {
      e := Range(sector, len, data.Length);
      if e.None? {
        forall i | 0 <= i < len {
          buf[at + i] := data[sector * SECTOR + i];
        }
        assert buf[..] == old(buf[..at]) + Sector(data[..], sector) + old(buf[at + len..]);
      }
    }

    method WriteSector(sector: nat, buf: seq<Byte>) returns (e: Option<VolumeError>)
      modifies data
      ensures e == Range(sector, |buf|, data.Length)
      ensures data[..] == if e.None? then Patched(old(data[..]), sector, buf, 1) else old(data[..])
    {
      e := Range(sector, |buf|, data.Length);
      if e.None? {
        forall i | 0 <= i < SECTOR {
          data[sector * SECTOR + i] := buf[i];
        }
        assert data[..] == Patched(old(data[..]), sector, buf, 1);
      }
    }

    method SetWipeMarker()
      modifies this
      ensures wiped
    {
      wiped := true;
    }
  }

  /** `data` with the first `k` sectors of `bytes` stored from sector `first` on. */
  function Patched(data: seq<Byte>, first: nat, bytes: seq<Byte>, k: nat): (r: seq<Byte>)
    requires k * SECTOR <= |bytes| && (k > 0 ==> (first + k) * SECTOR <= |data|)
    ensures |r| == |data|
  {
    if k == 0 then data else data[..first * SECTOR] + bytes[..k * SECTOR] + data[(first + k) * SECTOR..]
  }

  /** The bytes of `k` sectors from `first` on. */
  function Raw(data: seq<Byte>, first: nat, k: nat): (r: seq<Byte>)
    requires k > 0 ==> (first + k) * SECTOR <= |data|
    ensures Sectors(r, k)
  {
    if k == 0 then [] else data[first * SECTOR..(first + k) * SECTOR]
  }

  lemma RawNext(src: seq<Byte>, before: seq<Byte>, first: nat, k: nat)
    requires (first + k + 1) * SECTOR <= |src| && (k + 1) * SECTOR <= |before|
    ensures var mid := Patched(before, 0, Raw(src, first, k), k);
            mid[..k * SECTOR] + Sector(src, first + k) + mid[k * SECTOR + SECTOR..] == Patched(before, 0, Raw(src, first, k + 1), k + 1)
  {
    assert Raw(src, first, k) + Sector(src, first + k) == Raw(src, first, k + 1);
  }

  /** How many of `n` sectors starting at `first` exist on a disk of `cap` sectors. */
  function Fitting(first: nat, n: nat, cap: nat): nat {
    if first >= cap then 0 else if n <= cap - first then n else cap - first
  }

  // ----- the volume -----

  /** The supervised processes. */
  class ZoneRegistry {
    var supervised: set<ProcId>

    constructor ()
      ensures supervised == {}
    {
      supervised := {};
    }
  }

  /** A volume and everything it refers to; `cipher` is the key the mounted cipher was built from. */
  datatype Vol = Vol(
    id: ContainerId, keys: map<ContainerId, Entry>, data: seq<Byte>, wiped: bool,
    supervised: set<ProcId>, cipher: Option<Dek>)

  type Scheme = Dek -> Xts

  function Unlocked(v: Vol): (Vol, Reply) {
    if v.wiped then (v, Failed(WipeMarkerSet))
    else
      match UnwrapFrom(v.keys, v.id)
      case NoKey(e) => (v, Failed(e))
      case Key(dek) => (v.(cipher := Some(dek)), Done)
  }

  function Wiped(v: Vol): Vol { v.(cipher := None, keys := v.keys - {v.id}, wiped := true) }

  /** Why a caller may not do I/O of `len` bytes at all. */
  function Refusal(v: Vol, caller: ProcId, len: nat): Option<VolumeError> {
    if caller !in v.supervised then Some(AccessDenied)
    else if v.cipher.None? then Some(Locked)
    else if len % SECTOR != 0 then Some(Misaligned)
    else None
  }

  function ReadReply(v: Vol, scheme: Scheme, caller: ProcId, first: nat, len: nat): Reply {
    var refusal := Refusal(v, caller, len);
    if refusal.Some? then Failed(refusal.value)
    else
      var n := len / SECTOR;
      if n > 0 && (first + n) * SECTOR > |v.data| then Failed(OutOfRange)
      else Bytes(DecryptArea(scheme(v.cipher.value), Raw(v.data, first, n), first, n))
  }

  function Written(v: Vol, scheme: Scheme, caller: ProcId, first: nat, bytes: seq<Byte>): (Vol, Reply) {
    var refusal := Refusal(v, caller, |bytes|);
    if refusal.Some? then (v, Failed(refusal.value))
    else
      var n := |bytes| / SECTOR;
      var k := Fitting(first, n, |v.data| / SECTOR);
      var ct := EncryptArea(scheme(v.cipher.value), bytes, first, n);
      (v.(data := Patched(v.data, first, ct, k)), if k == n then Done else Failed(OutOfRange))
  }

  lemma PatchNext(data: seq<Byte>, first: nat, bytes: seq<Byte>, k: nat)
    requires (k + 1) * SECTOR <= |bytes| && (first + k + 1) * SECTOR <= |data|
    ensures Patched(Patched(data, first, bytes, k), first + k, Sector(bytes, k), 1) == Patched(data, first, bytes, k + 1)
  {
    var mid := Patched(data, first, bytes, k);
    assert Sector(bytes, k)[..SECTOR] == Sector(bytes, k);
    assert mid[..(first + k) * SECTOR] == data[..first * SECTOR] + bytes[..k * SECTOR];
    assert mid[(first + k + 1) * SECTOR..] == data[(first + k + 1) * SECTOR..];
    assert bytes[..k * SECTOR] + Sector(bytes, k) == bytes[..(k + 1) * SECTOR];
  }

  class ClaveVolume {
    const id: ContainerId
    const keystore: MemKeyStore
    const backing: MemBacking
    const gate: ZoneRegistry
    const scheme: Scheme
    var cipher: Option<Dek>

    function Value(): Vol
      reads this, keystore, backing, backing.data, gate
    {
      Vol(id, keystore.keys, backing.data[..], backing.wiped, gate.supervised, cipher)
    }

    constructor (id: ContainerId, keystore: MemKeyStore, backing: MemBacking, gate: ZoneRegistry, scheme: Scheme)
      ensures Value() == Vol(id, keystore.keys, backing.data[..], backing.wiped, gate.supervised, None)
      ensures this.keystore == keystore && this.backing == backing && this.gate == gate && this.scheme == scheme
    {
      this.id, this.keystore, this.backing, this.gate, this.scheme := id, keystore, backing, gate, scheme;
      cipher := None;
    }

    method Unlock() returns (r: Reply)
      modifies this
      ensures (Value(), r) == Unlocked(old(Value()))
    {
      if backing.wiped {
        return Failed(WipeMarkerSet);
      }
      if id !in keystore.keys {
        return Failed(KeyDestroyed);
      }
      match UnwrapFrom(keystore.keys, id) {
        case NoKey(e) =>
          r := Failed(e);
        case Key(dek) =>
          cipher := Some(dek);
          r := Done;
      }
    }

    method Lock()
      modifies this
      ensures Value() == old(Value()).(cipher := None)
    {
      cipher := None;
    }

    method Wipe()
      modifies this, keystore, backing
      ensures Value() == Wiped(old(Value()))
    {
      cipher := None;
      keystore.Destroy(id);
      backing.SetWipeMarker();
    }

    method Authorize(caller: ProcId, len: nat) returns (e: Option<VolumeError>)
      ensures e == Refusal(Value(), caller, len)
    {
      if caller !in gate.supervised {
        return Some(AccessDenied);
      }
      if cipher.None? {
        return Some(Locked);
      }
      e := if len % SECTOR != 0 then Some(Misaligned) else None;
    }

    /** The sector loop of `Read`: fills `out` with raw sectors, as far as they exist. */
    method FillRaw(first: nat, out: array<Byte>) returns (e: Option<VolumeError>)
      requires out != backing.data && out.Length % SECTOR == 0
      modifies out
      ensures var n, k := out.Length / SECTOR, Fitting(first, out.Length / SECTOR, backing.data.Length / SECTOR);
              && e == (if k == n then None else Some(OutOfRange))
              && out[..] == Patched(old(out[..]), 0, Raw(backing.data[..], first, k), k)
    {
      var count := out.Length / SECTOR;
      ghost var src, before := backing.data[..], out[..];
      for i := 0 to count
        invariant i > 0 ==> (first + i) * SECTOR <= |src|
        invariant out[..] == Patched(before, 0, Raw(src, first, i), i)
      {
        e := backing.ReadSector(first + i, out, i * SECTOR, SECTOR);
        if e.Some? {
          assert Fitting(first, count, |src| / SECTOR) == i;
          return;
        }
        RawNext(src, before, first, i);
      }
      assert Fitting(first, count, |src| / SECTOR) == count;
      e := None;
    }

    /** Reads into `out`; after an out-of-range failure `out` starts with the raw sectors that exist. */
    method Read(caller: ProcId, first: nat, out: array<Byte>) returns (r: Reply)
      requires out != backing.data
      modifies out
      ensures r.Done? || r.Failed?
      ensures var spec := ReadReply(Value(), scheme, caller, first, out.Length);
              if r.Done? then spec == Bytes(out[..]) else spec == r
      ensures r.Failed? && r.error != OutOfRange ==> out[..] == old(out[..])
      ensures r == Failed(OutOfRange) ==>
                var k := Fitting(first, out.Length / SECTOR, backing.data.Length / SECTOR);
                out[..] == Patched(old(out[..]), 0, Raw(backing.data[..], first, k), k)
    {
      var refused := Authorize(caller, out.Length);
      if refused.Some? {
        return Failed(refused.value);
      }
      var count := out.Length / SECTOR;
      var e := FillRaw(first, out);
      if e.Some? {
        return Failed(e.value);
      }
      assert out[..] == Raw(backing.data[..], first, count);
      var plain := DecryptArea(scheme(cipher.value), out[..], first, count);
      forall i | 0 <= i < out.Length {
        out[i] := plain[i];
      }
      assert out[..] == plain;
      r := Done;
    }

    method Write(caller: ProcId, first: nat, bytes: seq<Byte>) returns (r: Reply)
      modifies backing.data
      ensures (Value(), r) == Written(old(Value()), scheme, caller, first, bytes)
    {
      var refused := Authorize(caller, |bytes|);
      if refused.Some? {
        return Failed(refused.value);
      }
      var count := |bytes| / SECTOR;
      var ct := EncryptArea(scheme(cipher.value), bytes, first, count);
      for i := 0 to count
        invariant i > 0 ==> (first + i) * SECTOR <= backing.data.Length
        invariant backing.data[..] == Patched(old(backing.data[..]), first, ct, i)
      {
        var e := backing.WriteSector(first + i, Sector(ct, i));
        if e.Some? {
          assert Fitting(first, count, backing.data.Length / SECTOR) == i;
          return Failed(e.value);
        }
        PatchNext(old(backing.data[..]), first, ct, i);
      }
      assert Fitting(first, count, backing.data.Length / SECTOR) == count;
      r := Done;
    }
  }

  // ----- whole runs -----

  datatype VolOp =
    | Unlock
    | Lock
    | Wipe
    | Read(caller: ProcId, first: nat, len: nat)
    | Write(caller: ProcId, first: nat, bytes: seq<Byte>)
    | Join(proc: ProcId)
    | Leave(proc: ProcId)

  function VolStep(v: Vol, scheme: Scheme, op: VolOp): (Vol, Reply) {
    match op
    case Unlock => Unlocked(v)
    case Lock => (v.(cipher := None), Done)
    case Wipe => (Wiped(v), Done)
    case Read(caller, first, len) => (v, ReadReply(v, scheme, caller, first, len))
    case Write(caller, first, bytes) => Written(v, scheme, caller, first, bytes)
    case Join(p) => (v.(supervised := v.supervised + {p}), Done)
    case Leave(p) => (v.(supervised := v.supervised - {p}), Done)
  }

  function VolAfter(v: Vol, scheme: Scheme, ops: seq<VolOp>): Vol {
    if ops == [] then v else VolStep(VolAfter(v, scheme, ops[..|ops| - 1]), scheme, ops[|ops| - 1]).0
  }

  function VolReplies(v: Vol, scheme: Scheme, ops: seq<VolOp>): (rs: seq<Reply>)
    ensures |rs| == |ops|
  {
    if ops == [] then []
    else
      var n := |ops| - 1;
      VolReplies(v, scheme, ops[..n]) + [VolStep(VolAfter(v, scheme, ops[..n]), scheme, ops[n]).1]
  }

  // ----- the reference: a plain array of sectors -----

  datatype Plain = Plain(sectors: seq<seq<Byte>>, unlocked: bool, wiped: bool, supervised: set<ProcId>)

  function Concat(ss: seq<seq<Byte>>): seq<Byte> {
    if ss == [] then [] else Concat(ss[..|ss| - 1]) + ss[|ss| - 1]
  }

  function PlainRefusal(p: Plain, caller: ProcId, len: nat): Option<VolumeError> {
    if caller !in p.supervised then Some(AccessDenied)
    else if !p.unlocked then Some(Locked)
    else if len % SECTOR != 0 then Some(Misaligned)
    else None
  }

  function PlainRead(p: Plain, caller: ProcId, first: nat, len: nat): Reply {
    var refusal := PlainRefusal(p, caller, len);
    if refusal.Some? then Failed(refusal.value)
    else
      var n := len / SECTOR;
      if n == 0 then Bytes([])
      else if first + n > |p.sectors| then Failed(OutOfRange)
      else Bytes(Concat(p.sectors[first..first + n]))
  }

  /** The sectors of `bytes` replace those from `first` on, as far as there are any. */
  function Stored(sectors: seq<seq<Byte>>, first: nat, bytes: seq<Byte>): seq<seq<Byte>>
    requires |bytes| % SECTOR == 0
  {
    seq(|sectors|, i requires 0 <= i < |sectors| =>
      if first <= i < first + |bytes| / SECTOR then Sector(bytes, i - first) else sectors[i])
  }

  function PlainWrite(p: Plain, caller: ProcId, first: nat, bytes: seq<Byte>): (Plain, Reply) {
    var refusal := PlainRefusal(p, caller, |bytes|);
    if refusal.Some? then (p, Failed(refusal.value))
    else
      (p.(sectors := Stored(p.sectors, first, bytes)),
       if bytes == [] || first + |bytes| / SECTOR <= |p.sectors| then Done else Failed(OutOfRange))
  }

  function PlainStep(p: Plain, op: VolOp): (Plain, Reply) {
    match op
    case Unlock => if p.wiped then (p, Failed(WipeMarkerSet)) else (p.(unlocked := true), Done)
    case Lock => (p.(unlocked := false), Done)
    case Wipe => (p.(unlocked := false, wiped := true), Done)
    case Read(caller, first, len) => (p, PlainRead(p, caller, first, len))
    case Write(caller, first, bytes) => PlainWrite(p, caller, first, bytes)
    case Join(q) => (p.(supervised := p.supervised + {q}), Done)
    case Leave(q) => (p.(supervised := p.supervised - {q}), Done)
  }

  function PlainAfter(p: Plain, ops: seq<VolOp>): Plain {
    if ops == [] then p else PlainStep(PlainAfter(p, ops[..|ops| - 1]), ops[|ops| - 1]).0
  }

  function PlainReplies(p: Plain, ops: seq<VolOp>): seq<Reply> {
    if ops == [] then []
    else
      var n := |ops| - 1;
      PlainReplies(p, ops[..n]) + [PlainStep(PlainAfter(p, ops[..n]), ops[n]).1]
  }

  // ----- refinement -----

  /** A volume of whole sectors whose key, until a wipe, unwraps to `dek`. */
  ghost predicate Healthy(v: Vol, dek: Dek) {
    && |v.data| % SECTOR == 0
    && (v.cipher.Some? ==> v.cipher.value == dek && !v.wiped)
    && (!v.wiped ==> UnwrapFrom(v.keys, v.id) == Key(dek))
  }

  function PlainSectors(c: Xts, data: seq<Byte>): seq<seq<Byte>> {
    seq(|data| / SECTOR, i requires 0 <= i < |data| / SECTOR => c.dec(Sector(data, i), i))
  }

  /** What the stored ciphertext stands for. */
  function View(v: Vol, scheme: Scheme, dek: Dek): Plain {
    Plain(PlainSectors(scheme(dek), v.data), v.cipher.Some?, v.wiped, v.supervised)
  }

  /** Decrypting an area is concatenating its decrypted sectors. */
  lemma {:induction false} DecryptedParts(c: Xts, raw: seq<Byte>, parts: seq<seq<Byte>>, first: nat)
    requires Sectors(raw, |parts|)
    requires forall i :: 0 <= i < |parts| ==> parts[i] == c.dec(Sector(raw, i), first + i)
    ensures DecryptArea(c, raw, first, |parts|) == Concat(parts)
  {
    if parts != [] {
      var m := |parts| - 1;
      var init := raw[..m * SECTOR];
      forall i | 0 <= i < m ensures Sector(init, i) == Sector(raw, i) {
        SectorOfPart(raw, 0, m, i);
      }
      DecryptedParts(c, init, parts[..m], first);
    }
  }

  lemma SectorOfPart(data: seq<Byte>, first: nat, n: nat, i: nat)
    requires i < n && (first + n) * SECTOR <= |data|
    ensures Sector(data[first * SECTOR..(first + n) * SECTOR], i) == Sector(data, first + i)
  {
    SliceOfSlice(data, first * SECTOR, (first + n) * SECTOR, i * SECTOR, (i + 1) * SECTOR);
  }

  lemma SliceOfSlice(s: seq<Byte>, a: nat, b: nat, lo: nat, hi: nat)
    requires lo <= hi && a + hi <= b <= |s|
    ensures s[a..b][lo..hi] == s[a + lo..a + hi]
  {
    var inner, outer := s[a..b][lo..hi], s[a + lo..a + hi];
    forall k | 0 <= k < hi - lo ensures inner[k] == outer[k] {
      assert inner[k] == s[a..b][lo + k];
    }
    assert inner == outer;
  }

  lemma ReadRefines(c: Xts, data: seq<Byte>, first: nat, n: nat)
    requires |data| % SECTOR == 0 && first + n <= |data| / SECTOR
    ensures DecryptArea(c, Raw(data, first, n), first, n) == Concat(PlainSectors(c, data)[first..first + n])
  {
    var raw, parts := Raw(data, first, n), PlainSectors(c, data)[first..first + n];
    forall i | 0 <= i < n ensures parts[i] == c.dec(Sector(raw, i), first + i) {
      SectorOfPart(data, first, n, i);
    }
    DecryptedParts(c, raw, parts, first);
  }

  /** A slice that lies in one of three parts is a slice of that part. */
  lemma SliceOfParts(a: seq<Byte>, b: seq<Byte>, c: seq<Byte>, lo: nat, hi: nat)
    requires lo <= hi
    ensures hi <= |a| ==> (a + b + c)[lo..hi] == a[lo..hi]
    ensures |a| <= lo && hi <= |a| + |b| ==> (a + b + c)[lo..hi] == b[lo - |a|..hi - |a|]
    ensures |a| + |b| <= lo && hi <= |a| + |b| + |c| ==> (a + b + c)[lo..hi] == c[lo - |a| - |b|..hi - |a| - |b|]
  {
  }

  lemma PatchedSector(data: seq<Byte>, first: nat, bytes: seq<Byte>, k: nat, i: nat)
    requires k * SECTOR <= |bytes| && (k > 0 ==> (first + k) * SECTOR <= |data|) && (i + 1) * SECTOR <= |data|
    ensures Sector(Patched(data, first, bytes, k), i) ==
            if first <= i < first + k then Sector(bytes, i - first) else Sector(data, i)
  {
    if k > 0 {
      var a, b, c := data[..first * SECTOR], bytes[..k * SECTOR], data[(first + k) * SECTOR..];
      var lo, hi := i * SECTOR, (i + 1) * SECTOR;
      SliceOfParts(a, b, c, lo, hi);
      if i < first {
        assert a[lo..hi] == Sector(data, i);
      } else if i < first + k {
        assert b[lo - |a|..hi - |a|] == Sector(bytes, i - first);
      } else {
        assert c[lo - |a| - |b|..hi - |a| - |b|] == Sector(data, i);
      }
    }
  }

  lemma SectorRefines(c: Xts, data: seq<Byte>, first: nat, bytes: seq<Byte>, n: nat, k: nat, i: nat)
    requires Sectors(bytes, n) && k <= n && (k > 0 ==> (first + k) * SECTOR <= |data|) && (i + 1) * SECTOR <= |data|
    ensures c.dec(Sector(Patched(data, first, EncryptArea(c, bytes, first, n), k), i), i) ==
            if first <= i < first + k then Sector(bytes, i - first) else c.dec(Sector(data, i), i)
  {
    PatchedSector(data, first, EncryptArea(c, bytes, first, n), k, i);
    if first <= i < first + k {
      EncryptedSector(c, bytes, first, n, i - first);
    }
  }

  lemma WriteRefines(c: Xts, data: seq<Byte>, first: nat, bytes: seq<Byte>, n: nat, k: nat)
    requires Sectors(bytes, n) && |data| % SECTOR == 0 && k == Fitting(first, n, |data| / SECTOR)
    ensures PlainSectors(c, Patched(data, first, EncryptArea(c, bytes, first, n), k)) ==
            Stored(PlainSectors(c, data), first, bytes)
  {
    var after := PlainSectors(c, Patched(data, first, EncryptArea(c, bytes, first, n), k));
    forall i | 0 <= i < |data| / SECTOR ensures after[i] == Stored(PlainSectors(c, data), first, bytes)[i] {
      SectorRefines(c, data, first, bytes, n, k, i);
    }
  }

  lemma ReadStepRefines(v: Vol, scheme: Scheme, dek: Dek, caller: ProcId, first: nat, len: nat)
    requires Healthy(v, dek)
    ensures ReadReply(v, scheme, caller, first, len) == PlainRead(View(v, scheme, dek), caller, first, len)
  {
    var n := len / SECTOR;
    if Refusal(v, caller, len).None? && first + n <= |v.data| / SECTOR {
      ReadRefines(scheme(dek), v.data, first, n);
    }
  }

  lemma WriteStepRefines(v: Vol, scheme: Scheme, dek: Dek, caller: ProcId, first: nat, bytes: seq<Byte>)
    requires Healthy(v, dek)
    ensures var (v', r) := Written(v, scheme, caller, first, bytes);
            && Healthy(v', dek)
            && PlainWrite(View(v, scheme, dek), caller, first, bytes) == (View(v', scheme, dek), r)
  {
    if Refusal(v, caller, |bytes|).None? {
      var n := |bytes| / SECTOR;
      WriteRefines(scheme(dek), v.data, first, bytes, n, Fitting(first, n, |v.data| / SECTOR));
    }
  }

  lemma StepRefines(v: Vol, scheme: Scheme, dek: Dek, op: VolOp)
    requires Healthy(v, dek)
    ensures var (v', r) := VolStep(v, scheme, op);
            Healthy(v', dek) && PlainStep(View(v, scheme, dek), op) == (View(v', scheme, dek), r)
  {
    match op {
      case Read(caller, first, len) => ReadStepRefines(v, scheme, dek, caller, first, len);
      case Write(caller, first, bytes) => WriteStepRefines(v, scheme, dek, caller, first, bytes);
      case _ =>
    }
  }

  /** Every run of the encrypted volume answers like the same run on a plain sector array. */
  lemma {:induction false} VolumeRefinesPlainArray(v: Vol, scheme: Scheme, dek: Dek, ops: seq<VolOp>)
    requires Healthy(v, dek)
    ensures Healthy(VolAfter(v, scheme, ops), dek)
    ensures View(VolAfter(v, scheme, ops), scheme, dek) == PlainAfter(View(v, scheme, dek), ops)
    ensures VolReplies(v, scheme, ops) == PlainReplies(View(v, scheme, dek), ops)
  {
    if ops != [] {
      var n := |ops| - 1;
      VolumeRefinesPlainArray(v, scheme, dek, ops[..n]);
      StepRefines(VolAfter(v, scheme, ops[..n]), scheme, dek, ops[n]);
    }
  }

  // ----- a wipe is final -----

  ghost predicate Dead(v: Vol) { v.wiped && v.cipher.None? }

  /** After a wipe nothing unlocks, reads, writes or changes the stored bytes, in any run. */
  lemma {:induction false} WipeIsFinal(v: Vol, scheme: Scheme, ops: seq<VolOp>)
    requires Dead(v)
    ensures Dead(VolAfter(v, scheme, ops))
    ensures VolAfter(v, scheme, ops).data == v.data
    ensures forall i :: 0 <= i < |ops| ==>
              match ops[i]
              case Unlock => VolReplies(v, scheme, ops)[i] == Failed(WipeMarkerSet)
              case Read(caller, _, _) => VolReplies(v, scheme, ops)[i] in {Failed(AccessDenied), Failed(Locked)}
              case Write(caller, _, _) => VolReplies(v, scheme, ops)[i] in {Failed(AccessDenied), Failed(Locked)}
              case _ => true
  {
    if ops != [] {
      var n := |ops| - 1;
      WipeIsFinal(v, scheme, ops[..n]);
    }
  }

  // ----- keys -----

  /**
   `after` has lost the key of `v`, and nothing else of the key store: over any bytes, with or without
   the wipe marker, unlocking fails; other containers unlock as before.
   */
  ghost predicate KeyGone(v: Vol, after: Vol) {
    && after.id == v.id && v.id !in after.keys && UnwrapFrom(after.keys, v.id) == NoKey(KeyDestroyed)
    && (forall other :: other != v.id ==> UnwrapFrom(after.keys, other) == UnwrapFrom(v.keys, other))
    && (forall data, marker ::
          var copy := Vol(v.id, after.keys, data, marker, after.supervised, None);
          Unlocked(copy) == (copy, Failed(if marker then WipeMarkerSet else KeyDestroyed)))
  }

  /** A wipe destroys the key, and no run of operations brings it back. */
  lemma {:induction false} WipeDestroysKey(v: Vol, scheme: Scheme, ops: seq<VolOp>)
    ensures VolAfter(Wiped(v), scheme, ops).id == v.id
    ensures VolAfter(Wiped(v), scheme, ops).keys.Keys == v.keys.Keys - {v.id}
    ensures KeyGone(v, VolAfter(Wiped(v), scheme, ops))
  {
    if ops != [] {
      WipeDestroysKey(v, scheme, ops[..|ops| - 1]);
    }
    KeysStay(Wiped(v), scheme, ops);
  }

  lemma {:induction false} KeysStay(v: Vol, scheme: Scheme, ops: seq<VolOp>)
    ensures forall other :: other != v.id ==> UnwrapFrom(VolAfter(v, scheme, ops).keys, other) == UnwrapFrom(v.keys, other)
    ensures VolAfter(v, scheme, ops).id == v.id && VolAfter(v, scheme, ops).keys.Keys <= v.keys.Keys
  {
    if ops != [] {
      KeysStay(v, scheme, ops[..|ops| - 1]);
    }
  }

  datatype KeyOp = Provide(id: ContainerId, kek: Kek, dek: Dek) | Drop(id: ContainerId)

  /** A key store after a run, as `MemKeyStore` keeps it. */
  function KeysAfter(ops: seq<KeyOp>): map<ContainerId, Entry> {
    if ops == [] then map[]
    else
      var before := KeysAfter(ops[..|ops| - 1]);
      match ops[|ops| - 1]
      case Provide(id, kek, dek) => before[id := Entry(kek, WrappedDek(kek, dek))]
      case Drop(id) => before - {id}
  }

  /** The last thing that happened to the key of a container. */
  function LastFor(ops: seq<KeyOp>, id: ContainerId): Option<KeyOp> {
    if ops == [] then None
    else if ops[|ops| - 1].id == id then Some(ops[|ops| - 1])
    else LastFor(ops[..|ops| - 1], id)
  }

  /**
   A volume that is not wiped unlocks if and only if its key was provisioned and not destroyed since,
   and then it is mounted with the key provisioned last.
   */
  lemma {:induction false} UnlocksWithLastKey(v: Vol, ops: seq<KeyOp>)
    requires v.keys == KeysAfter(ops)
    ensures var final := LastFor(ops, v.id);
            Unlocked(v) ==
            if v.wiped then (v, Failed(WipeMarkerSet))
            else if final.Some? && final.value.Provide? then (v.(cipher := Some(final.value.dek)), Done)
            else (v, Failed(KeyDestroyed))
    decreases |ops|
  {
    if ops != [] && ops[|ops| - 1].id != v.id {
      UnlocksWithLastKey(v.(keys := KeysAfter(ops[..|ops| - 1])), ops[..|ops| - 1]);
    }
  }

  /** A key wrapped under another key-encryption key than the one at hand stays closed. */
  lemma WrongKekStaysClosed(v: Vol)
    requires !v.wiped && v.id in v.keys && v.keys[v.id].kek != v.keys[v.id].wrapped.under
    ensures Unlocked(v) == (v, Failed(KeyUnwrap))
  {
  }
}
