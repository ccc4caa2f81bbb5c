/**
 The tamper-evident audit chain of a device: the spool that appends to it, the batches cut
 from it and the verification of a batch.

 The chain hash is symbolic.  A `Link` is the digest of one entry, `Genesis` the all-zero
 start and `Raw` any other 32-byte string, so two digests are equal exactly when they digest
 the same entry.  A signature is symbolic in the same way.
 */
module AuditChain {
  import opened Common

  datatype AuditAction =
    | ClipboardBlocked | ClipboardSanitized | FileSaveDenied | EnclaveIntrusionBlocked
    | NetworkBlocked | ScreenCaptureOverWork | InputTapOverWork
    | ProcessJoinedZone | ProcessLeftZone | VolumeMounted | VolumeUnmounted | Wiped

  datatype AuditEvent = AuditEvent(ts: nat, action: AuditAction, allowed: bool)

  datatype ChainHash = Genesis | Raw(id: nat) | Link(number: nat, prev: ChainHash, event: AuditEvent)

  type PublicKey = nat

  datatype Signature = SignedBy(key: PublicKey, head: ChainHash) | Forged(id: nat) | WrongLength

  datatype SpoolEntry = SpoolEntry(number: nat, prev: ChainHash, event: AuditEvent, hash: ChainHash)

  datatype SignedSpoolBatch = SignedSpoolBatch(entries: seq<SpoolEntry>, head: ChainHash, signature: Signature)

  function EntryHash(number: nat, prev: ChainHash, event: AuditEvent): ChainHash {
    Link(number, prev, event)
  }

  function SignBatch(key: PublicKey, entries: seq<SpoolEntry>, head: ChainHash): SignedSpoolBatch {
    SignedSpoolBatch(entries, head, SignedBy(key, head))
  }

  function EventsOf(entries: seq<SpoolEntry>): seq<AuditEvent> {
    seq(|entries|, i requires 0 <= i < |entries| => entries[i].event)
  }

  // ----- the reference: the chain that a list of events has -----

  /** The head of the chain that starts after `prev` with number `next` and holds `events`. */
  function HeadAfter(prev: ChainHash, next: nat, events: seq<AuditEvent>): ChainHash {
    if events == [] then prev
    else
      var n := |events| - 1;
      Link(next + n, HeadAfter(prev, next, events[..n]), events[n])
  }

  /** The entries of that chain: numbered on from `next`, each linked to the head before it. */
  function ChainOf(prev: ChainHash, next: nat, events: seq<AuditEvent>): (r: seq<SpoolEntry>)
    ensures |r| == |events|
  {
    if events == [] then []
    else
      var n := |events| - 1;
      ChainOf(prev, next, events[..n]) +
      [SpoolEntry(next + n, HeadAfter(prev, next, events[..n]), events[n], HeadAfter(prev, next, events))]
  }

  /** A batch that continues the chain (`prev`, `next`) and is signed by `key`. */
  predicate Genuine(prev: ChainHash, next: nat, batch: SignedSpoolBatch, key: PublicKey) {
    var events := EventsOf(batch.entries);
    && batch.entries == ChainOf(prev, next, events)
    && batch.head == HeadAfter(prev, next, events)
    && batch.signature == SignedBy(key, batch.head)
  }

  /** A chain can be cut anywhere: the second part continues from the head of the first. */
  lemma {:induction false} HeadAfterConcat(prev: ChainHash, next: nat, a: seq<AuditEvent>, b: seq<AuditEvent>)
    ensures HeadAfter(prev, next, a + b) == HeadAfter(HeadAfter(prev, next, a), next + |a|, b)
    decreases |b|
  {
    if b == [] {
      assert a + b == a;
    } else {
      var n := |b| - 1;
      HeadAfterConcat(prev, next, a, b[..n]);
      assert (a + b)[..|a + b| - 1] == a + b[..n];
    }
  }

  // ----- collision freedom -----

  function Depth(h: ChainHash): nat {
    match h case Link(_, prev, _) => 1 + Depth(prev) case _ => 0
  }

  lemma {:induction false} DepthGrows(prev: ChainHash, next: nat, events: seq<AuditEvent>)
    ensures Depth(HeadAfter(prev, next, events)) == Depth(prev) + |events|
  {
    if events != [] {
      DepthGrows(prev, next, events[..|events| - 1]);
    }
  }

  /** The head determines the events, also when one of the two lists is empty. */
  lemma {:induction false} HeadDeterminesEvents(prev: ChainHash, next: nat, a: seq<AuditEvent>, b: seq<AuditEvent>)
    requires HeadAfter(prev, next, a) == HeadAfter(prev, next, b)
    ensures a == b
  {
    DepthGrows(prev, next, a);
    DepthGrows(prev, next, b);
    if a != [] {
      var n := |a| - 1;
      HeadDeterminesEvents(prev, next, a[..n], b[..n]);
      assert a == a[..n] + [a[n]] && b == b[..n] + [b[n]];
    }
  }

  /** Two batches accepted at the same place with the same head carry the same entries. */
  lemma SameHeadSameBatch(
    prev: ChainHash, next: nat, a: SignedSpoolBatch, b: SignedSpoolBatch, keyA: PublicKey, keyB: PublicKey)
    requires CheckBatch(prev, next, a, keyA).Ok? && CheckBatch(prev, next, b, keyB).Ok?
    requires a.head == b.head
    ensures EventsOf(a.entries) == EventsOf(b.entries) && a.entries == b.entries
  {
    AcceptedIsGenuine(prev, next, a, keyA);
    AcceptedIsGenuine(prev, next, b, keyB);
    HeadDeterminesEvents(prev, next, EventsOf(a.entries), EventsOf(b.entries));
  }

  // ----- verification -----

  datatype AuditError =
    | Tampered(number: nat)
    | BrokenChain(number: nat)
    | Gap(expected: nat, got: nat)
    | BadSignature
    | Malformed

  /** The first fault of the entries, checked one by one; `Ok` holds the running head. */
  function CheckEntries(prev: ChainHash, next: nat, entries: seq<SpoolEntry>): Result<ChainHash, AuditError> {
    if entries == [] then Ok(prev)
    else
      var n := |entries| - 1;
      var e := entries[n];
      match CheckEntries(prev, next, entries[..n])
      case Err(error) => Err(error)
      case Ok(running) =>
        if e.number != next + n then Err(Gap(next + n, e.number))
        else if e.prev != running then Err(BrokenChain(e.number))
        else if EntryHash(e.number, e.prev, e.event) != e.hash then Err(Tampered(e.number))
        else Ok(e.hash)
  }

  function CheckSignature(key: PublicKey, batch: SignedSpoolBatch): Result<ChainHash, AuditError> {
    match batch.signature
    case WrongLength => Err(Malformed)
    case SignedBy(k, h) => if k == key && h == batch.head then Ok(batch.head) else Err(BadSignature)
    case Forged(_) => Err(BadSignature)
  }

  function CheckBatch(prev: ChainHash, next: nat, batch: SignedSpoolBatch, key: PublicKey)
    : Result<ChainHash, AuditError>
  {
    match CheckEntries(prev, next, batch.entries)
    case Err(error) => Err(error)
    case Ok(running) =>
      var due := next + |batch.entries|;
      if running != batch.head then Err(BrokenChain(if due == 0 then 0 else due - 1))
      else CheckSignature(key, batch)
  }

  /** The entry loop: stops at the first fault, or yields the running head. */
  method VerifyEntries(prev: ChainHash, next: nat, entries: seq<SpoolEntry>) returns (r: Result<ChainHash, AuditError>)
    ensures r == CheckEntries(prev, next, entries)
  {
    var running, due := prev, next;
    for i := 0 to |entries|
      invariant due == next + i
      invariant CheckEntries(prev, next, entries[..i]) == Ok(running)
    {
      var e := entries[i];
      assert entries[..i + 1][..i] == entries[..i];
      if e.number != due {
        FaultStays(prev, next, entries, i + 1);
        return Err(Gap(due, e.number));
      }
      if e.prev != running {
        FaultStays(prev, next, entries, i + 1);
        return Err(BrokenChain(e.number));
      }
      if EntryHash(e.number, e.prev, e.event) != e.hash {
        FaultStays(prev, next, entries, i + 1);
        return Err(Tampered(e.number));
      }
      running, due := e.hash, due + 1;
    }
    assert entries[..|entries|] == entries;
    r := Ok(running);
  }

  method VerifyBatch(prev: ChainHash, next: nat, batch: SignedSpoolBatch, key: PublicKey)
    returns (r: Result<ChainHash, AuditError>)
    ensures r == CheckBatch(prev, next, batch, key)
    ensures r.Ok? <==> Genuine(prev, next, batch, key)
    ensures r.Ok? ==> r.value == batch.head
  {
    AcceptedIsGenuine(prev, next, batch, key);
    var checked := VerifyEntries(prev, next, batch.entries);
    if checked.Err? {
      return checked;
    }
    var due := next + |batch.entries|;
    if checked.value != batch.head {
      return Err(BrokenChain(if due == 0 then 0 else due - 1));
    }
    r := CheckSignature(key, batch);
  }

  /** Once an entry is faulty, later entries do not change the verdict. */
  lemma {:induction false} FaultStays(prev: ChainHash, next: nat, entries: seq<SpoolEntry>, n: nat)
    requires n <= |entries| && CheckEntries(prev, next, entries[..n]).Err?
    ensures CheckEntries(prev, next, entries) == CheckEntries(prev, next, entries[..n])
    decreases |entries|
  {
    if n == |entries| {
      assert entries[..n] == entries;
    } else {
      var m := |entries| - 1;
      assert entries[..m][..n] == entries[..n];
      FaultStays(prev, next, entries[..m], n);
    }
  }

  /** Entry checks succeed exactly on the chain of some events. */
  lemma {:induction false} EntriesOkIsChain(prev: ChainHash, next: nat, entries: seq<SpoolEntry>)
    ensures CheckEntries(prev, next, entries).Ok? <==> entries == ChainOf(prev, next, EventsOf(entries))
    ensures CheckEntries(prev, next, entries).Ok? ==>
              CheckEntries(prev, next, entries).value == HeadAfter(prev, next, EventsOf(entries))
  {
    if entries != [] {
      var n := |entries| - 1;
      var init, events := entries[..n], EventsOf(entries);
      EntriesOkIsChain(prev, next, init);
      assert EventsOf(init) == events[..n];
      LastOf(entries, n);
      LastOf(ChainOf(prev, next, events), n);
      assert ChainOf(prev, next, events)[..n] == ChainOf(prev, next, events[..n]);
    }
  }

  lemma LastOf<T>(s: seq<T>, n: nat)
    requires |s| == n + 1
    ensures s == s[..n] + [s[n]]
  {
  }

  lemma AcceptedIsGenuine(prev: ChainHash, next: nat, batch: SignedSpoolBatch, key: PublicKey)
    ensures CheckBatch(prev, next, batch, key).Ok? <==> Genuine(prev, next, batch, key)
    ensures CheckBatch(prev, next, batch, key).Ok? ==> CheckBatch(prev, next, batch, key).value == batch.head
  {
    EntriesOkIsChain(prev, next, batch.entries);
  }

  /** A rejected entry list: everything before the reported entry is a chain, and it is not. */
  lemma {:induction false} FaultIsTheFirst(prev: ChainHash, next: nat, entries: seq<SpoolEntry>) returns (k: nat)
    requires CheckEntries(prev, next, entries).Err?
    ensures k < |entries|
    ensures entries[..k] == ChainOf(prev, next, EventsOf(entries[..k]))
    ensures entries[..k + 1] != ChainOf(prev, next, EventsOf(entries[..k + 1]))
    ensures var error := CheckEntries(prev, next, entries).error;
            match error
            case Gap(expected, got) => expected == next + k && got == entries[k].number && got != expected
            case BrokenChain(number) =>
              number == entries[k].number == next + k && entries[k].prev != HeadAfter(prev, next, EventsOf(entries[..k]))
            case Tampered(number) =>
              && number == entries[k].number == next + k && entries[k].prev == HeadAfter(prev, next, EventsOf(entries[..k]))
              && entries[k].hash != Link(number, entries[k].prev, entries[k].event)
            case _ => false
  {
    var n := |entries| - 1;
    assert entries[..n + 1] == entries;
    if CheckEntries(prev, next, entries[..n]).Err? {
      k := FaultIsTheFirst(prev, next, entries[..n]);
      assert entries[..n][..k] == entries[..k] && entries[..n][..k + 1] == entries[..k + 1];
    } else {
      k := n;
      EntriesOkIsChain(prev, next, entries[..n]);
      EntriesOkIsChain(prev, next, entries);
    }
  }

  /** A rejected batch whose entries are a chain: the head is wrong, or else the signature is. */
  lemma BatchFaultMeans(prev: ChainHash, next: nat, batch: SignedSpoolBatch, key: PublicKey)
    requires CheckBatch(prev, next, batch, key).Err?
    ensures var events := EventsOf(batch.entries);
            var (head, error) := (HeadAfter(prev, next, events), CheckBatch(prev, next, batch, key).error);
            if batch.entries != ChainOf(prev, next, events) then Err(error) == CheckEntries(prev, next, batch.entries)
            else if batch.head != head then error == BrokenChain(if next + |events| == 0 then 0 else next + |events| - 1)
            else if batch.signature.WrongLength? then error == Malformed
            else batch.signature != SignedBy(key, head) && error == BadSignature
  {
    EntriesOkIsChain(prev, next, batch.entries);
  }

  /** The entries of a chain carry consecutive numbers and its events. */
  lemma {:induction false} ChainEntry(prev: ChainHash, next: nat, events: seq<AuditEvent>, i: nat)
    requires i < |events|
    ensures ChainOf(prev, next, events)[i].number == next + i && ChainOf(prev, next, events)[i].event == events[i]
    decreases |events|
  {
    if i < |events| - 1 {
      ChainEntry(prev, next, events[..|events| - 1], i);
    }
  }

  // ----- the device spool -----

  /** The value of a spool: last number given out, head of the chain, entries not yet confirmed. */
  datatype Spool = Spool(lastNumber: nat, head: ChainHash, pending: seq<SpoolEntry>)

  const EMPTY_SPOOL := Spool(0, Genesis, [])

  function Emitted(s: Spool, event: AuditEvent): Spool {
    var number := s.lastNumber + 1;
    var hash := EntryHash(number, s.head, event);
    Spool(number, hash, s.pending + [SpoolEntry(number, s.head, event, hash)])
  }

  function EmittedAll(s: Spool, events: seq<AuditEvent>): Spool {
    if events == [] then s else Emitted(EmittedAll(s, events[..|events| - 1]), events[|events| - 1])
  }

  /** The entries with a number above `through`, in order. */
  function Above(entries: seq<SpoolEntry>, through: nat): seq<SpoolEntry> {
    if entries == [] then []
    else
      var n := |entries| - 1;
      Above(entries[..n], through) + (if entries[n].number > through then [entries[n]] else [])
  }

  class AuditSpool {
    var lastNumber: nat
    var head: ChainHash
    var pending: seq<SpoolEntry>

    function Value(): Spool
      reads this
    {
      Spool(lastNumber, head, pending)
    }

    constructor ()
      ensures Value() == EMPTY_SPOOL
    {
      lastNumber, head, pending := 0, Genesis, [];
    }

    constructor ResumeWith(lastNumber: nat, head: ChainHash, pending: seq<SpoolEntry>)
      ensures Value() == Spool(lastNumber, head, pending)
    {
      this.lastNumber, this.head, this.pending := lastNumber, head, pending;
    }

    method Emit(event: AuditEvent)
      modifies this
      ensures Value() == Emitted(old(Value()), event)
    {
      var number := lastNumber + 1;
      var prev := head;
      var hash := EntryHash(number, prev, event);
      lastNumber := number;
      head := hash;
      pending := pending + [SpoolEntry(number, prev, event, hash)];
    }

    method Peek() returns (entries: seq<SpoolEntry>, at: ChainHash)
      ensures entries == pending && at == head
    {
      entries, at := pending, head;
    }

    method Drain() returns (entries: seq<SpoolEntry>, at: ChainHash)
      modifies this
      ensures entries == old(pending) && at == old(head)
      ensures Value() == old(Value()).(pending := [])
    {
      entries, at := pending, head;
      pending := [];
    }

    method ConfirmThrough(through: nat)
      modifies this
      ensures Value() == old(Value()).(pending := Above(old(pending), through))
    {
      var kept := [];
      for i := 0 to |pending|
        invariant pending == old(pending) && lastNumber == old(lastNumber) && head == old(head)
        invariant kept == Above(pending[..i], through)
      {
        assert pending[..i + 1][..i] == pending[..i];
        if pending[i].number > through {
          kept := kept + [pending[i]];
        }
      }
      assert pending[..|pending|] == pending;
      pending := kept;
    }
  }
}
