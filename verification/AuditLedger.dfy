/**
 The gateway side of the audit trail: the ledger that admits batches, the store that persists
 its chains, and the gateway operations that keep the two in step and rebuild the one from
 the other.
 */
module AuditLedger {
  import opened Common
  import opened AuditChain

  type DeviceId = nat

  datatype DeviceChain = DeviceChain(publicKey: PublicKey, nextNumber: nat, head: ChainHash)

  datatype IngestError = UnknownDevice(device: DeviceId) | Rejected(error: AuditError)

  /** An alert; its kind and text are a function of the error. */
  datatype AuditAlert = AuditAlert(device: DeviceId, error: AuditError)

  datatype Admission = Admission(device: DeviceId, event: AuditEvent)

  type Verdict = Result<seq<AuditEvent>, IngestError>

  // ----- the ledger -----

  datatype Ledger = Ledger(
    chains: map<DeviceId, DeviceChain>, verified: seq<Admission>, alerts: seq<AuditAlert>)

  const EMPTY_LEDGER := Ledger(map[], [], [])

  function Admissions(device: DeviceId, events: seq<AuditEvent>): seq<Admission> {
    seq(|events|, i requires 0 <= i < |events| => Admission(device, events[i]))
  }

  function WithDevice(l: Ledger, device: DeviceId, key: PublicKey, next: nat, head: ChainHash): Ledger {
    l.(chains := l.chains[device := DeviceChain(key, next, head)])
  }

  function VerdictOn(chains: map<DeviceId, DeviceChain>, device: DeviceId, batch: SignedSpoolBatch): Verdict {
    if device !in chains then Err(UnknownDevice(device))
    else
      var c := chains[device];
      match CheckBatch(c.head, c.nextNumber, batch, c.publicKey)
      case Err(error) => Err(Rejected(error))
      case Ok(_) => Ok(EventsOf(batch.entries))
  }

  function Ingested(l: Ledger, device: DeviceId, batch: SignedSpoolBatch): Ledger {
    match VerdictOn(l.chains, device, batch)
    case Err(UnknownDevice(_)) => l
    case Err(Rejected(error)) => l.(alerts := l.alerts + [AuditAlert(device, error)])
    case Ok(events) =>
      var c := l.chains[device];
      Ledger(l.chains[device := DeviceChain(c.publicKey, c.nextNumber + |events|, batch.head)],
             l.verified + Admissions(device, events), l.alerts)
  }

  class AuditLedger {
    var chains: map<DeviceId, DeviceChain>
    var verified: seq<Admission>
    var alerts: seq<AuditAlert>

    function Value(): Ledger
      reads this
    {
      Ledger(chains, verified, alerts)
    }

    constructor ()
      ensures Value() == EMPTY_LEDGER
    {
      chains, verified, alerts := map[], [], [];
    }

    method RegisterDevice(device: DeviceId, key: PublicKey)
      modifies this
      ensures Value() == WithDevice(old(Value()), device, key, 1, Genesis)
    {
      chains := chains[device := DeviceChain(key, 1, Genesis)];
    }

    method RestoreDevice(device: DeviceId, key: PublicKey, next: nat, head: ChainHash)
      modifies this
      ensures Value() == WithDevice(old(Value()), device, key, next, head)
    {
      chains := chains[device := DeviceChain(key, next, head)];
    }

    method Ingest(device: DeviceId, batch: SignedSpoolBatch) returns (r: Verdict)
      modifies this
      ensures r == VerdictOn(old(chains), device, batch)
      ensures Value() == Ingested(old(Value()), device, batch)
    {
      if device !in chains {
        return Err(UnknownDevice(device));
      }
      var chain := chains[device];
      var checked := VerifyBatch(chain.head, chain.nextNumber, batch, chain.publicKey);
      if checked.Err? {
        alerts := alerts + [AuditAlert(device, checked.error)];
        return Err(Rejected(checked.error));
      }
      var events := EventsOf(batch.entries);
      chains := chains[device := DeviceChain(chain.publicKey, chain.nextNumber + |events|, checked.value)];
      for i := 0 to |events|
        invariant verified == old(verified) + Admissions(device, events[..i])
        invariant chains == old(chains)[device := DeviceChain(chain.publicKey, chain.nextNumber + |events|, checked.value)]
        invariant alerts == old(alerts)
      {
        assert Admissions(device, events[..i + 1]) == Admissions(device, events[..i]) + [Admission(device, events[i])];
        verified := verified + [Admission(device, events[i])];
      }
      assert events[..|events|] == events;
      return Ok(events);
    }
  }

  // ----- every run of the ledger -----

  datatype LedgerOp =
    | Register(device: DeviceId, key: PublicKey)
    | Restore(device: DeviceId, key: PublicKey, next: nat, head: ChainHash)
    | Ingest(device: DeviceId, batch: SignedSpoolBatch)

  function Applied(l: Ledger, op: LedgerOp): Ledger {
    match op
    case Register(d, key) => WithDevice(l, d, key, 1, Genesis)
    case Restore(d, key, next, head) => WithDevice(l, d, key, next, head)
    case Ingest(d, batch) => Ingested(l, d, batch)
  }

  function LedgerAfter(ops: seq<LedgerOp>): Ledger {
    if ops == [] then EMPTY_LEDGER else Applied(LedgerAfter(ops[..|ops| - 1]), ops[|ops| - 1])
  }

  /** Where a device's chain was (re)started, and the events of the genuine batches since then. */
  datatype Since = Since(key: PublicKey, next: nat, head: ChainHash, events: seq<AuditEvent>)

  /** Reads the run only: no ledger state is consulted. */
  function History(ops: seq<LedgerOp>, device: DeviceId): Option<Since> {
    if ops == [] then None
    else
      var before := History(ops[..|ops| - 1], device);
      match ops[|ops| - 1]
      case Register(d, key) => if d == device then Some(Since(key, 1, Genesis, [])) else before
      case Restore(d, key, next, head) => if d == device then Some(Since(key, next, head, [])) else before
      case Ingest(d, batch) =>
        if d == device && before.Some? then Some(Advanced(before.value, batch)) else before
  }

  predicate Continues(s: Since, batch: SignedSpoolBatch) {
    Genuine(HeadAfter(s.head, s.next, s.events), s.next + |s.events|, batch, s.key)
  }

  function Advanced(s: Since, batch: SignedSpoolBatch): Since {
    if Continues(s, batch) then s.(events := s.events + EventsOf(batch.entries)) else s
  }

  /** The chain position that a history stands for. */
  function PositionOf(s: Since): DeviceChain {
    DeviceChain(s.key, s.next + |s.events|, HeadAfter(s.head, s.next, s.events))
  }

  /** Ingesting moves a tracked chain exactly as the history advances. */
  lemma IngestAdvances(l: Ledger, device: DeviceId, s: Since, batch: SignedSpoolBatch)
    requires device in l.chains && l.chains[device] == PositionOf(s)
    ensures VerdictOn(l.chains, device, batch).Ok? <==> Continues(s, batch)
    ensures device in Ingested(l, device, batch).chains
    ensures Ingested(l, device, batch).chains[device] == PositionOf(Advanced(s, batch))
  {
    VerdictIsGenuineness(l.chains, device, batch);
    HeadAfterConcat(s.head, s.next, s.events, EventsOf(batch.entries));
  }

  lemma VerdictIsGenuineness(chains: map<DeviceId, DeviceChain>, device: DeviceId, batch: SignedSpoolBatch)
    requires device in chains
    ensures VerdictOn(chains, device, batch).Ok? <==>
            Genuine(chains[device].head, chains[device].nextNumber, batch, chains[device].publicKey)
  {
    AcceptedIsGenuine(chains[device].head, chains[device].nextNumber, batch, chains[device].publicKey);
  }

  function EventsFor(verified: seq<Admission>, device: DeviceId): seq<AuditEvent> {
    if verified == [] then []
    else
      var n := |verified| - 1;
      EventsFor(verified[..n], device) + (if verified[n].device == device then [verified[n].event] else [])
  }

  lemma {:induction false} EventsForConcat(a: seq<Admission>, b: seq<Admission>, device: DeviceId)
    ensures EventsFor(a + b, device) == EventsFor(a, device) + EventsFor(b, device)
    decreases |b|
  {
    if b == [] {
      assert a + b == a;
    } else {
      EventsForConcat(a, b[..|b| - 1], device);
      assert (a + b)[..|a + b| - 1] == a + b[..|b| - 1];
    }
  }

  lemma {:induction false} EventsForAdmissions(d: DeviceId, events: seq<AuditEvent>, device: DeviceId)
    ensures EventsFor(Admissions(d, events), device) == if d == device then events else []
    decreases |events|
  {
    if events != [] {
      var n := |events| - 1;
      EventsForAdmissions(d, events[..n], device);
      assert Admissions(d, events)[..n] == Admissions(d, events[..n]);
      LastOf(events, n);
    }
  }

  /** The ledger position of a device is what its history says. */
  ghost predicate TracksPosition(ops: seq<LedgerOp>, device: DeviceId) {
    var l, h := LedgerAfter(ops), History(ops, device);
    && (device in l.chains <==> h.Some?)
    && (h.Some? ==> l.chains[device] == PositionOf(h.value))
  }

  predicate EndsWith(s: seq<AuditEvent>, tail: seq<AuditEvent>) {
    |tail| <= |s| && s[|s| - |tail|..] == tail
  }

  lemma {:induction false} LedgerTracksPosition(ops: seq<LedgerOp>, device: DeviceId)
    ensures TracksPosition(ops, device)
  {
    if ops != [] {
      var n := |ops| - 1;
      LedgerTracksPosition(ops[..n], device);
      if ops[n].Ingest? {
        var l, h := LedgerAfter(ops[..n]), History(ops[..n], device);
        IngestIsIsolated(l, ops[n].device, ops[n].batch, device);
        if ops[n].device == device && h.Some? {
          IngestAdvances(l, device, h.value, ops[n].batch);
        }
      }
    }
  }

  /** The verified log of a device ends with the events of its history. */
  lemma {:induction false} LogEndsWithHistory(ops: seq<LedgerOp>, device: DeviceId)
    ensures var h := History(ops, device);
            h.Some? ==> EndsWith(EventsFor(LedgerAfter(ops).verified, device), h.value.events)
  {
    if ops != [] {
      var n := |ops| - 1;
      LogEndsWithHistory(ops[..n], device);
      if ops[n].Ingest? {
        var l, h := LedgerAfter(ops[..n]), History(ops[..n], device);
        LedgerTracksPosition(ops[..n], device);
        IngestKeepsLog(l, ops[n].device, ops[n].batch, device);
        if ops[n].device == device && h.Some? {
          IngestAdvances(l, device, h.value, ops[n].batch);
          SuffixGrows(EventsFor(l.verified, device), h.value.events, EventsOf(ops[n].batch.entries));
        }
      }
    }
  }

  lemma IngestKeepsLog(l: Ledger, d: DeviceId, batch: SignedSpoolBatch, device: DeviceId)
    ensures EventsFor(Ingested(l, d, batch).verified, device) ==
            EventsFor(l.verified, device) +
            if d == device && VerdictOn(l.chains, d, batch).Ok? then EventsOf(batch.entries) else []
  {
    EventsForConcat(l.verified, Admissions(d, EventsOf(batch.entries)), device);
    EventsForAdmissions(d, EventsOf(batch.entries), device);
  }

  lemma SuffixGrows(s: seq<AuditEvent>, tail: seq<AuditEvent>, more: seq<AuditEvent>)
    requires EndsWith(s, tail)
    ensures EndsWith(s + more, tail + more)
  {
    assert (s + more)[|s| - |tail|..] == s[|s| - |tail|..] + more;
  }

  // The whole record of a run, read from the run alone.

  /** Why a batch does not continue a history. */
  function FaultOf(s: Since, batch: SignedSpoolBatch): AuditError
    requires !Continues(s, batch)
  {
    var p := PositionOf(s);
    AcceptedIsGenuine(p.head, p.nextNumber, batch, p.publicKey);
    CheckBatch(p.head, p.nextNumber, batch, p.publicKey).error
  }

  /** What an operation adds to the alerts: one for each batch of a known device that does not continue its history. */
  function NewAlerts(before: seq<LedgerOp>, op: LedgerOp): seq<AuditAlert> {
    match op
    case Ingest(d, batch) =>
      var h := History(before, d);
      if h.Some? && !Continues(h.value, batch) then [AuditAlert(d, FaultOf(h.value, batch))] else []
    case _ => []
  }

  /** What it adds to the log: the events of each batch that does. */
  function NewAdmissions(before: seq<LedgerOp>, op: LedgerOp): seq<Admission> {
    match op
    case Ingest(d, batch) =>
      var h := History(before, d);
      if h.Some? && Continues(h.value, batch) then Admissions(d, EventsOf(batch.entries)) else []
    case _ => []
  }

  function RunAlerts(ops: seq<LedgerOp>): seq<AuditAlert> {
    if ops == [] then [] else RunAlerts(ops[..|ops| - 1]) + NewAlerts(ops[..|ops| - 1], ops[|ops| - 1])
  }

  function RunLog(ops: seq<LedgerOp>): seq<Admission> {
    if ops == [] then [] else RunLog(ops[..|ops| - 1]) + NewAdmissions(ops[..|ops| - 1], ops[|ops| - 1])
  }

  /** What one ingest records, given the history of its device. */
  lemma IngestRecords(l: Ledger, device: DeviceId, h: Option<Since>, batch: SignedSpoolBatch)
    requires device in l.chains <==> h.Some?
    requires h.Some? ==> l.chains[device] == PositionOf(h.value)
    ensures var u := Ingested(l, device, batch);
            && u.alerts == l.alerts + (if h.Some? && !Continues(h.value, batch)
                                       then [AuditAlert(device, FaultOf(h.value, batch))] else [])
            && u.verified == l.verified + (if h.Some? && Continues(h.value, batch)
                                           then Admissions(device, EventsOf(batch.entries)) else [])
            && (h.None? ==> VerdictOn(l.chains, device, batch) == Err(UnknownDevice(device)) && u == l)
            && (h.Some? && !Continues(h.value, batch) ==>
                  VerdictOn(l.chains, device, batch) == Err(Rejected(FaultOf(h.value, batch))))
  {
    if h.Some? {
      IngestAdvances(l, device, h.value, batch);
    }
  }

  /**
   Over every run, alerts and log are exactly those that the run calls for: one alert for each batch
   of a known device that does not continue its history, naming device and fault, and no other.
   */
  lemma {:induction false} RunIsRecorded(ops: seq<LedgerOp>)
    ensures LedgerAfter(ops).alerts == RunAlerts(ops)
    ensures LedgerAfter(ops).verified == RunLog(ops)
  {
    if ops != [] {
      var n := |ops| - 1;
      RunIsRecorded(ops[..n]);
      if ops[n].Ingest? {
        LedgerTracksPosition(ops[..n], ops[n].device);
        IngestRecords(LedgerAfter(ops[..n]), ops[n].device, History(ops[..n], ops[n].device), ops[n].batch);
      }
    }
  }

  /** Since registration: the next number is one plus the events admitted, the head their fold. */
  lemma RegisteredPosition(before: seq<LedgerOp>, device: DeviceId, key: PublicKey, ingests: seq<LedgerOp>)
    requires forall i :: 0 <= i < |ingests| ==>
               ingests[i].Ingest? || ingests[i].device != device
    ensures var ops := before + [Register(device, key)] + ingests;
            && History(ops, device).Some?
            && var events := History(ops, device).value.events;
               LedgerAfter(ops).chains.Keys >= {device}
               && LedgerAfter(ops).chains[device] == DeviceChain(key, 1 + |events|, HeadAfter(Genesis, 1, events))
  {
    var ops := before + [Register(device, key)] + ingests;
    OriginKept(before, device, key, ingests);
    LedgerTracksPosition(ops, device);
  }

  lemma {:induction false} OriginKept(before: seq<LedgerOp>, device: DeviceId, key: PublicKey, ingests: seq<LedgerOp>)
    requires forall i :: 0 <= i < |ingests| ==> ingests[i].Ingest? || ingests[i].device != device
    ensures var h := History(before + [Register(device, key)] + ingests, device);
            h.Some? && h.value.key == key && h.value.next == 1 && h.value.head == Genesis
    decreases |ingests|
  {
    var ops := before + [Register(device, key)] + ingests;
    if ingests == [] {
      assert ops[|ops| - 1] == Register(device, key);
    } else {
      var n := |ingests| - 1;
      OriginKept(before, device, key, ingests[..n]);
      assert ops[..|ops| - 1] == before + [Register(device, key)] + ingests[..n];
    }
  }

  /** A rejected batch, or one for another device, moves neither number nor head. */
  lemma IngestIsIsolated(l: Ledger, device: DeviceId, batch: SignedSpoolBatch, other: DeviceId)
    ensures VerdictOn(l.chains, device, batch).Err? ==>
              Ingested(l, device, batch).chains == l.chains && Ingested(l, device, batch).verified == l.verified
    ensures other != device ==>
              && (other in Ingested(l, device, batch).chains <==> other in l.chains)
              && (other in l.chains ==> Ingested(l, device, batch).chains[other] == l.chains[other])
              && EventsFor(Ingested(l, device, batch).verified, other) == EventsFor(l.verified, other)
  {
    IngestKeepsLog(l, device, batch, other);
  }

  // ----- persistence -----

  datatype PersistedChain = PersistedChain(
    device: DeviceId, publicKey: PublicKey, nextNumber: nat, head: ChainHash)

  datatype StoredEvent = StoredEvent(device: DeviceId, number: nat, event: AuditEvent)

  datatype Stored = Stored(
    chains: map<DeviceId, PersistedChain>, events: seq<StoredEvent>, alerts: seq<AuditAlert>)

  const EMPTY_STORE := Stored(map[], [], [])

  function StoredEvents(device: DeviceId, entries: seq<SpoolEntry>): seq<StoredEvent> {
    seq(|entries|, i requires 0 <= i < |entries| => StoredEvent(device, entries[i].number, entries[i].event))
  }

  function StoreRegistered(s: Stored, device: DeviceId, key: PublicKey): Stored {
    s.(chains := s.chains[device := PersistedChain(device, key, 1, Genesis)])
  }

  function StoreAppended(s: Stored, device: DeviceId, entries: seq<SpoolEntry>, next: nat, head: ChainHash): Stored {
    s.(chains := if device in s.chains
                 then s.chains[device := s.chains[device].(nextNumber := next, head := head)]
                 else s.chains,
       events := s.events + StoredEvents(device, entries))
  }

  class MemAuditStore {
    var chains: map<DeviceId, PersistedChain>
    var events: seq<StoredEvent>
    var alerts: seq<AuditAlert>

    function Value(): Stored
      reads this
    {
      Stored(chains, events, alerts)
    }

    constructor ()
      ensures Value() == EMPTY_STORE
    {
      chains, events, alerts := map[], [], [];
    }

    method Register(device: DeviceId, key: PublicKey)
      modifies this
      ensures Value() == StoreRegistered(old(Value()), device, key)
    {
      chains := chains[device := PersistedChain(device, key, 1, Genesis)];
    }

    method Append(device: DeviceId, entries: seq<SpoolEntry>, next: nat, head: ChainHash)
      modifies this
      ensures Value() == StoreAppended(old(Value()), device, entries, next, head)
    {
      if device in chains {
        chains := chains[device := chains[device].(nextNumber := next, head := head)];
      }
      ghost var settled := chains;
      for i := 0 to |entries|
        invariant events == old(events) + StoredEvents(device, entries[..i])
        invariant chains == settled && alerts == old(alerts)
      {
        assert StoredEvents(device, entries[..i + 1])
            == StoredEvents(device, entries[..i]) + [StoredEvent(device, entries[i].number, entries[i].event)];
        events := events + [StoredEvent(device, entries[i].number, entries[i].event)];
      }
      assert entries[..|entries|] == entries;
    }

    method RecordAlert(alert: AuditAlert)
      modifies this
      ensures Value() == old(Value()).(alerts := old(alerts) + [alert])
    {
      alerts := alerts + [alert];
    }

    /** All chains, in whatever order the map yields them. */
    method LoadChains() returns (out: seq<PersistedChain>)
      ensures |out| == |chains| && forall c :: c in out <==> c in chains.Values
    {
      out := [];
      var todo := chains.Keys;
      while todo != {}
        invariant todo <= chains.Keys && |out| + |todo| == |chains|
        invariant forall c :: c in out <==> exists d :: d in chains.Keys - todo && chains[d] == c
        decreases |todo|
      {
        var d :| d in todo;
        out := out + [chains[d]];
        todo := todo - {d};
      }
    }
  }

  // ----- the gateway: ledger and store together -----

  datatype GatewayAudit = GatewayAudit(ledger: Ledger, store: Stored)

  const EMPTY_GATEWAY := GatewayAudit(EMPTY_LEDGER, EMPTY_STORE)

  /** The newest alert of a device, if it has one. */
  function LastAlert(alerts: seq<AuditAlert>, device: DeviceId): Option<AuditAlert> {
    if alerts == [] then None
    else if alerts[|alerts| - 1].device == device then Some(alerts[|alerts| - 1])
    else LastAlert(alerts[..|alerts| - 1], device)
  }

  function Enrolled(g: GatewayAudit, device: DeviceId, key: PublicKey): GatewayAudit {
    GatewayAudit(WithDevice(g.ledger, device, key, 1, Genesis), StoreRegistered(g.store, device, key))
  }

  function Received(g: GatewayAudit, device: DeviceId, batch: SignedSpoolBatch): GatewayAudit {
    var after := Ingested(g.ledger, device, batch);
    match VerdictOn(g.ledger.chains, device, batch)
    case Ok(_) =>
      var c := after.chains[device];
      GatewayAudit(after, StoreAppended(g.store, device, batch.entries, c.nextNumber, c.head))
    case Err(_) =>
      var alert := LastAlert(after.alerts, device);
      GatewayAudit(after,
                   if alert.Some? then g.store.(alerts := g.store.alerts + [alert.value]) else g.store)
  }

  class Gateway {
    const audit: AuditLedger
    const auditStore: MemAuditStore

    function Value(): GatewayAudit
      reads audit, auditStore
    {
      GatewayAudit(audit.Value(), auditStore.Value())
    }

    /** A gateway process over an existing store: its ledger starts empty. */
    constructor (store: MemAuditStore)
      ensures auditStore == store && fresh(audit)
      ensures audit.Value() == EMPTY_LEDGER
    {
      auditStore := store;
      audit := new AuditLedger();
    }

    /** The audit part of completing a device enrollment. */
    method EnrollDevice(device: DeviceId, key: PublicKey)
      modifies audit, auditStore
      ensures Value() == Enrolled(old(Value()), device, key)
    {
      audit.RegisterDevice(device, key);
      auditStore.Register(device, key);
    }

    method IngestDeviceAudit(device: DeviceId, batch: SignedSpoolBatch) returns (r: Verdict)
      modifies audit, auditStore
      ensures r == VerdictOn(old(audit.chains), device, batch)
      ensures Value() == Received(old(Value()), device, batch)
    {
      r := audit.Ingest(device, batch);
      if r.Ok? {
        var next := if device in audit.chains then audit.chains[device].nextNumber else 1;
        var head := if device in audit.chains then audit.chains[device].head else Genesis;
        auditStore.Append(device, batch.entries, next, head);
      } else {
        var alert := LastAlert(audit.alerts, device);
        if alert.Some? {
          auditStore.RecordAlert(alert.value);
        }
      }
    }

    /** Rebuilds the chains from the store, one restored device at a time. */
    method HydrateAudit() returns (n: nat)
      requires forall d :: d in auditStore.chains ==> auditStore.chains[d].device == d
      modifies audit
      ensures n == |auditStore.chains|
      ensures audit.Value() == old(audit.Value()).(chains := old(audit.chains) + Hydrated(auditStore.Value()))
    {
      var chains := auditStore.LoadChains();
      n := |chains|;
      for i := 0 to n
        invariant audit.verified == old(audit.verified) && audit.alerts == old(audit.alerts)
        invariant auditStore.Value() == old(auditStore.Value())
        invariant audit.chains == RestoredAll(old(audit.chains), chains[..i])
      {
        var c := chains[i];
        audit.RestoreDevice(c.device, c.publicKey, c.nextNumber, c.head);
        assert chains[..i + 1][..i] == chains[..i];
      }
      assert chains[..n] == chains;
      RestoringAllHydrates(old(audit.chains), chains, auditStore.Value());
    }
  }

  function RestoredAll(m: map<DeviceId, DeviceChain>, cs: seq<PersistedChain>): map<DeviceId, DeviceChain> {
    if cs == [] then m
    else RestoredAll(m, cs[..|cs| - 1])[cs[|cs| - 1].device := ChainPart(cs[|cs| - 1])]
  }

  lemma {:induction false} RestoredOne(m: map<DeviceId, DeviceChain>, cs: seq<PersistedChain>, s: Stored, d: DeviceId)
    requires forall c :: c in cs ==> c.device in s.chains && s.chains[c.device] == c
    ensures d in RestoredAll(m, cs) <==> d in m || exists c :: c in cs && c.device == d
    ensures d in RestoredAll(m, cs) ==>
              RestoredAll(m, cs)[d] == if exists c :: c in cs && c.device == d then ChainPart(s.chains[d]) else m[d]
  {
    if cs != [] {
      RestoredOne(m, cs[..|cs| - 1], s, d);
    }
  }

  /** The order in which the chains are restored does not matter. */
  lemma RestoringAllHydrates(m: map<DeviceId, DeviceChain>, cs: seq<PersistedChain>, s: Stored)
    requires forall d :: d in s.chains ==> s.chains[d].device == d
    requires forall c :: c in cs <==> c in s.chains.Values
    ensures RestoredAll(m, cs) == m + Hydrated(s)
  {
    forall d ensures d in RestoredAll(m, cs) <==> d in m + Hydrated(s) {
      RestoredOne(m, cs, s, d);
      if d in s.chains {
        assert s.chains[d] in cs;
      }
    }
    forall d | d in RestoredAll(m, cs) ensures RestoredAll(m, cs)[d] == (m + Hydrated(s))[d] {
      RestoredOne(m, cs, s, d);
      if d in s.chains {
        assert s.chains[d] in cs;
      }
    }
  }

  function ChainPart(p: PersistedChain): DeviceChain {
    DeviceChain(p.publicKey, p.nextNumber, p.head)
  }

  /** The chains that a store holds. */
  function Hydrated(s: Stored): map<DeviceId, DeviceChain> {
    map d | d in s.chains :: ChainPart(s.chains[d])
  }

  datatype GatewayOp = Enroll(device: DeviceId, key: PublicKey) | Receive(device: DeviceId, batch: SignedSpoolBatch)

  function GatewayStep(g: GatewayAudit, op: GatewayOp): GatewayAudit {
    match op
    case Enroll(d, key) => Enrolled(g, d, key)
    case Receive(d, batch) => Received(g, d, batch)
  }

  function GatewayAfter(g: GatewayAudit, ops: seq<GatewayOp>): GatewayAudit {
    if ops == [] then g else GatewayStep(GatewayAfter(g, ops[..|ops| - 1]), ops[|ops| - 1])
  }

  /** Store and ledger hold the same chains and alerts, and the stored events are the verified log. */
  ghost predicate InStep(g: GatewayAudit) {
    && g.store.alerts == g.ledger.alerts
    && (forall i :: 0 <= i < |g.ledger.alerts| ==> g.ledger.alerts[i].device in g.ledger.chains)
    && g.ledger.chains == Hydrated(g.store)
    && (forall d :: d in g.store.chains ==> g.store.chains[d].device == d)
    && |g.store.events| == |g.ledger.verified|
    && forall i :: 0 <= i < |g.store.events| ==>
         g.ledger.verified[i] == Admission(g.store.events[i].device, g.store.events[i].event)
  }

  lemma {:induction false} NoAlertFor(alerts: seq<AuditAlert>, device: DeviceId)
    requires forall i :: 0 <= i < |alerts| ==> alerts[i].device != device
    ensures LastAlert(alerts, device) == None
  {
    if alerts != [] {
      NoAlertFor(alerts[..|alerts| - 1], device);
    }
  }

  lemma ReceivingStaysInStep(g: GatewayAudit, device: DeviceId, batch: SignedSpoolBatch)
    requires InStep(g)
    ensures InStep(Received(g, device, batch))
  {
    if device !in g.ledger.chains {
      NoAlertFor(g.ledger.alerts, device);
    }
  }

  lemma {:induction false} GatewayStaysInStep(ops: seq<GatewayOp>)
    ensures InStep(GatewayAfter(EMPTY_GATEWAY, ops))
  {
    if ops != [] {
      var n := |ops| - 1;
      GatewayStaysInStep(ops[..n]);
      if ops[n].Receive? {
        ReceivingStaysInStep(GatewayAfter(EMPTY_GATEWAY, ops[..n]), ops[n].device, ops[n].batch);
      }
    }
  }

  /** The ledger's part of a gateway operation. */
  function LedgerOpOf(op: GatewayOp): LedgerOp {
    match op case Enroll(d, key) => Register(d, key) case Receive(d, batch) => Ingest(d, batch)
  }

  function LedgerOps(ops: seq<GatewayOp>): seq<LedgerOp> {
    seq(|ops|, i requires 0 <= i < |ops| => LedgerOpOf(ops[i]))
  }

  lemma LedgerOpsLast(ops: seq<GatewayOp>)
    requires ops != []
    ensures var n := |ops| - 1;
            LedgerOps(ops)[..n] == LedgerOps(ops[..n]) && LedgerOps(ops)[n] == LedgerOpOf(ops[n])
  {
  }

  lemma {:induction false} GatewayRunIsLedgerRun(ops: seq<GatewayOp>)
    ensures GatewayAfter(EMPTY_GATEWAY, ops).ledger == LedgerAfter(LedgerOps(ops))
  {
    if ops != [] {
      GatewayRunIsLedgerRun(ops[..|ops| - 1]);
      LedgerOpsLast(ops);
    }
  }

  /** What an operation adds to the stored events: those of a batch that continues the history, numbered on from it. */
  function NewStored(before: seq<LedgerOp>, op: LedgerOp): seq<StoredEvent> {
    match op
    case Ingest(d, batch) =>
      var h := History(before, d);
      if h.Some? && Continues(h.value, batch) then
        var from := h.value.next + |h.value.events|;
        seq(|batch.entries|, i requires 0 <= i < |batch.entries| => StoredEvent(d, from + i, batch.entries[i].event))
      else []
    case _ => []
  }

  function RunStored(ops: seq<LedgerOp>): seq<StoredEvent> {
    if ops == [] then [] else RunStored(ops[..|ops| - 1]) + NewStored(ops[..|ops| - 1], ops[|ops| - 1])
  }

  lemma StoredAreNumbered(s: Since, device: DeviceId, batch: SignedSpoolBatch)
    requires Continues(s, batch)
    ensures StoredEvents(device, batch.entries) ==
            seq(|batch.entries|, i requires 0 <= i < |batch.entries| =>
              StoredEvent(device, s.next + |s.events| + i, batch.entries[i].event))
  {
    forall i | 0 <= i < |batch.entries| ensures batch.entries[i].number == s.next + |s.events| + i {
      ChainEntry(HeadAfter(s.head, s.next, s.events), s.next + |s.events|, EventsOf(batch.entries), i);
    }
  }

  lemma ReceivingStores(g: GatewayAudit, device: DeviceId, h: Option<Since>, batch: SignedSpoolBatch)
    requires device in g.ledger.chains <==> h.Some?
    requires h.Some? ==> g.ledger.chains[device] == PositionOf(h.value)
    ensures Received(g, device, batch).store.events ==
            g.store.events + if h.Some? && Continues(h.value, batch) then StoredEvents(device, batch.entries) else []
  {
    if h.Some? {
      IngestAdvances(g.ledger, device, h.value, batch);
    }
  }

  lemma ReceivingStoresNew(before: seq<LedgerOp>, g: GatewayAudit, device: DeviceId, batch: SignedSpoolBatch)
    requires g.ledger == LedgerAfter(before)
    ensures Received(g, device, batch).store.events == g.store.events + NewStored(before, Ingest(device, batch))
  {
    var h := History(before, device);
    LedgerTracksPosition(before, device);
    ReceivingStores(g, device, h, batch);
    if h.Some? && Continues(h.value, batch) {
      StoredAreNumbered(h.value, device, batch);
    }
  }

  lemma RunStoredLast(before: seq<LedgerOp>, op: LedgerOp)
    ensures RunStored(before + [op]) == RunStored(before) + NewStored(before, op)
  {
    assert (before + [op])[..|before|] == before;
  }

  /** Over every run of the gateway, its store holds the admitted events, numbered as their chain numbers them. */
  lemma {:induction false} RunIsStored(ops: seq<GatewayOp>)
    ensures GatewayAfter(EMPTY_GATEWAY, ops).store.events == RunStored(LedgerOps(ops))
  {
    if ops != [] {
      var n := |ops| - 1;
      RunIsStored(ops[..n]);
      GatewayRunIsLedgerRun(ops[..n]);
      LedgerOpsLast(ops);
      LastOf(LedgerOps(ops), n);
      RunStoredLast(LedgerOps(ops[..n]), LedgerOpOf(ops[n]));
      if ops[n].Receive? {
        ReceivingStoresNew(LedgerOps(ops[..n]), GatewayAfter(EMPTY_GATEWAY, ops[..n]), ops[n].device, ops[n].batch);
      }
    }
  }

  /** The verdicts that a run of operations gets, in order. */
  function Verdicts(g: GatewayAudit, ops: seq<GatewayOp>): seq<Verdict> {
    if ops == [] then []
    else
      var n := |ops| - 1;
      Verdicts(g, ops[..n]) +
      match ops[n]
      case Enroll(_, _) => []
      case Receive(d, batch) => [VerdictOn(GatewayAfter(g, ops[..n]).ledger.chains, d, batch)]
  }

  lemma StepDependsOnChains(a: GatewayAudit, b: GatewayAudit, op: GatewayOp)
    requires a.ledger.chains == b.ledger.chains
    ensures GatewayStep(a, op).ledger.chains == GatewayStep(b, op).ledger.chains
  {
  }

  lemma {:induction false} SameChainsSameVerdicts(a: GatewayAudit, b: GatewayAudit, ops: seq<GatewayOp>)
    requires a.ledger.chains == b.ledger.chains
    ensures GatewayAfter(a, ops).ledger.chains == GatewayAfter(b, ops).ledger.chains
    ensures Verdicts(a, ops) == Verdicts(b, ops)
  {
    if ops != [] {
      var n := |ops| - 1;
      SameChainsSameVerdicts(a, b, ops[..n]);
      StepDependsOnChains(GatewayAfter(a, ops[..n]), GatewayAfter(b, ops[..n]), ops[n]);
    }
  }

  /** A gateway restarted and hydrated from the store gives the verdicts the old one would have given. */
  lemma HydratedGatewayAgrees(past: seq<GatewayOp>, later: seq<GatewayOp>)
    ensures var old' := GatewayAfter(EMPTY_GATEWAY, past);
            var restarted := GatewayAudit(EMPTY_LEDGER.(chains := Hydrated(old'.store)), old'.store);
            && restarted.ledger.chains == old'.ledger.chains
            && Verdicts(restarted, later) == Verdicts(old', later)
  {
    GatewayStaysInStep(past);
    var old' := GatewayAfter(EMPTY_GATEWAY, past);
    SameChainsSameVerdicts(GatewayAudit(EMPTY_LEDGER.(chains := Hydrated(old'.store)), old'.store), old', later);
  }
}
