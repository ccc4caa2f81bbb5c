/**
 The audit delivery protocol between one device and its gateway, as a state machine whose
 steps are the individual actions of a sync cycle.  Emits, gateway ingests and restarts may
 fall between any two of them.  A pushed batch stays queued until the gateway takes it; a push
 that the link acknowledges is never lost.
 */
module Delivery {
  import opened Common
  import opened AuditChain
  import opened AuditLedger

  /** How far the current sync cycle has got. */
  datatype Phase =
    | Idle
    | Checkpointed
    | Peeked(batch: SignedSpoolBatch)
    | Pushed(through: nat)
    | Confirmed

  /** The device: its spool, the saved checkpoint (the audit part of it) and what the link accepted. */
  datatype Device = Device(spool: Spool, saved: Option<Spool>, phase: Phase, pushed: seq<SignedSpoolBatch>)

  datatype Step =
    | Emit(event: AuditEvent)
    | SaveBefore
    | Peek
    | Push(online: bool)
    | Confirm
    | SaveAfter
    | Restart
    | TakeBatch

  /** The device part of a step; a step that does not fit the phase does nothing. */
  function DeviceStep(d: Device, step: Step, key: PublicKey): Device {
    match step
    case Emit(event) => d.(spool := Emitted(d.spool, event))
    case SaveBefore => if d.phase.Idle? then d.(saved := Some(d.spool), phase := Checkpointed) else d
    case Peek =>
      if !d.phase.Checkpointed? then d
      else if d.spool.pending == [] then d.(phase := Idle)
      else d.(phase := Peeked(SignBatch(key, d.spool.pending, d.spool.head)))
    case Push(online) =>
      if !d.phase.Peeked? then d
      else if !online || d.phase.batch.entries == [] then d.(phase := Idle)
      else
        var entries := d.phase.batch.entries;
        d.(pushed := d.pushed + [d.phase.batch], phase := Pushed(entries[|entries| - 1].number))
    case Confirm =>
      if !d.phase.Pushed? then d
      else d.(spool := d.spool.(pending := Above(d.spool.pending, d.phase.through)), phase := Confirmed)
    case SaveAfter => if d.phase.Confirmed? then d.(saved := Some(d.spool), phase := Idle) else d
    case Restart => d.(spool := if d.saved.Some? then d.saved.value else EMPTY_SPOOL, phase := Idle)
    case TakeBatch => d
  }

  function DeviceRun(d: Device, steps: seq<Step>, key: PublicKey): Device {
    if steps == [] then d else DeviceStep(DeviceRun(d, steps[..|steps| - 1], key), steps[|steps| - 1], key)
  }

  /**
   Device, gateway and history.  `taken` lists the batches the gateway has ingested;
   `emitted` is every event ever emitted, `kept` the chain entries that the device still knows
   of (a restart forgets what was emitted after the checkpoint), `savedKept` those at the
   checkpoint.
   */
  datatype System = System(
    id: DeviceId, key: PublicKey, device: Device, ledger: Ledger, taken: seq<SignedSpoolBatch>,
    emitted: seq<AuditEvent>, kept: seq<SpoolEntry>, savedKept: seq<SpoolEntry>)

  function Start(id: DeviceId, key: PublicKey): System {
    System(id, key, Device(EMPTY_SPOOL, None, Idle, []), WithDevice(EMPTY_LEDGER, id, key, 1, Genesis), [], [], [], [])
  }

  /** A pushed batch is still to be taken. */
  predicate Waiting(s: System) { |s.taken| < |s.device.pushed| }

  function NextBatch(s: System): SignedSpoolBatch
    requires Waiting(s)
  {
    s.device.pushed[|s.taken|]
  }

  predicate Saves(d: Device, step: Step) {
    (step.SaveBefore? && d.phase.Idle?) || (step.SaveAfter? && d.phase.Confirmed?)
  }

  function Next(s: System, step: Step): System {
    var device := DeviceStep(s.device, step, s.key);
    match step
    case Emit(event) =>
      s.(device := device, emitted := s.emitted + [event],
         kept := s.kept + [device.spool.pending[|device.spool.pending| - 1]])
    case Restart => s.(device := device, kept := s.savedKept)
    case TakeBatch =>
      if Waiting(s)
      then s.(ledger := Ingested(s.ledger, s.id, NextBatch(s)), taken := s.taken + [NextBatch(s)])
      else s
    case _ => s.(device := device, savedKept := if Saves(s.device, step) then s.kept else s.savedKept)
  }

  function Run(s: System, steps: seq<Step>): System {
    if steps == [] then s else Next(Run(s, steps[..|steps| - 1]), steps[|steps| - 1])
  }

  /** Between the acknowledged push and the second save, the checkpoint is behind the gateway. */
  predicate Exposed(d: Device) { d.phase.Pushed? || d.phase.Confirmed? }

  /** No restart falls into an exposed moment. */
  ghost predicate SafeRun(s: System, steps: seq<Step>) {
    steps != [] ==>
      var n := |steps| - 1;
      SafeRun(s, steps[..n]) && (steps[n].Restart? ==> !Exposed(Run(s, steps[..n]).device))
  }

  // ----- the invariant -----

  /** The head of a chain that starts at genesis and has these entries. */
  function LastHash(entries: seq<SpoolEntry>): ChainHash {
    if entries == [] then Genesis else entries[|entries| - 1].hash
  }

  /** The entries are a chain from genesis. */
  ghost predicate Chained(entries: seq<SpoolEntry>) {
    CheckEntries(Genesis, 1, entries) == Ok(LastHash(entries))
  }

  /** All entries of the batches, in order. */
  function Flat(batches: seq<SignedSpoolBatch>): seq<SpoolEntry> {
    if batches == [] then [] else Flat(batches[..|batches| - 1]) + batches[|batches| - 1].entries
  }

  /** A spool whose chain has the entries `log`, the last of them still pending. */
  ghost predicate SpoolOf(s: Spool, log: seq<SpoolEntry>) {
    && |s.pending| <= |log|
    && s.pending == log[|log| - |s.pending|..]
    && s.lastNumber == |log|
    && s.head == LastHash(log)
  }

  /** A signed batch that ends at the end of `upTo`. */
  ghost predicate Sealed(b: SignedSpoolBatch, upTo: seq<SpoolEntry>, key: PublicKey) {
    b.head == LastHash(upTo) && b.signature == SignedBy(key, b.head)
  }

  /** Every batch ends where the batches up to it end. */
  ghost predicate AllSealed(batches: seq<SignedSpoolBatch>, key: PublicKey) {
    batches != [] ==>
      var n := |batches| - 1;
      AllSealed(batches[..n], key) && Sealed(batches[n], Flat(batches), key)
  }

  /** The log: everything pushed, then (outside the exposed push) everything pending. */
  ghost predicate LogOk(d: Device, kept: seq<SpoolEntry>) {
    var sent := Flat(d.pushed);
    && SpoolOf(d.spool, kept)
    && if d.phase.Pushed?
       then sent <= kept && d.phase.through == |sent| && |kept| - |d.spool.pending| < |sent|
       else kept == sent + d.spool.pending
  }

  /** The checkpoint: behind the pushed batches in an exposed moment, level with them otherwise. */
  ghost predicate SavedOk(d: Device, kept: seq<SpoolEntry>, savedKept: seq<SpoolEntry>) {
    var sent := Flat(d.pushed);
    && savedKept <= kept
    && match d.saved
       case None => d.phase.Idle? && savedKept == [] && d.pushed == []
       case Some(saved) =>
         && SpoolOf(saved, savedKept)
         && if Exposed(d) then |savedKept| - |saved.pending| < |sent| else savedKept == sent + saved.pending
  }

  /** Pushed batches are sealed chain segments, and so is the one about to be pushed. */
  ghost predicate BatchesOk(d: Device, kept: seq<SpoolEntry>, key: PublicKey) {
    var sent := Flat(d.pushed);
    && AllSealed(d.pushed, key)
    && (d.phase.Peeked? ==>
          var b := d.phase.batch;
          b.entries != [] && sent + b.entries <= kept && Sealed(b, sent + b.entries, key))
  }

  /** The gateway stands where the batches it took end, and logged exactly their events. */
  ghost predicate GatewayOk(l: Ledger, id: DeviceId, key: PublicKey, taken: seq<SignedSpoolBatch>) {
    var got := Flat(taken);
    && id in l.chains
    && l.chains[id] == DeviceChain(key, 1 + |got|, LastHash(got))
    && EventsFor(l.verified, id) == EventsOf(got)
    && l.alerts == []
  }

  /** The gateway takes batches in the order of pushing. */
  ghost predicate TakenFrom(taken: seq<SignedSpoolBatch>, pushed: seq<SignedSpoolBatch>) { taken <= pushed }

  ghost predicate Inv(s: System) {
    && Chained(s.kept)
    && LogOk(s.device, s.kept)
    && SavedOk(s.device, s.kept, s.savedKept)
    && BatchesOk(s.device, s.kept, s.key)
    && TakenFrom(s.taken, s.device.pushed)
    && GatewayOk(s.ledger, s.id, s.key, s.taken)
  }

  // ----- chain facts -----

  /** Checking a concatenation is checking its parts one after the other. */
  lemma {:induction false} CheckConcat(prev: ChainHash, next: nat, a: seq<SpoolEntry>, b: seq<SpoolEntry>)
    ensures CheckEntries(prev, next, a + b) ==
            match CheckEntries(prev, next, a)
            case Err(error) => Err(error)
            case Ok(running) => CheckEntries(running, next + |a|, b)
    decreases |b|
  {
    if b == [] {
      assert a + b == a;
    } else {
      CheckConcat(prev, next, a, b[..|b| - 1]);
      assert (a + b)[..|a + b| - 1] == a + b[..|b| - 1];
    }
  }

  lemma {:induction false} ChainedHead(entries: seq<SpoolEntry>)
    requires CheckEntries(Genesis, 1, entries).Ok?
    ensures Chained(entries)
    ensures entries != [] ==> entries[|entries| - 1].number == |entries|
  {
  }

  lemma ChainedPrefix(a: seq<SpoolEntry>, b: seq<SpoolEntry>)
    requires a <= b && Chained(b)
    ensures Chained(a)
  {
    assert b == a + b[|a|..];
    CheckConcat(Genesis, 1, a, b[|a|..]);
    ChainedHead(a);
  }

  lemma FlatPush(batches: seq<SignedSpoolBatch>, b: SignedSpoolBatch)
    ensures Flat(batches + [b]) == Flat(batches) + b.entries
  {
    assert (batches + [b])[..|batches|] == batches;
  }

  lemma {:induction false} FlatPrefix(batches: seq<SignedSpoolBatch>, k: nat)
    requires k <= |batches|
    ensures Flat(batches[..k]) <= Flat(batches)
    decreases |batches|
  {
    if k == |batches| {
      assert batches[..k] == batches;
    } else {
      var n := |batches| - 1;
      assert batches[..n][..k] == batches[..k];
      FlatPrefix(batches[..n], k);
    }
  }

  lemma FlatTake(batches: seq<SignedSpoolBatch>, k: nat)
    requires k < |batches|
    ensures Flat(batches[..k + 1]) == Flat(batches[..k]) + batches[k].entries
  {
    assert batches[..k + 1][..k] == batches[..k];
  }

  lemma {:induction false} SealedAt(batches: seq<SignedSpoolBatch>, k: nat, key: PublicKey)
    requires k < |batches| && AllSealed(batches, key)
    ensures Sealed(batches[k], Flat(batches[..k + 1]), key)
    decreases |batches|
  {
    var n := |batches| - 1;
    if k < n {
      SealedAt(batches[..n], k, key);
      assert batches[..n][..k + 1] == batches[..k + 1];
    } else {
      assert batches[..k + 1] == batches;
    }
  }

  lemma EventsOfConcat(a: seq<SpoolEntry>, b: seq<SpoolEntry>)
    ensures EventsOf(a + b) == EventsOf(a) + EventsOf(b)
  {
  }

  /** The next batch of a chain is accepted where the chain stood before it. */
  lemma NextBatchAccepted(before: seq<SpoolEntry>, b: SignedSpoolBatch, key: PublicKey)
    requires Chained(before + b.entries) && Sealed(b, before + b.entries, key)
    ensures CheckBatch(LastHash(before), 1 + |before|, b, key).Ok?
  {
    CheckConcat(Genesis, 1, before, b.entries);
    ChainedHead(before);
  }

  /** The numbers of a chain are its positions. */
  lemma {:induction false} ChainedNumbers(log: seq<SpoolEntry>)
    requires Chained(log)
    ensures forall i :: 0 <= i < |log| ==> log[i].number == i + 1
  {
    if log != [] {
      ChainedPrefix(log[..|log| - 1], log);
      ChainedNumbers(log[..|log| - 1]);
      ChainedHead(log);
    }
  }

  /** Confirming through a number cuts consecutively numbered entries at that position. */
  lemma {:induction false} AboveNumbered(entries: seq<SpoolEntry>, from: nat, through: nat)
    requires forall i :: 0 <= i < |entries| ==> entries[i].number == from + i + 1
    requires from <= through <= from + |entries|
    ensures Above(entries, through) == entries[through - from..]
    decreases |entries|
  {
    if entries != [] {
      var n := |entries| - 1;
      if through <= from + n {
        AboveNumbered(entries[..n], from, through);
        assert entries[through - from..] == entries[..n][through - from..] + [entries[n]];
      } else {
        NothingAbove(entries, through);
      }
    }
  }

  lemma {:induction false} NothingAbove(entries: seq<SpoolEntry>, through: nat)
    requires forall i :: 0 <= i < |entries| ==> entries[i].number <= through
    ensures Above(entries, through) == []
  {
    if entries != [] {
      NothingAbove(entries[..|entries| - 1], through);
    }
  }

  // ----- every step keeps the invariant -----

  /** The entry that an emit appends. */
  function NewEntry(s: Spool, event: AuditEvent): SpoolEntry {
    SpoolEntry(s.lastNumber + 1, s.head, event, EntryHash(s.lastNumber + 1, s.head, event))
  }

  lemma EmitKeepsChain(s: Spool, kept: seq<SpoolEntry>, event: AuditEvent)
    requires Chained(kept) && SpoolOf(s, kept)
    ensures Chained(kept + [NewEntry(s, event)])
  {
    assert (kept + [NewEntry(s, event)])[..|kept|] == kept;
  }

  lemma EmitKeepsLog(d: Device, kept: seq<SpoolEntry>, event: AuditEvent, key: PublicKey)
    requires LogOk(d, kept)
    ensures LogOk(DeviceStep(d, Emit(event), key), kept + [NewEntry(d.spool, event)])
  {
    var kept' := kept + [NewEntry(d.spool, event)];
    assert kept'[|kept| - |d.spool.pending|..] == d.spool.pending + [NewEntry(d.spool, event)];
    if !d.phase.Pushed? {
      assert kept' == Flat(d.pushed) + (d.spool.pending + [NewEntry(d.spool, event)]);
    }
  }

  lemma EmitKeepsRest(d: Device, kept: seq<SpoolEntry>, savedKept: seq<SpoolEntry>, event: AuditEvent, key: PublicKey)
    requires SavedOk(d, kept, savedKept) && BatchesOk(d, kept, key)
    ensures var d', kept' := DeviceStep(d, Emit(event), key), kept + [NewEntry(d.spool, event)];
            SavedOk(d', kept', savedKept) && BatchesOk(d', kept', key)
  {
    assert savedKept <= kept + [NewEntry(d.spool, event)];
  }

  lemma PeekKeepsBatches(d: Device, kept: seq<SpoolEntry>, key: PublicKey)
    requires LogOk(d, kept) && BatchesOk(d, kept, key)
    ensures BatchesOk(DeviceStep(d, Peek, key), kept, key)
  {
    if d.phase.Checkpointed? {
      assert Flat(d.pushed) + d.spool.pending == kept;
    }
  }

  lemma PeekKeepsRest(d: Device, kept: seq<SpoolEntry>, savedKept: seq<SpoolEntry>, key: PublicKey)
    requires LogOk(d, kept) && SavedOk(d, kept, savedKept)
    ensures var d' := DeviceStep(d, Peek, key);
            d'.pushed == d.pushed && LogOk(d', kept) && SavedOk(d', kept, savedKept)
  {
  }

  lemma PushKeepsLog(d: Device, kept: seq<SpoolEntry>, online: bool, key: PublicKey)
    requires Chained(kept) && LogOk(d, kept) && BatchesOk(d, kept, key)
    ensures LogOk(DeviceStep(d, Push(online), key), kept)
  {
    if d.phase.Peeked? && online {
      var b := d.phase.batch;
      FlatPush(d.pushed, b);
      LastNumber(Flat(d.pushed) + b.entries, kept);
    }
  }

  /** The last entry of a chain prefix carries its length as number. */
  lemma LastNumber(prefix: seq<SpoolEntry>, kept: seq<SpoolEntry>)
    requires Chained(kept) && prefix <= kept && prefix != []
    ensures prefix[|prefix| - 1].number == |prefix|
  {
    ChainedPrefix(prefix, kept);
    ChainedHead(prefix);
  }

  lemma PushKeepsSaved(d: Device, kept: seq<SpoolEntry>, savedKept: seq<SpoolEntry>, online: bool, key: PublicKey)
    requires SavedOk(d, kept, savedKept) && BatchesOk(d, kept, key)
    ensures SavedOk(DeviceStep(d, Push(online), key), kept, savedKept)
  {
    if d.phase.Peeked? && online {
      FlatPush(d.pushed, d.phase.batch);
    }
  }

  lemma PushKeepsTaken(d: Device, taken: seq<SignedSpoolBatch>, online: bool, key: PublicKey)
    requires TakenFrom(taken, d.pushed)
    ensures TakenFrom(taken, DeviceStep(d, Push(online), key).pushed)
  {
  }

  lemma PushKeepsBatches(d: Device, kept: seq<SpoolEntry>, online: bool, key: PublicKey)
    requires BatchesOk(d, kept, key)
    ensures BatchesOk(DeviceStep(d, Push(online), key), kept, key)
  {
    if d.phase.Peeked? && online {
      FlatPush(d.pushed, d.phase.batch);
      assert (d.pushed + [d.phase.batch])[..|d.pushed|] == d.pushed;
    }
  }

  lemma ConfirmKeepsLog(d: Device, kept: seq<SpoolEntry>, key: PublicKey)
    requires Chained(kept) && LogOk(d, kept)
    ensures LogOk(DeviceStep(d, Confirm, key), kept)
  {
    if d.phase.Pushed? {
      var from, sent := |kept| - |d.spool.pending|, Flat(d.pushed);
      ChainedNumbers(kept);
      AboveNumbered(d.spool.pending, from, d.phase.through);
      assert kept[from..][|sent| - from..] == kept[|sent|..];
      assert kept == sent + kept[|sent|..];
    }
  }

  lemma ConfirmKeepsRest(d: Device, kept: seq<SpoolEntry>, savedKept: seq<SpoolEntry>, key: PublicKey)
    requires SavedOk(d, kept, savedKept) && BatchesOk(d, kept, key)
    ensures var d' := DeviceStep(d, Confirm, key);
            d'.pushed == d.pushed && SavedOk(d', kept, savedKept) && BatchesOk(d', kept, key)
  {
  }

  lemma SaveKeeps(d: Device, kept: seq<SpoolEntry>, savedKept: seq<SpoolEntry>, step: Step, key: PublicKey)
    requires step.SaveBefore? || step.SaveAfter?
    requires LogOk(d, kept) && SavedOk(d, kept, savedKept) && BatchesOk(d, kept, key)
    ensures var d' := DeviceStep(d, step, key);
            && d'.pushed == d.pushed
            && LogOk(d', kept) && SavedOk(d', kept, if Saves(d, step) then kept else savedKept) && BatchesOk(d', kept, key)
  {
  }

  lemma RestartKeeps(d: Device, kept: seq<SpoolEntry>, savedKept: seq<SpoolEntry>, key: PublicKey)
    requires Chained(kept) && SavedOk(d, kept, savedKept) && BatchesOk(d, kept, key) && !Exposed(d)
    ensures Chained(savedKept)
    ensures var d' := DeviceStep(d, Restart, key);
            && d'.pushed == d.pushed
            && LogOk(d', savedKept) && SavedOk(d', savedKept, savedKept) && BatchesOk(d', savedKept, key)
  {
    ChainedPrefix(savedKept, kept);
  }

  /** What the gateway takes next continues its chain, so it is accepted. */
  lemma TakeAccepted(l: Ledger, id: DeviceId, key: PublicKey, got: seq<SpoolEntry>, b: SignedSpoolBatch, kept: seq<SpoolEntry>)
    requires id in l.chains && l.chains[id] == DeviceChain(key, 1 + |got|, LastHash(got))
    requires Chained(kept) && got + b.entries <= kept && Sealed(b, got + b.entries, key)
    ensures VerdictOn(l.chains, id, b) == Ok(EventsOf(b.entries))
  {
    ChainedPrefix(got + b.entries, kept);
    NextBatchAccepted(got, b, key);
  }

  /** An accepted batch leaves the gateway level with the batches taken. */
  lemma TakeAdvances(l: Ledger, id: DeviceId, key: PublicKey, taken: seq<SignedSpoolBatch>, b: SignedSpoolBatch)
    requires GatewayOk(l, id, key, taken) && Sealed(b, Flat(taken) + b.entries, key)
    requires VerdictOn(l.chains, id, b) == Ok(EventsOf(b.entries))
    ensures GatewayOk(Ingested(l, id, b), id, key, taken + [b])
  {
    FlatPush(taken, b);
    IngestKeepsLog(l, id, b, id);
    EventsOfConcat(Flat(taken), b.entries);
  }

  /** The next batch in the queue is a sealed piece of the log right after those taken. */
  lemma NextIsSealed(taken: seq<SignedSpoolBatch>, pushed: seq<SignedSpoolBatch>, kept: seq<SpoolEntry>, key: PublicKey)
    requires taken <= pushed && |taken| < |pushed| && AllSealed(pushed, key) && Flat(pushed) <= kept
    ensures var b := pushed[|taken|];
            Sealed(b, Flat(taken) + b.entries, key) && Flat(taken) + b.entries <= kept
  {
    var k := |taken|;
    SealedAt(pushed, k, key);
    FlatTake(pushed, k);
    FlatPrefix(pushed, k + 1);
    assert pushed[..k] == taken;
  }

  lemma TakeKeeps(
    l: Ledger, id: DeviceId, key: PublicKey, taken: seq<SignedSpoolBatch>, pushed: seq<SignedSpoolBatch>, kept: seq<SpoolEntry>)
    requires GatewayOk(l, id, key, taken) && TakenFrom(taken, pushed) && |taken| < |pushed|
    requires AllSealed(pushed, key) && Chained(kept) && Flat(pushed) <= kept
    ensures var b := pushed[|taken|];
            && VerdictOn(l.chains, id, b).Ok?
            && GatewayOk(Ingested(l, id, b), id, key, taken + [b])
            && TakenFrom(taken + [b], pushed)
  {
    var b := pushed[|taken|];
    NextIsSealed(taken, pushed, kept, key);
    TakeAccepted(l, id, key, Flat(taken), b, kept);
    TakeAdvances(l, id, key, taken, b);
  }

  lemma EmitStep(s: System, event: AuditEvent)
    requires Inv(s)
    ensures Inv(Next(s, Emit(event)))
  {
    EmitKeepsChain(s.device.spool, s.kept, event);
    EmitKeepsLog(s.device, s.kept, event, s.key);
    EmitKeepsRest(s.device, s.kept, s.savedKept, event, s.key);
  }

  lemma PushStep(s: System, online: bool)
    requires Inv(s)
    ensures Inv(Next(s, Push(online)))
  {
    PushKeepsLog(s.device, s.kept, online, s.key);
    PushKeepsSaved(s.device, s.kept, s.savedKept, online, s.key);
    PushKeepsBatches(s.device, s.kept, online, s.key);
    PushKeepsTaken(s.device, s.taken, online, s.key);
  }

  lemma ConfirmStep(s: System)
    requires Inv(s)
    ensures Inv(Next(s, Confirm))
  {
    ConfirmKeepsLog(s.device, s.kept, s.key);
    ConfirmKeepsRest(s.device, s.kept, s.savedKept, s.key);
  }

  lemma RestartStep(s: System)
    requires Inv(s) && !Exposed(s.device)
    ensures Inv(Next(s, Restart))
  {
    RestartKeeps(s.device, s.kept, s.savedKept, s.key);
  }

  lemma SaveOrPeekStep(s: System, step: Step)
    requires Inv(s) && (step.SaveBefore? || step.SaveAfter? || step.Peek?)
    ensures Inv(Next(s, step))
  {
    if step.Peek? {
      PeekKeepsBatches(s.device, s.kept, s.key);
      PeekKeepsRest(s.device, s.kept, s.savedKept, s.key);
    } else {
      SaveKeeps(s.device, s.kept, s.savedKept, step, s.key);
    }
  }

  lemma SentIsKept(s: System)
    requires Inv(s)
    ensures Flat(s.device.pushed) <= s.kept
  {
  }

  /** The invariant with another gateway. */
  lemma InvWith(s: System, l: Ledger, taken: seq<SignedSpoolBatch>)
    requires Inv(s) && TakenFrom(taken, s.device.pushed) && GatewayOk(l, s.id, s.key, taken)
    ensures Inv(s.(ledger := l, taken := taken))
  {
  }

  lemma Taking(s: System)
    requires Waiting(s)
    ensures Next(s, TakeBatch) == s.(ledger := Ingested(s.ledger, s.id, NextBatch(s)), taken := s.taken + [NextBatch(s)])
  {
  }

  lemma TakeStep(s: System)
    requires Inv(s)
    ensures Inv(Next(s, TakeBatch))
    ensures Waiting(s) ==> VerdictOn(s.ledger.chains, s.id, NextBatch(s)).Ok?
  {
    if Waiting(s) {
      SentIsKept(s);
      TakeKeeps(s.ledger, s.id, s.key, s.taken, s.device.pushed, s.kept);
      Taking(s);
      InvWith(s, Ingested(s.ledger, s.id, NextBatch(s)), s.taken + [NextBatch(s)]);
    } else {
      assert Next(s, TakeBatch) == s;
    }
  }

  lemma StepKeeps(s: System, step: Step)
    requires Inv(s) && (step.Restart? ==> !Exposed(s.device))
    ensures Inv(Next(s, step))
  {
    match step {
      case Emit(event) => EmitStep(s, event);
      case Push(online) => PushStep(s, online);
      case Confirm => ConfirmStep(s);
      case Restart => RestartStep(s);
      case TakeBatch => TakeStep(s);
      case _ => SaveOrPeekStep(s, step);
    }
  }

  /** Whatever the interleaving, a safe run stays in the invariant. */
  lemma {:induction false} SafeRunsKeepInv(id: DeviceId, key: PublicKey, steps: seq<Step>)
    requires SafeRun(Start(id, key), steps)
    ensures Inv(Run(Start(id, key), steps))
  {
    if steps != [] {
      SafeRunsKeepInv(id, key, steps[..|steps| - 1]);
      StepKeeps(Run(Start(id, key), steps[..|steps| - 1]), steps[|steps| - 1]);
    }
  }

  // ----- what every safe run guarantees -----

  /** Number and previous head of the first entry the device would send next. */
  function TailNumber(s: Spool): nat {
    if s.pending == [] then s.lastNumber + 1 else s.pending[0].number
  }

  function TailHead(s: Spool): ChainHash {
    if s.pending == [] then s.head else s.pending[0].prev
  }

  /** Every batch that was pushed is accepted, in the order of pushing, and no alert is ever raised. */
  lemma PushedBatchesAreAccepted(id: DeviceId, key: PublicKey, steps: seq<Step>)
    requires SafeRun(Start(id, key), steps)
    ensures var s := Run(Start(id, key), steps);
            && s.ledger.alerts == []
            && s.taken <= s.device.pushed
            && (Waiting(s) ==> VerdictOn(s.ledger.chains, id, NextBatch(s)).Ok?)
  {
    SafeRunsKeepInv(id, key, steps);
    RunKeepsIdentity(Start(id, key), steps);
    TakeStep(Run(Start(id, key), steps));
  }

  lemma {:induction false} RunKeepsIdentity(s: System, steps: seq<Step>)
    ensures Run(s, steps).id == s.id && Run(s, steps).key == s.key
  {
    if steps != [] {
      RunKeepsIdentity(s, steps[..|steps| - 1]);
    }
  }

  lemma TailFollows(sent: seq<SpoolEntry>, spool: Spool)
    requires Chained(sent + spool.pending) && SpoolOf(spool, sent + spool.pending)
    ensures TailNumber(spool) == 1 + |sent| && TailHead(spool) == LastHash(sent)
  {
    if spool.pending != [] {
      var log := sent + spool.pending;
      var upTo := log[..|sent| + 1];
      ChainedPrefix(upTo, log);
      ChainedHead(upTo);
      ChainedPrefix(sent, log);
      assert upTo[..|sent|] == sent;
    } else {
      assert sent + spool.pending == sent;
    }
  }

  /** Once the gateway has taken every pushed batch, it stands exactly at the start of the pending tail. */
  lemma LedgerMeetsPendingTail(id: DeviceId, key: PublicKey, steps: seq<Step>)
    requires SafeRun(Start(id, key), steps)
    ensures var s := Run(Start(id, key), steps);
            s.taken == s.device.pushed && !s.device.phase.Pushed? ==>
              && id in s.ledger.chains
              && s.ledger.chains[id] == DeviceChain(key, TailNumber(s.device.spool), TailHead(s.device.spool))
  {
    SafeRunsKeepInv(id, key, steps);
    RunKeepsIdentity(Start(id, key), steps);
    var s := Run(Start(id, key), steps);
    if s.taken == s.device.pushed && !s.device.phase.Pushed? {
      TailFollows(Flat(s.device.pushed), s.device.spool);
    }
  }

  ghost predicate NoRestart(steps: seq<Step>) {
    forall i :: 0 <= i < |steps| ==> !steps[i].Restart?
  }

  lemma {:induction false} KeptIsEmitted(s: System, steps: seq<Step>)
    requires NoRestart(steps) && EventsOf(s.kept) == s.emitted
    ensures SafeRun(s, steps)
    ensures EventsOf(Run(s, steps).kept) == Run(s, steps).emitted
  {
    if steps != [] {
      var n := |steps| - 1;
      KeptIsEmitted(s, steps[..n]);
      var before, after := Run(s, steps[..n]), Run(s, steps);
      if steps[n].Emit? {
        EventsOfConcat(before.kept, [after.kept[|before.kept|]]);
      }
    }
  }

  /**
   Without a restart nothing is lost, repeated or reordered: pushed entries followed by pending
   entries are the chain of everything emitted, and the gateway's log is a prefix of it.
   */
  lemma DeliveredExactlyOnce(id: DeviceId, key: PublicKey, steps: seq<Step>)
    requires NoRestart(steps)
    ensures var s := Run(Start(id, key), steps);
            && (!s.device.phase.Pushed? ==>
                  Flat(s.device.pushed) + s.device.spool.pending == ChainOf(Genesis, 1, s.emitted))
            && Flat(s.device.pushed) <= ChainOf(Genesis, 1, s.emitted)
            && EventsFor(s.ledger.verified, id) <= s.emitted
  {
    var s := Run(Start(id, key), steps);
    KeptIsEmitted(Start(id, key), steps);
    RunKeepsIdentity(Start(id, key), steps);
    SafeRunsKeepInv(id, key, steps);
    EntriesOkIsChain(Genesis, 1, s.kept);
    LogIsPrefix(s);
  }

  lemma LogIsPrefix(s: System)
    requires Inv(s)
    ensures EventsFor(s.ledger.verified, s.id) <= EventsOf(s.kept)
  {
    SentIsKept(s);
    TakenEventsArePrefix(s.taken, s.device.pushed, s.kept);
  }

  lemma TakenEventsArePrefix(taken: seq<SignedSpoolBatch>, pushed: seq<SignedSpoolBatch>, kept: seq<SpoolEntry>)
    requires TakenFrom(taken, pushed) && Flat(pushed) <= kept
    ensures EventsOf(Flat(taken)) <= EventsOf(kept)
  {
    var got := Flat(taken);
    FlatPrefix(pushed, |taken|);
    assert pushed[..|taken|] == taken;
    assert kept == got + kept[|got|..];
    EventsOfConcat(got, kept[|got|..]);
  }

  /** Safe restarts may forget unsent events, but never one that was pushed or admitted. */
  lemma RestartForgetsOnlyUnsent(id: DeviceId, key: PublicKey, steps: seq<Step>)
    requires SafeRun(Start(id, key), steps) && !Exposed(Run(Start(id, key), steps).device)
    ensures var s := Run(Start(id, key), steps);
            var t := Next(s, Restart);
            && Flat(s.device.pushed) <= t.kept <= s.kept
            && EventsFor(t.ledger.verified, id) <= EventsOf(t.kept)
            && t.kept == Flat(t.device.pushed) + t.device.spool.pending
  {
    SafeRunsKeepInv(id, key, steps);
    RunKeepsIdentity(Start(id, key), steps);
    RestartForgets(Run(Start(id, key), steps));
  }

  lemma RestartForgets(s: System)
    requires Inv(s) && !Exposed(s.device)
    ensures var t := Next(s, Restart);
            && Flat(s.device.pushed) <= t.kept <= s.kept
            && EventsFor(t.ledger.verified, s.id) <= EventsOf(t.kept)
            && t.kept == Flat(t.device.pushed) + t.device.spool.pending
  {
    var d := DeviceStep(s.device, Restart, s.key);
    RestartKeeps(s.device, s.kept, s.savedKept, s.key);
    assert s.savedKept == Flat(d.pushed) + d.spool.pending;
    TakenEventsArePrefix(s.taken, d.pushed, s.savedKept);
  }

  // ----- whole cycles, with restarts between them -----

  /** Emits and ingests, which may fall between any two actions of a cycle. */
  ghost predicate Quiet(steps: seq<Step>) {
    forall i :: 0 <= i < |steps| ==> steps[i].Emit? || steps[i].TakeBatch?
  }

  /** A stretch of device life; a cycle has quiet steps before each of its actions but the first. */
  datatype Stretch =
    | Between(quiet: seq<Step>)
    | Cycle(online: bool, beforePeek: seq<Step>, beforePush: seq<Step>, beforeConfirm: seq<Step>, beforeSave: seq<Step>)
    | Reboot

  ghost predicate WellSpaced(x: Stretch) {
    match x
    case Between(quiet) => Quiet(quiet)
    case Cycle(_, a, b, c, d) => Quiet(a) && Quiet(b) && Quiet(c) && Quiet(d)
    case Reboot => true
  }

  function StepsOf(x: Stretch): seq<Step> {
    match x
    case Between(quiet) => quiet
    case Cycle(online, a, b, c, d) =>
      [SaveBefore] + (a + [Peek]) + (b + [Push(online)]) + (c + [Confirm]) + (d + [SaveAfter])
    case Reboot => [Restart]
  }

  function StepsOfAll(xs: seq<Stretch>): seq<Step> {
    if xs == [] then [] else StepsOfAll(xs[..|xs| - 1]) + StepsOf(xs[|xs| - 1])
  }

  lemma {:induction false} RunConcat(s: System, a: seq<Step>, b: seq<Step>)
    ensures Run(s, a + b) == Run(Run(s, a), b)
    ensures SafeRun(s, a + b) <==> SafeRun(s, a) && SafeRun(Run(s, a), b)
    decreases |b|
  {
    if b == [] {
      assert a + b == a;
    } else {
      RunConcat(s, a, b[..|b| - 1]);
      assert (a + b)[..|a + b| - 1] == a + b[..|b| - 1];
    }
  }

  /** Quiet steps leave the cycle where it is. */
  lemma {:induction false} QuietKeepsPhase(s: System, steps: seq<Step>)
    requires Quiet(steps)
    ensures Run(s, steps).device.phase == s.device.phase && SafeRun(s, steps)
  {
    if steps != [] {
      QuietKeepsPhase(s, steps[..|steps| - 1]);
    }
  }

  /** Where a cycle can be before its action number `k`, or after the last one. */
  predicate At(p: Phase, k: nat) {
    match k
    case 1 => p.Checkpointed?
    case 2 => p.Peeked? || p.Idle?
    case 3 => p.Pushed? || p.Idle?
    case 4 => p.Confirmed? || p.Idle?
    case _ => p.Idle?
  }

  function Action(k: nat, online: bool): Step {
    match k case 0 => SaveBefore case 1 => Peek case 2 => Push(online) case 3 => Confirm case _ => SaveAfter
  }

  /** A run so far is safe and has left the cycle before its action number `k`. */
  ghost predicate SafelyAt(s: System, steps: seq<Step>, k: nat) {
    SafeRun(s, steps) && At(Run(s, steps).device.phase, k)
  }

  lemma ActionMoves(d: Device, k: nat, online: bool, key: PublicKey)
    requires k <= 4 && At(d.phase, k)
    ensures At(DeviceStep(d, Action(k, online), key).phase, k + 1)
  {
  }

  lemma OneAction(s: System, steps: seq<Step>, k: nat, online: bool)
    requires k <= 4 && SafelyAt(s, steps, k)
    ensures SafelyAt(s, steps + [Action(k, online)], k + 1)
  {
    assert (steps + [Action(k, online)])[..|steps|] == steps;
    var t := Run(s, steps);
    ActionMoves(t.device, k, online, t.key);
  }

  lemma QuietThenAction(s: System, steps: seq<Step>, quiet: seq<Step>, k: nat, online: bool)
    requires k <= 4 && SafelyAt(s, steps, k) && Quiet(quiet)
    ensures SafelyAt(s, steps + (quiet + [Action(k, online)]), k + 1)
  {
    QuietKeepsPhase(Run(s, steps), quiet);
    RunConcat(s, steps, quiet);
    OneAction(s, steps + quiet, k, online);
    assert steps + quiet + [Action(k, online)] == steps + (quiet + [Action(k, online)]);
  }

  /** A whole cycle, however interleaved, starts and ends idle. */
  lemma CycleEndsIdle(s: System, x: Stretch)
    requires x.Cycle? && WellSpaced(x) && s.device.phase.Idle?
    ensures SafelyAt(s, StepsOf(x), 5)
  {
    var one, two := x.beforePeek + [Peek], x.beforePush + [Push(x.online)];
    var three := x.beforeConfirm + [Confirm];
    OneAction(s, [], 0, x.online);
    assert [] + [SaveBefore] == [SaveBefore];
    QuietThenAction(s, [SaveBefore], x.beforePeek, 1, x.online);
    QuietThenAction(s, [SaveBefore] + one, x.beforePush, 2, x.online);
    QuietThenAction(s, [SaveBefore] + one + two, x.beforeConfirm, 3, x.online);
    QuietThenAction(s, [SaveBefore] + one + two + three, x.beforeSave, 4, x.online);
  }

  lemma StretchEndsIdle(s: System, x: Stretch)
    requires WellSpaced(x) && s.device.phase.Idle?
    ensures SafeRun(s, StepsOf(x)) && Run(s, StepsOf(x)).device.phase.Idle?
  {
    match x {
      case Between(quiet) => QuietKeepsPhase(s, quiet);
      case Cycle(_, _, _, _, _) => CycleEndsIdle(s, x);
      case Reboot => assert [Restart][..0] == [];
    }
  }

  lemma IdleAgain(s: System, a: seq<Step>, x: Stretch)
    requires WellSpaced(x) && SafeRun(s, a) && Run(s, a).device.phase.Idle?
    ensures SafeRun(s, a + StepsOf(x)) && Run(s, a + StepsOf(x)).device.phase.Idle?
  {
    StretchEndsIdle(Run(s, a), x);
    RunConcat(s, a, StepsOf(x));
  }

  /** Restarts between whole cycles are never exposed. */
  lemma {:induction false} WholeCyclesAreSafe(s: System, xs: seq<Stretch>)
    requires s.device.phase.Idle? && forall i :: 0 <= i < |xs| ==> WellSpaced(xs[i])
    ensures SafeRun(s, StepsOfAll(xs)) && Run(s, StepsOfAll(xs)).device.phase.Idle?
  {
    if xs != [] {
      WholeCyclesAreSafe(s, xs[..|xs| - 1]);
      IdleAgain(s, StepsOfAll(xs[..|xs| - 1]), xs[|xs| - 1]);
    }
  }

  /** A queued batch is acceptable; without one the gateway stands at the pending tail. */
  ghost predicate InTouch(s: System) {
    && s.ledger.alerts == []
    && s.id in s.ledger.chains
    && if Waiting(s) then VerdictOn(s.ledger.chains, s.id, NextBatch(s)).Ok?
       else s.ledger.chains[s.id] == DeviceChain(s.key, TailNumber(s.device.spool), TailHead(s.device.spool))
  }

  lemma IdleInTouch(s: System)
    requires Inv(s) && s.device.phase.Idle?
    ensures InTouch(s)
  {
    if Waiting(s) {
      TakeStep(s);
    } else {
      assert s.taken == s.device.pushed;
      TailFollows(Flat(s.device.pushed), s.device.spool);
    }
  }

  /**
   Whole cycles with the link up or down, emits and ingests anywhere, restarts between cycles:
   nothing pushed is ever refused, and a gateway that took everything stands at the pending tail.
   */
  lemma CyclesDeliver(id: DeviceId, key: PublicKey, xs: seq<Stretch>)
    requires forall i :: 0 <= i < |xs| ==> WellSpaced(xs[i])
    ensures InTouch(Run(Start(id, key), StepsOfAll(xs)))
  {
    WholeCyclesAreSafe(Start(id, key), xs);
    SafeRunsKeepInv(id, key, StepsOfAll(xs));
    IdleInTouch(Run(Start(id, key), StepsOfAll(xs)));
  }
}
