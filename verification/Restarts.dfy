/**
 What a restart of the device does to delivery: exactly which restarts leave device and gateway
 level, how an exposed one goes on, and what booting with an empty spool changes.
 */
module Restarts {
  import opened Common
  import opened AuditChain
  import opened AuditLedger
  import opened Delivery

  // ----- in every run, restarts wherever they fall -----

  /** The number of the entry that a chain head stands for. */
  function NumberOf(h: ChainHash): nat { if h.Link? then h.number else 0 }

  /** A signed piece of some chain that starts at genesis. */
  ghost predicate Segment(b: SignedSpoolBatch, key: PublicKey) {
    && b.entries != []
    && b.entries[0].number == 1 + NumberOf(b.entries[0].prev)
    && Genuine(b.entries[0].prev, b.entries[0].number, b, key)
  }

  /** A spool over a chain from genesis. */
  ghost predicate LogChain(spool: Spool, log: seq<SpoolEntry>) { Chained(log) && SpoolOf(spool, log) }

  ghost predicate SavedChain(saved: Option<Spool>, log: seq<SpoolEntry>) {
    match saved case None => log == [] case Some(spool) => LogChain(spool, log)
  }

  ghost predicate SpoolsOk(s: System) {
    LogChain(s.device.spool, s.kept) && SavedChain(s.device.saved, s.savedKept)
  }

  ghost predicate AllSegments(batches: seq<SignedSpoolBatch>, key: PublicKey) {
    forall i :: 0 <= i < |batches| ==> Segment(batches[i], key)
  }

  ghost predicate QueueOk(s: System) {
    && (s.device.phase.Peeked? ==> Segment(s.device.phase.batch, s.key))
    && AllSegments(s.device.pushed, s.key)
    && TakenFrom(s.taken, s.device.pushed)
  }

  ghost predicate PositionOk(l: Ledger, id: DeviceId, key: PublicKey) {
    id in l.chains && l.chains[id].publicKey == key && l.chains[id].nextNumber == 1 + NumberOf(l.chains[id].head)
  }

  /** What every run keeps, also with restarts in exposed moments. */
  ghost predicate AnyInv(s: System) { SpoolsOk(s) && QueueOk(s) && PositionOk(s.ledger, s.id, s.key) }

  lemma HeadNumber(prev: ChainHash, next: nat, events: seq<AuditEvent>)
    ensures NumberOf(HeadAfter(prev, next, events)) == if events == [] then NumberOf(prev) else next + |events| - 1
  {
  }

  lemma LastHashNumber(log: seq<SpoolEntry>)
    requires Chained(log)
    ensures NumberOf(LastHash(log)) == |log|
  {
    EntriesOkIsChain(Genesis, 1, log);
    HeadNumber(Genesis, 1, EventsOf(log));
  }

  lemma {:induction false} ChainStart(prev: ChainHash, next: nat, events: seq<AuditEvent>)
    requires events != []
    ensures ChainOf(prev, next, events)[0].prev == prev && ChainOf(prev, next, events)[0].number == next
  {
    if |events| > 1 {
      ChainStart(prev, next, events[..|events| - 1]);
    } else {
      assert events[..0] == [];
    }
  }

  /** Everything pending, signed, is a segment. */
  lemma PendingIsSegment(spool: Spool, kept: seq<SpoolEntry>, key: PublicKey)
    requires LogChain(spool, kept) && spool.pending != []
    ensures Segment(SignBatch(key, spool.pending, spool.head), key)
  {
    var before, b := kept[..|kept| - |spool.pending|], SignBatch(key, spool.pending, spool.head);
    assert kept == before + b.entries;
    NextBatchAccepted(before, b, key);
    AcceptedIsGenuine(LastHash(before), 1 + |before|, b, key);
    ChainStart(LastHash(before), 1 + |before|, EventsOf(b.entries));
    ChainedPrefix(before, kept);
    LastHashNumber(before);
  }

  lemma {:induction false} AboveIsSuffix(entries: seq<SpoolEntry>, through: nat)
    requires forall i, j :: 0 <= i < j < |entries| ==> entries[i].number < entries[j].number
    ensures var a := Above(entries, through);
            |a| <= |entries| && a == entries[|entries| - |a|..]
  {
    if entries != [] {
      var n := |entries| - 1;
      if entries[n].number <= through {
        NothingAbove(entries, through);
      } else {
        AboveIsSuffix(entries[..n], through);
      }
    }
  }

  lemma EmitKeepsSpool(spool: Spool, kept: seq<SpoolEntry>, event: AuditEvent)
    requires LogChain(spool, kept)
    ensures LogChain(Emitted(spool, event), kept + [NewEntry(spool, event)])
  {
    EmitKeepsChain(spool, kept, event);
    var kept' := kept + [NewEntry(spool, event)];
    assert kept'[|kept| - |spool.pending|..] == spool.pending + [NewEntry(spool, event)];
  }

  lemma SuffixOfSuffix(all: seq<SpoolEntry>, part: seq<SpoolEntry>, end: seq<SpoolEntry>)
    requires |end| <= |part| <= |all| && part == all[|all| - |part|..] && end == part[|part| - |end|..]
    ensures end == all[|all| - |end|..]
  {
  }

  lemma PendingAscends(spool: Spool, kept: seq<SpoolEntry>)
    requires LogChain(spool, kept)
    ensures forall i, j :: 0 <= i < j < |spool.pending| ==> spool.pending[i].number < spool.pending[j].number
  {
    ChainedNumbers(kept);
    var from := |kept| - |spool.pending|;
    assert forall i :: 0 <= i < |spool.pending| ==> spool.pending[i] == kept[from + i];
  }

  lemma ConfirmKeepsSpool(spool: Spool, kept: seq<SpoolEntry>, through: nat)
    requires LogChain(spool, kept)
    ensures LogChain(spool.(pending := Above(spool.pending, through)), kept)
  {
    var end := Above(spool.pending, through);
    assert |end| <= |spool.pending| && end == spool.pending[|spool.pending| - |end|..] by {
      PendingAscends(spool, kept);
      AboveIsSuffix(spool.pending, through);
    }
    SuffixOfSuffix(kept, spool.pending, end);
  }

  lemma EmptyLog()
    ensures LogChain(EMPTY_SPOOL, [])
  {
  }

  lemma EmitsEntry(s: System, event: AuditEvent)
    ensures Next(s, Emit(event)).kept == s.kept + [NewEntry(s.device.spool, event)]
    ensures Next(s, Emit(event)).device.spool == Emitted(s.device.spool, event)
  {
  }

  lemma SpoolStays(s: System, step: Step)
    requires !step.Emit? && !step.Confirm? && !step.Restart?
    ensures Next(s, step).device.spool == s.device.spool && Next(s, step).kept == s.kept
  {
  }

  lemma ConfirmLog(s: System)
    requires LogChain(s.device.spool, s.kept)
    ensures LogChain(Next(s, Confirm).device.spool, Next(s, Confirm).kept)
  {
    if s.device.phase.Pushed? {
      ConfirmKeepsSpool(s.device.spool, s.kept, s.device.phase.through);
    }
  }

  lemma RestartLog(s: System)
    requires SavedChain(s.device.saved, s.savedKept)
    ensures LogChain(Next(s, Restart).device.spool, Next(s, Restart).kept)
  {
    EmptyLog();
  }

  lemma LogStep(s: System, step: Step)
    requires LogChain(s.device.spool, s.kept) && SavedChain(s.device.saved, s.savedKept)
    ensures LogChain(Next(s, step).device.spool, Next(s, step).kept)
  {
    match step {
      case Emit(event) =>
        EmitKeepsSpool(s.device.spool, s.kept, event);
        EmitsEntry(s, event);
      case Confirm => ConfirmLog(s);
      case Restart => RestartLog(s);
      case _ => SpoolStays(s, step);
    }
  }

  lemma SavedStep(s: System, step: Step)
    requires LogChain(s.device.spool, s.kept) && SavedChain(s.device.saved, s.savedKept)
    ensures SavedChain(Next(s, step).device.saved, Next(s, step).savedKept)
  {
    var t := Next(s, step);
    if Saves(s.device, step) {
      assert t.device.saved == Some(s.device.spool) && t.savedKept == s.kept;
    } else {
      assert t.device.saved == s.device.saved && t.savedKept == s.savedKept;
    }
  }

  lemma SpoolsStep(s: System, step: Step)
    requires SpoolsOk(s)
    ensures SpoolsOk(Next(s, step))
  {
    LogStep(s, step);
    SavedStep(s, step);
  }

  lemma PushKeepsQueue(s: System, online: bool)
    requires QueueOk(s)
    ensures QueueOk(Next(s, Push(online)))
  {
    PushKeepsTaken(s.device, s.taken, online, s.key);
  }

  lemma TakeKeepsQueue(s: System)
    requires QueueOk(s)
    ensures QueueOk(Next(s, TakeBatch))
  {
  }

  lemma PeekKeepsQueue(s: System)
    requires LogChain(s.device.spool, s.kept) && QueueOk(s)
    ensures QueueOk(Next(s, Peek))
  {
    var d := s.device;
    assert d.spool.pending != [] ==> Segment(SignBatch(s.key, d.spool.pending, d.spool.head), s.key) by {
      if d.spool.pending != [] {
        PendingIsSegment(d.spool, s.kept, s.key);
      }
    }
  }

  lemma QueueStays(s: System, step: Step)
    requires !step.Push? && !step.TakeBatch? && !step.Peek?
    ensures var t := Next(s, step);
            && t.device.pushed == s.device.pushed && t.taken == s.taken && t.key == s.key
            && (t.device.phase.Peeked? ==> t.device.phase == s.device.phase)
  {
  }

  lemma QueueStep(s: System, step: Step)
    requires SpoolsOk(s) && QueueOk(s)
    ensures QueueOk(Next(s, step))
  {
    match step {
      case Push(online) => PushKeepsQueue(s, online);
      case TakeBatch => TakeKeepsQueue(s);
      case Peek => PeekKeepsQueue(s);
      case _ => QueueStays(s, step);
    }
  }

  /** The verdict on a segment depends on its first entry only. */
  function VerdictAt(c: DeviceChain, b: SignedSpoolBatch): Verdict
    requires b.entries != []
  {
    var first := b.entries[0];
    if first.prev == c.head then Ok(EventsOf(b.entries))
    else if first.number != c.nextNumber then Err(Rejected(Gap(c.nextNumber, first.number)))
    else Err(Rejected(BrokenChain(first.number)))
  }

  lemma FirstFault(prev: ChainHash, next: nat, b: SignedSpoolBatch, key: PublicKey)
    requires b.entries != [] && (b.entries[0].number != next || b.entries[0].prev != prev)
    ensures CheckBatch(prev, next, b, key) ==
            Err(if b.entries[0].number != next then Gap(next, b.entries[0].number) else BrokenChain(b.entries[0].number))
  {
    assert b.entries[..1][..0] == [];
    FaultStays(prev, next, b.entries, 1);
  }

  lemma SegmentVerdict(l: Ledger, id: DeviceId, key: PublicKey, b: SignedSpoolBatch)
    requires PositionOk(l, id, key) && Segment(b, key)
    ensures VerdictOn(l.chains, id, b) == VerdictAt(l.chains[id], b)
  {
    var c := l.chains[id];
    if b.entries[0].prev == c.head {
      AcceptedIsGenuine(c.head, c.nextNumber, b, key);
    } else {
      FirstFault(c.head, c.nextNumber, b, key);
    }
  }

  lemma PositionStep(s: System, step: Step)
    requires QueueOk(s) && PositionOk(s.ledger, s.id, s.key)
    ensures PositionOk(Next(s, step).ledger, Next(s, step).id, Next(s, step).key)
  {
    assert Next(s, step).id == s.id && Next(s, step).key == s.key;
    if step.TakeBatch? && Waiting(s) {
      var b, c := NextBatch(s), s.ledger.chains[s.id];
      SegmentVerdict(s.ledger, s.id, s.key, b);
      if b.entries[0].prev == c.head {
        HeadNumber(c.head, c.nextNumber, EventsOf(b.entries));
      }
    }
  }

  lemma AnyStep(s: System, step: Step)
    requires AnyInv(s)
    ensures AnyInv(Next(s, step))
  {
    SpoolsStep(s, step);
    QueueStep(s, step);
    PositionStep(s, step);
  }

  lemma {:induction false} AnyRunKeeps(s: System, steps: seq<Step>)
    requires AnyInv(s)
    ensures AnyInv(Run(s, steps))
  {
    if steps != [] {
      AnyRunKeeps(s, steps[..|steps| - 1]);
      AnyStep(Run(s, steps[..|steps| - 1]), steps[|steps| - 1]);
    }
  }

  lemma StartOk(id: DeviceId, key: PublicKey)
    ensures AnyInv(Start(id, key))
  {
  }

  /**
   In every run, wherever its restarts fall: the next queued batch is accepted exactly when its
   first entry links to the ledger's head, and otherwise refused as a gap or a broken chain.
   */
  lemma AcceptedIffItContinues(id: DeviceId, key: PublicKey, steps: seq<Step>)
    ensures var s := Run(Start(id, key), steps);
            Waiting(s) ==>
              && id in s.ledger.chains && NextBatch(s).entries != []
              && VerdictOn(s.ledger.chains, id, NextBatch(s)) == VerdictAt(s.ledger.chains[id], NextBatch(s))
  {
    StartOk(id, key);
    AnyRunKeeps(Start(id, key), steps);
    RunKeepsIdentity(Start(id, key), steps);
    var s := Run(Start(id, key), steps);
    if Waiting(s) {
      SegmentVerdict(s.ledger, id, key, NextBatch(s));
    }
  }

  // ----- exactly which restarts are harmless -----

  /** The device will continue exactly after the batches it already pushed. */
  predicate Level(d: Device) { TailNumber(d.spool) == 1 + |Flat(d.pushed)| }

  /** From any reachable moment, a restart leaves device and gateway level iff it is not exposed. */
  lemma RestartIsLevelIff(s: System)
    requires Inv(s)
    ensures Level(Next(s, Restart).device) <==> !Exposed(s.device)
  {
    if Exposed(s.device) {
      ChainedPrefix(s.savedKept, s.kept);
      ChainedNumbers(s.savedKept);
    } else {
      RestartStep(s);
      var t := Next(s, Restart);
      TailFollows(Flat(t.device.pushed), t.device.spool);
    }
  }

  // ----- how an exposed restart goes on -----

  /** The entries that the saved checkpoint takes as sent. */
  function BelievedSent(s: System): seq<SpoolEntry>
    requires s.device.saved.Some? && |s.device.saved.value.pending| <= |s.savedKept|
  {
    s.savedKept[..|s.savedKept| - |s.device.saved.value.pending|]
  }

  /** A batch of everything the device believes to have sent. */
  function BelievedBatch(s: System): SignedSpoolBatch
    requires s.device.saved.Some? && |s.device.saved.value.pending| <= |s.savedKept|
  {
    SignBatch(s.key, BelievedSent(s), LastHash(BelievedSent(s)))
  }

  /** The device with its first `n` pushes replaced by one batch. */
  function AsIf(d: Device, n: nat, base: SignedSpoolBatch): Device
    requires n <= |d.pushed|
  {
    d.(pushed := [base] + d.pushed[n..])
  }

  /** A system in which the restarted device is right about what it sent. */
  function Believed(s: System): System
    requires s.device.saved.Some? && |s.device.saved.value.pending| <= |s.savedKept|
  {
    var t := Next(s, Restart);
    Start(s.id, s.key).(device := AsIf(t.device, |t.device.pushed|, BelievedBatch(s)),
                        emitted := s.emitted, kept := t.kept, savedKept := t.savedKept)
  }

  /** An exposed device has saved a checkpoint, and that is behind what was pushed. */
  lemma ExposedIsBehind(s: System)
    requires Inv(s) && Exposed(s.device)
    ensures s.device.saved.Some? && |s.device.saved.value.pending| <= |s.savedKept|
    ensures |BelievedSent(s)| < |Flat(s.device.pushed)|
  {
  }

  /** A device that resumed a checkpoint is in order about what the checkpoint takes as sent. */
  lemma ResumedInOrder(saved: Spool, savedKept: seq<SpoolEntry>, base: SignedSpoolBatch, key: PublicKey)
    requires SpoolOf(saved, savedKept) && savedKept == base.entries + saved.pending && Sealed(base, base.entries, key)
    ensures var d := Device(saved, Some(saved), Idle, [base]);
            LogOk(d, savedKept) && SavedOk(d, savedKept, savedKept) && BatchesOk(d, savedKept, key)
  {
    assert [base][..0] == [];
    assert Flat([base]) == base.entries;
    assert AllSealed([base], key);
  }

  /** A device in order, next to a gateway that has taken nothing. */
  lemma InOrderFrom(
    id: DeviceId, key: PublicKey, d: Device, emitted: seq<AuditEvent>, kept: seq<SpoolEntry>, savedKept: seq<SpoolEntry>)
    requires Chained(kept) && LogOk(d, kept) && SavedOk(d, kept, savedKept) && BatchesOk(d, kept, key)
    ensures Inv(Start(id, key).(device := d, emitted := emitted, kept := kept, savedKept := savedKept))
  {
  }

  lemma SavedChained(s: System)
    requires Inv(s)
    ensures Chained(s.savedKept) && (s.device.saved.Some? ==> SpoolOf(s.device.saved.value, s.savedKept))
  {
    ChainedPrefix(s.savedKept, s.kept);
  }

  lemma BelievedIs(s: System)
    requires s.device.saved.Some? && |s.device.saved.value.pending| <= |s.savedKept|
    ensures var saved := s.device.saved.value;
            Believed(s) ==
            Start(s.id, s.key).(device := Device(saved, Some(saved), Idle, [BelievedBatch(s)]),
                                emitted := s.emitted, kept := s.savedKept, savedKept := s.savedKept)
  {
  }

  /** The restarted device is in order, only about another history. */
  lemma BelievedInOrder(s: System)
    requires Inv(s) && Exposed(s.device)
    ensures s.device.saved.Some? && |s.device.saved.value.pending| <= |s.savedKept|
    ensures Inv(Believed(s))
  {
    ExposedIsBehind(s);
    SavedChained(s);
    BelievedIs(s);
    ResumedFrom(s.id, s.key, s.device.saved.value, s.emitted, s.savedKept, BelievedBatch(s));
  }

  lemma ResumedFrom(
    id: DeviceId, key: PublicKey, saved: Spool, emitted: seq<AuditEvent>, savedKept: seq<SpoolEntry>, base: SignedSpoolBatch)
    requires Chained(savedKept) && SpoolOf(saved, savedKept)
    requires base.entries == savedKept[..|savedKept| - |saved.pending|] && Sealed(base, base.entries, key)
    ensures Inv(Start(id, key).(device := Device(saved, Some(saved), Idle, [base]),
                                emitted := emitted, kept := savedKept, savedKept := savedKept))
  {
    assert savedKept == base.entries + saved.pending;
    ResumedInOrder(saved, savedKept, base, key);
    InOrderFrom(id, key, Device(saved, Some(saved), Idle, [base]), emitted, savedKept, savedKept);
  }

  /** `f` differs from `u` in the history before the restart only. */
  ghost predicate Like(f: System, u: System, n: nat, base: SignedSpoolBatch) {
    && n <= |u.device.pushed| && f.device == AsIf(u.device, n, base)
    && f.kept == u.kept && f.savedKept == u.savedKept && f.id == u.id && f.key == u.key
  }

  lemma LikeStep(f: System, u: System, n: nat, base: SignedSpoolBatch, step: Step)
    requires Like(f, u, n, base)
    ensures Like(Next(f, step), Next(u, step), n, base)
    ensures u.device.pushed <= Next(u, step).device.pushed
  {
    if step.Push? && u.device.phase.Peeked? {
      var b := u.device.phase.batch;
      assert (u.device.pushed + [b])[n..] == u.device.pushed[n..] + [b];
      assert [base] + (u.device.pushed[n..] + [b]) == [base] + u.device.pushed[n..] + [b];
    }
  }

  /** The batches are sealed pieces of a chain. */
  ghost predicate History(batches: seq<SignedSpoolBatch>, kept: seq<SpoolEntry>, key: PublicKey) {
    AllSealed(batches, key) && Flat(batches) <= kept && Chained(kept)
  }

  lemma InvHistory(s: System)
    requires Inv(s)
    ensures History(s.device.pushed, s.kept, s.key)
  {
    SentIsKept(s);
  }

  /** Until it has taken every batch of before the restart, the gateway goes on as if nothing had happened. */
  ghost predicate StillLevel(s: System, u: System) {
    && u.id == s.id && u.key == s.key && s.device.pushed <= u.device.pushed
    && (|u.taken| <= |s.device.pushed| ==>
          TakenFrom(u.taken, s.device.pushed) && GatewayOk(u.ledger, u.id, u.key, u.taken))
  }

  lemma StillLevelStep(s: System, u: System, step: Step)
    requires History(s.device.pushed, s.kept, s.key) && StillLevel(s, u)
    requires u.device.pushed <= Next(u, step).device.pushed
    ensures StillLevel(s, Next(u, step))
  {
    if step.TakeBatch? && |u.taken| < |s.device.pushed| {
      assert NextBatch(u) == s.device.pushed[|u.taken|];
      TakeKeeps(u.ledger, u.id, u.key, u.taken, s.device.pushed, s.kept);
    }
  }

  /** The run after an exposed restart, next to the run of the system the device believes in. */
  lemma {:induction false} BelievedRun(s: System, steps: seq<Step>)
    requires Inv(s) && Exposed(s.device) && SafeRun(Next(s, Restart), steps)
    ensures s.device.saved.Some? && |s.device.saved.value.pending| <= |s.savedKept|
    ensures Like(Run(Believed(s), steps), Run(Next(s, Restart), steps), |s.device.pushed|, BelievedBatch(s))
    ensures Inv(Run(Believed(s), steps)) && StillLevel(s, Run(Next(s, Restart), steps))
  {
    ExposedIsBehind(s);
    if steps == [] {
      BelievedInOrder(s);
    } else {
      var n := |steps| - 1;
      BelievedRun(s, steps[..n]);
      InvHistory(s);
      BelievedStep(s, Run(Believed(s), steps[..n]), Run(Next(s, Restart), steps[..n]), BelievedBatch(s), steps[n]);
    }
  }

  lemma BelievedStep(s: System, f: System, u: System, base: SignedSpoolBatch, step: Step)
    requires History(s.device.pushed, s.kept, s.key) && Like(f, u, |s.device.pushed|, base) && StillLevel(s, u)
    requires Inv(f) && (step.Restart? ==> !Exposed(u.device))
    ensures Like(Next(f, step), Next(u, step), |s.device.pushed|, base)
    ensures Inv(Next(f, step)) && StillLevel(s, Next(u, step))
  {
    LikeStep(f, u, |s.device.pushed|, base, step);
    StepKeeps(f, step);
    StillLevelStep(s, u, step);
  }

  /** The first entry after a chain links to its end. */
  lemma FirstLinks(c: seq<SpoolEntry>, entries: seq<SpoolEntry>)
    requires Chained(c + entries) && entries != []
    ensures entries[0].prev == LastHash(c) && entries[0].number == 1 + |c|
  {
    var upTo := c + [entries[0]];
    assert upTo <= c + entries;
    ChainedPrefix(upTo, c + entries);
    ChainedPrefix(c, c + entries);
    assert upTo[..|c|] == c;
  }

  /** Each batch of a history links to the head of the one before it. */
  lemma BatchLinks(batches: seq<SignedSpoolBatch>, k: nat, kept: seq<SpoolEntry>, key: PublicKey)
    requires History(batches, kept, key) && 0 < k < |batches| && batches[k].entries != []
    ensures batches[k].entries[0].prev == batches[k - 1].head
    ensures batches[k].entries[0].number == 1 + |Flat(batches[..k])|
  {
    SealedAt(batches, k - 1, key);
    FlatTake(batches, k);
    FlatPrefix(batches, k + 1);
    ChainedPrefix(Flat(batches[..k + 1]), kept);
    FirstLinks(Flat(batches[..k]), batches[k].entries);
  }

  lemma AsIfIndex(d: Device, n: nat, base: SignedSpoolBatch, j: nat)
    requires n <= j < |d.pushed|
    ensures AsIf(d, n, base).pushed[j - n + 1] == d.pushed[j]
    ensures AsIf(d, n, base).pushed[j - n] == if j == n then base else d.pushed[j - 1]
    ensures AsIf(d, n, base).pushed[..1] == [base]
  {
  }

  /** The first entry of a batch pushed after the restart: right after what was believed sent, or after the batch before. */
  lemma LinkAfterRestart(d: Device, n: nat, base: SignedSpoolBatch, j: nat, kept: seq<SpoolEntry>, key: PublicKey)
    requires n <= j < |d.pushed| && History(AsIf(d, n, base).pushed, kept, key) && d.pushed[j].entries != []
    ensures j == n ==> d.pushed[j].entries[0].number == 1 + |base.entries|
    ensures j > n ==> d.pushed[j].entries[0].prev == d.pushed[j - 1].head
  {
    var batches := AsIf(d, n, base).pushed;
    AsIfIndex(d, n, base, j);
    FlatOne(base);
    BatchLinks(batches, j - n + 1, kept, key);
  }

  lemma FlatOne(b: SignedSpoolBatch)
    ensures Flat([b]) == b.entries
  {
    assert [b][..0] == [];
  }

  /** What the gateway makes of the next batch when the run before it held an exposed restart. */
  ghost predicate GoesOn(s: System, u: System) {
    var n := |s.device.pushed|;
    Waiting(u) ==>
      var b := NextBatch(u);
      && u.id in u.ledger.chains && b.entries != []
      && var verdict := VerdictOn(u.ledger.chains, u.id, b);
      && (|u.taken| < n ==> verdict.Ok?)
      && (|u.taken| == n ==> verdict == Err(Rejected(Gap(1 + |Flat(s.device.pushed)|, b.entries[0].number))))
      && (|u.taken| > n ==> (verdict.Ok? <==> u.taken[|u.taken| - 1].head == u.ledger.chains[u.id].head))
  }

  lemma BeforeTheBreak(s: System, u: System)
    requires History(s.device.pushed, s.kept, s.key) && StillLevel(s, u) && Waiting(u) && |u.taken| < |s.device.pushed|
    ensures VerdictOn(u.ledger.chains, u.id, NextBatch(u)).Ok?
  {
    TakeKeeps(u.ledger, u.id, u.key, u.taken, s.device.pushed, s.kept);
  }

  lemma AtTheBreak(s: System, u: System)
    requires StillLevel(s, u) && PositionOk(u.ledger, u.id, u.key) && Waiting(u) && |u.taken| == |s.device.pushed|
    requires Segment(NextBatch(u), u.key) && NextBatch(u).entries[0].number < 1 + |Flat(s.device.pushed)|
    ensures VerdictOn(u.ledger.chains, u.id, NextBatch(u)) ==
            Err(Rejected(Gap(1 + |Flat(s.device.pushed)|, NextBatch(u).entries[0].number)))
  {
    SegmentVerdict(u.ledger, u.id, u.key, NextBatch(u));
    assert u.taken == s.device.pushed;
  }

  lemma AfterTheBreak(u: System)
    requires PositionOk(u.ledger, u.id, u.key) && TakenFrom(u.taken, u.device.pushed) && Waiting(u) && u.taken != []
    requires Segment(NextBatch(u), u.key) && NextBatch(u).entries[0].prev == u.device.pushed[|u.taken| - 1].head
    ensures VerdictOn(u.ledger.chains, u.id, NextBatch(u)).Ok? <==>
            u.taken[|u.taken| - 1].head == u.ledger.chains[u.id].head
  {
    SegmentVerdict(u.ledger, u.id, u.key, NextBatch(u));
  }

  /** At and after the break. */
  lemma GoesOnAfter(s: System, u: System, base: SignedSpoolBatch)
    requires |base.entries| < |Flat(s.device.pushed)| && StillLevel(s, u)
    requires History(AsIf(u.device, |s.device.pushed|, base).pushed, u.kept, u.key)
    requires TakenFrom(u.taken, u.device.pushed) && PositionOk(u.ledger, u.id, u.key)
    requires Waiting(u) && Segment(NextBatch(u), u.key) && |s.device.pushed| <= |u.taken|
    ensures GoesOn(s, u)
  {
    var n, j := |s.device.pushed|, |u.taken|;
    LinkAfterRestart(u.device, n, base, j, u.kept, u.key);
    if j == n {
      AtTheBreak(s, u);
    } else {
      AfterTheBreak(u);
    }
  }

  lemma GoesOnFrom(s: System, u: System, base: SignedSpoolBatch)
    requires History(s.device.pushed, s.kept, s.key) && |base.entries| < |Flat(s.device.pushed)| && StillLevel(s, u)
    requires History(AsIf(u.device, |s.device.pushed|, base).pushed, u.kept, u.key)
    requires QueueOk(u) && PositionOk(u.ledger, u.id, u.key)
    ensures GoesOn(s, u)
  {
    if Waiting(u) {
      assert Segment(NextBatch(u), u.key);
      if |u.taken| < |s.device.pushed| {
        BeforeTheBreak(s, u);
      } else {
        GoesOnAfter(s, u, base);
      }
    }
  }

  /** Both histories behind a run after an exposed restart: what was sent, and what the device believes. */
  lemma BelievedHistory(s: System, after: seq<Step>)
    requires Inv(s) && Exposed(s.device) && SafeRun(Next(s, Restart), after)
    ensures s.device.saved.Some? && |s.device.saved.value.pending| <= |s.savedKept|
    ensures |BelievedBatch(s).entries| < |Flat(s.device.pushed)| && History(s.device.pushed, s.kept, s.key)
    ensures var u := Run(Next(s, Restart), after);
            && StillLevel(s, u)
            && History(AsIf(u.device, |s.device.pushed|, BelievedBatch(s)).pushed, u.kept, u.key)
  {
    BelievedRun(s, after);
    ExposedIsBehind(s);
    InvHistory(s);
    InvHistory(Run(Believed(s), after));
  }

  /**
   After a restart in an exposed moment, and any safe run from there: batches pushed before it are
   still accepted, the first one pushed after it is refused as a gap, and every later one is
   accepted if and only if the head of the batch before it is the ledger's head.
   */
  lemma AfterExposedRestart(id: DeviceId, key: PublicKey, before: seq<Step>, after: seq<Step>)
    requires SafeRun(Start(id, key), before) && Exposed(Run(Start(id, key), before).device)
    requires SafeRun(Next(Run(Start(id, key), before), Restart), after)
    ensures GoesOn(Run(Start(id, key), before), Run(Next(Run(Start(id, key), before), Restart), after))
  {
    var s := Run(Start(id, key), before);
    SafeRunsKeepInv(id, key, before);
    StartOk(id, key);
    AnyRunKeeps(Start(id, key), before);
    AnyStep(s, Restart);
    AnyRunKeeps(Next(s, Restart), after);
    BelievedHistory(s, after);
    GoesOnFrom(s, Run(Next(s, Restart), after), BelievedBatch(s));
  }

  /** The last batch taken is where the ledger stands. */
  ghost predicate InTune(u: System, n: nat) {
    && |u.taken| > n && u.id in u.ledger.chains
    && u.taken[|u.taken| - 1].head == u.ledger.chains[u.id].head
  }

  lemma InTuneStep(s: System, u: System, step: Step)
    requires GoesOn(s, u) && InTune(u, |s.device.pushed|)
    ensures InTune(Next(u, step), |s.device.pushed|)
  {
  }

  lemma RunLast(s: System, steps: seq<Step>, step: Step)
    ensures Run(s, steps + [step]) == Next(Run(s, steps), step)
    ensures SafeRun(s, steps + [step]) ==> SafeRun(s, steps)
  {
    assert (steps + [step])[..|steps|] == steps;
  }

  lemma RecoveryStep(id: DeviceId, key: PublicKey, before: seq<Step>, after: seq<Step>, step: Step)
    requires SafeRun(Start(id, key), before) && Exposed(Run(Start(id, key), before).device)
    requires SafeRun(Next(Run(Start(id, key), before), Restart), after)
    requires InTune(Run(Next(Run(Start(id, key), before), Restart), after), |Run(Start(id, key), before).device.pushed|)
    ensures InTune(Run(Next(Run(Start(id, key), before), Restart), after + [step]), |Run(Start(id, key), before).device.pushed|)
  {
    var s := Run(Start(id, key), before);
    AfterExposedRestart(id, key, before, after);
    RunLast(Next(s, Restart), after, step);
    InTuneStep(s, Run(Next(s, Restart), after), step);
  }

  /** Once the last batch taken is where the ledger stands, it stays so: everything is accepted from then on. */
  lemma {:induction false} RecoveryLasts(id: DeviceId, key: PublicKey, before: seq<Step>, after: seq<Step>, more: seq<Step>)
    requires SafeRun(Start(id, key), before) && Exposed(Run(Start(id, key), before).device)
    requires SafeRun(Next(Run(Start(id, key), before), Restart), after + more)
    requires InTune(Run(Next(Run(Start(id, key), before), Restart), after), |Run(Start(id, key), before).device.pushed|)
    ensures InTune(Run(Next(Run(Start(id, key), before), Restart), after + more), |Run(Start(id, key), before).device.pushed|)
    decreases |more|
  {
    if more == [] {
      assert after + more == after;
    } else {
      var n := |more| - 1;
      assert after + more == after + more[..n] + [more[n]];
      RunLast(Next(Run(Start(id, key), before), Restart), after + more[..n], more[n]);
      RecoveryLasts(id, key, before, after, more[..n]);
      RecoveryStep(id, key, before, after + more[..n], more[n]);
    }
  }

  // ----- when recovery is possible -----

  lemma {:induction false} FlatCons(b: SignedSpoolBatch, batches: seq<SignedSpoolBatch>)
    ensures Flat([b] + batches) == b.entries + Flat(batches)
  {
    if batches == [] {
      assert [b] + batches == [b];
      FlatOne(b);
    } else {
      var n := |batches| - 1;
      FlatCons(b, batches[..n]);
      assert ([b] + batches)[..n + 1] == [b] + batches[..n];
    }
  }

  /** Chains with the same head are the same. */
  lemma SameHeadSameLog(a: seq<SpoolEntry>, b: seq<SpoolEntry>)
    requires Chained(a) && Chained(b)
    ensures LastHash(a) == LastHash(b) <==> EventsOf(a) == EventsOf(b)
    ensures a == b <==> EventsOf(a) == EventsOf(b)
  {
    EntriesOkIsChain(Genesis, 1, a);
    EntriesOkIsChain(Genesis, 1, b);
    if LastHash(a) == LastHash(b) {
      HeadDeterminesEvents(Genesis, 1, EventsOf(a), EventsOf(b));
    }
  }

  /** What the device has sent by its own account, when the gateway took the batches `since` after the break. */
  function OwnAccount(base: SignedSpoolBatch, since: seq<SignedSpoolBatch>): seq<SpoolEntry> { base.entries + Flat(since) }

  /** Where the next batch links to, in a history that starts with `base`. */
  lemma NextLinksTo(
    d: Device, n: nat, base: SignedSpoolBatch, taken: seq<SignedSpoolBatch>, kept: seq<SpoolEntry>, key: PublicKey)
    requires TakenFrom(taken, d.pushed) && n <= |taken| < |d.pushed| && d.pushed[|taken|].entries != []
    requires History(AsIf(d, n, base).pushed, kept, key)
    ensures Chained(OwnAccount(base, taken[n..]))
    ensures d.pushed[|taken|].entries[0].prev == LastHash(OwnAccount(base, taken[n..]))
  {
    var k := |taken| - n + 1;
    AsIfIndex(d, n, base, |taken|);
    LinksToPrefix(AsIf(d, n, base).pushed, k, kept, key);
    AsIfPrefix(d, n, base, taken);
    FlatCons(base, taken[n..]);
  }

  lemma AsIfPrefix(d: Device, n: nat, base: SignedSpoolBatch, taken: seq<SignedSpoolBatch>)
    requires TakenFrom(taken, d.pushed) && n <= |taken|
    ensures AsIf(d, n, base).pushed[..|taken| - n + 1] == [base] + taken[n..]
  {
  }

  lemma LinksToPrefix(batches: seq<SignedSpoolBatch>, k: nat, kept: seq<SpoolEntry>, key: PublicKey)
    requires History(batches, kept, key) && 0 < k < |batches| && batches[k].entries != []
    ensures Chained(Flat(batches[..k])) && batches[k].entries[0].prev == LastHash(Flat(batches[..k]))
  {
    BatchLinks(batches, k, kept, key);
    SealedAt(batches, k - 1, key);
    FlatPrefix(batches, k);
    ChainedPrefix(Flat(batches[..k]), kept);
  }

  /** The ledger still stands where the batches of before the break end. */
  ghost predicate StillThere(s: System, u: System) {
    u.id in u.ledger.chains && u.ledger.chains[u.id].head == LastHash(Flat(s.device.pushed))
  }

  /** The next batch is accepted exactly when the device's own account has caught up with what was sent. */
  ghost predicate CatchesUpIff(s: System, u: System, base: SignedSpoolBatch) {
    var n := |s.device.pushed|;
    Waiting(u) && |u.taken| >= n && StillThere(s, u) ==>
      (VerdictOn(u.ledger.chains, u.id, NextBatch(u)).Ok? <==>
         EventsOf(OwnAccount(base, u.taken[n..])) == EventsOf(Flat(s.device.pushed)))
  }

  lemma CatchesUp(s: System, u: System, base: SignedSpoolBatch)
    requires History(s.device.pushed, s.kept, s.key) && |s.device.pushed| <= |u.device.pushed|
    requires History(AsIf(u.device, |s.device.pushed|, base).pushed, u.kept, u.key)
    requires QueueOk(u) && PositionOk(u.ledger, u.id, u.key)
    ensures CatchesUpIff(s, u, base)
  {
    var n := |s.device.pushed|;
    if Waiting(u) && n <= |u.taken| && StillThere(s, u) {
      assert Segment(NextBatch(u), u.key);
      SegmentVerdict(u.ledger, u.id, u.key, NextBatch(u));
      NextLinksTo(u.device, n, base, u.taken, u.kept, u.key);
      ChainedPrefix(Flat(s.device.pushed), s.kept);
      SameHeadSameLog(OwnAccount(base, u.taken[n..]), Flat(s.device.pushed));
    }
  }

  /**
   After an exposed restart, as long as nothing was accepted since: the next batch is accepted if
   and only if what the checkpoint took as sent, and the refused batches after it, hold the events
   that were sent before the restart.
   */
  lemma ExposedRestartCatchesUpIff(id: DeviceId, key: PublicKey, before: seq<Step>, after: seq<Step>)
    requires SafeRun(Start(id, key), before) && Exposed(Run(Start(id, key), before).device)
    requires SafeRun(Next(Run(Start(id, key), before), Restart), after)
    ensures var s := Run(Start(id, key), before);
            && s.device.saved.Some? && |s.device.saved.value.pending| <= |s.savedKept|
            && CatchesUpIff(s, Run(Next(s, Restart), after), BelievedBatch(s))
  {
    var s := Run(Start(id, key), before);
    SafeRunsKeepInv(id, key, before);
    StartOk(id, key);
    AnyRunKeeps(Start(id, key), before);
    AnyStep(s, Restart);
    AnyRunKeeps(Next(s, Restart), after);
    BelievedHistory(s, after);
    CatchesUp(s, Run(Next(s, Restart), after), BelievedBatch(s));
  }

  // ----- a run with an exposed restart -----

  lemma RunOne(s: System, a: Step)
    ensures Run(s, [a]) == Next(s, a) && (!a.Restart? ==> SafeRun(s, [a]))
  {
    assert [a][..0] == [];
  }

  lemma RunThree(s: System, a: Step, b: Step, c: Step)
    ensures Run(s, [a, b, c]) == Next(Next(Next(s, a), b), c)
    ensures !a.Restart? && !b.Restart? && !c.Restart? ==> SafeRun(s, [a, b, c])
  {
    RunOne(s, a);
    assert [a, b, c][..2] == [a, b] && [a, b][..1] == [a];
  }

  const PUSHING := [SaveBefore, Peek, Push(true)]
  const FINISHING := [TakeBatch, Confirm, SaveAfter]

  /** The first half of a cycle that ships: what is pending is pushed. */
  lemma Pushing(s: System)
    requires s.device.phase.Idle? && s.device.spool.pending != []
    ensures SafeRun(s, PUSHING)
    ensures var p := s.device.spool;
            Run(s, PUSHING) ==
            s.(device := Device(p, Some(p), Pushed(p.pending[|p.pending| - 1].number),
                                s.device.pushed + [SignBatch(s.key, p.pending, p.head)]),
               savedKept := s.kept)
  {
    RunThree(s, SaveBefore, Peek, Push(true));
  }

  /** The gateway takes the pushed batch and the device finishes its cycle. */
  lemma Finishing(s: System)
    requires s.device.phase.Pushed? && Waiting(s)
    ensures SafeRun(s, FINISHING)
    ensures var p := s.device.spool.(pending := Above(s.device.spool.pending, s.device.phase.through));
            Run(s, FINISHING) ==
            s.(device := Device(p, Some(p), Idle, s.device.pushed), savedKept := s.kept,
               ledger := Ingested(s.ledger, s.id, NextBatch(s)), taken := s.taken + [NextBatch(s)])
  {
    RunThree(s, TakeBatch, Confirm, SaveAfter);
  }

  function FirstEntry(e: AuditEvent): SpoolEntry { NewEntry(EMPTY_SPOOL, e) }

  function FirstSpool(e: AuditEvent): Spool { Spool(1, FirstEntry(e).hash, [FirstEntry(e)]) }

  function FirstBatch(e: AuditEvent, key: PublicKey): SignedSpoolBatch {
    SignBatch(key, [FirstEntry(e)], FirstEntry(e).hash)
  }

  lemma FirstBatchIsSegment(e: AuditEvent, key: PublicKey)
    ensures Segment(FirstBatch(e, key), key)
  {
    FirstLog(e);
    PendingIsSegment(FirstSpool(e), [FirstEntry(e)], key);
  }

  lemma FirstLog(e: AuditEvent)
    ensures LogChain(FirstSpool(e), [FirstEntry(e)])
  {
    EmptyLog();
    EmitKeepsSpool(EMPTY_SPOOL, [], e);
    assert [] + [FirstEntry(e)] == [FirstEntry(e)];
  }

  lemma FirstConfirmed(e: AuditEvent)
    ensures Above([FirstEntry(e)], 1) == [] && LogChain(Spool(1, FirstEntry(e).hash, []), [FirstEntry(e)])
  {
    NothingAbove([FirstEntry(e)], 1);
    FirstLog(e);
    ConfirmKeepsSpool(FirstSpool(e), [FirstEntry(e)], 1);
  }

  /** One event emitted, pushed and taken: the device has yet to confirm and save. */
  function ExposedRun(e: AuditEvent): seq<Step> { [Emit(e)] + PUSHING + [TakeBatch] }

  lemma ExposedState(id: DeviceId, key: PublicKey, e: AuditEvent)
    ensures SafeRun(Start(id, key), ExposedRun(e))
    ensures var s := Run(Start(id, key), ExposedRun(e));
            && s.id == id && s.key == key && s.kept == s.savedKept == [FirstEntry(e)]
            && s.device == Device(FirstSpool(e), Some(FirstSpool(e)), Pushed(1), [FirstBatch(e, key)])
            && s.taken == [FirstBatch(e, key)] && Exposed(s.device)
            && id in s.ledger.chains && s.ledger.chains[id] == DeviceChain(key, 2, FirstEntry(e).hash)
  {
    var s0 := Start(id, key);
    RunOne(s0, Emit(e));
    var s1 := Next(s0, Emit(e));
    assert s1.device.spool == FirstSpool(e) && s1.kept == [FirstEntry(e)];
    Pushing(s1);
    RunConcat(s0, [Emit(e)], PUSHING);
    var s2 := Run(s1, PUSHING);
    RunOne(s2, TakeBatch);
    RunConcat(s0, [Emit(e)] + PUSHING, [TakeBatch]);
    assert NextBatch(s2) == FirstBatch(e, key);
    FirstBatchIsSegment(e, key);
    SegmentVerdict(s2.ledger, id, key, FirstBatch(e, key));
  }

  /** The restarted device sends its entry again; that is refused, and the entry after it is accepted. */
  lemma RefusedThenAccepted(id: DeviceId, key: PublicKey, e: AuditEvent, f: AuditEvent)
    ensures var s := Run(Start(id, key), ExposedRun(e));
            var u := Run(Next(s, Restart), PUSHING);
            var v := Run(u, FINISHING + [Emit(f)] + PUSHING);
            && SafeRun(Start(id, key), ExposedRun(e)) && Exposed(s.device)
            && Waiting(u) && VerdictOn(u.ledger.chains, id, NextBatch(u)) == Err(Rejected(Gap(2, 1)))
            && Waiting(v) && VerdictOn(v.ledger.chains, id, NextBatch(v)) == Ok([f])
  {
    ExposedState(id, key, e);
    var s := Run(Start(id, key), ExposedRun(e));
    var t, b := Next(s, Restart), FirstBatch(e, key);
    Pushing(t);
    var u := Run(t, PUSHING);
    assert u.device.pushed == [b, b] && NextBatch(u) == b;
    FirstBatchIsSegment(e, key);
    SegmentVerdict(u.ledger, id, key, b);
    SecondRound(u, e, f);
  }

  lemma AfterRefusal(u: System, e: AuditEvent, f: AuditEvent)
    requires u.device == Device(FirstSpool(e), Some(FirstSpool(e)), Pushed(1), [FirstBatch(e, u.key), FirstBatch(e, u.key)])
    requires |u.taken| == 1 && VerdictOn(u.ledger.chains, u.id, FirstBatch(e, u.key)).Err?
    ensures var v := Run(u, FINISHING + [Emit(f)]);
            && v.id == u.id && v.key == u.key && |v.taken| == |v.device.pushed| == 2
            && v.ledger.chains == u.ledger.chains && v.device.phase.Idle?
            && v.device.spool == Emitted(Spool(1, FirstEntry(e).hash, []), f)
  {
    Finishing(u);
    FirstConfirmed(e);
    RunConcat(u, FINISHING, [Emit(f)]);
    RunOne(Run(u, FINISHING), Emit(f));
  }

  function SecondEntry(e: AuditEvent, f: AuditEvent): SpoolEntry { NewEntry(Spool(1, FirstEntry(e).hash, []), f) }

  function SecondBatch(e: AuditEvent, f: AuditEvent, key: PublicKey): SignedSpoolBatch {
    SignBatch(key, [SecondEntry(e, f)], SecondEntry(e, f).hash)
  }

  lemma SecondAccepted(l: Ledger, id: DeviceId, key: PublicKey, e: AuditEvent, f: AuditEvent)
    requires PositionOk(l, id, key) && l.chains[id].head == FirstEntry(e).hash
    ensures VerdictOn(l.chains, id, SecondBatch(e, f, key)) == Ok([f])
  {
    SecondIsSegment(e, f, key);
    SegmentVerdict(l, id, key, SecondBatch(e, f, key));
    assert EventsOf([SecondEntry(e, f)]) == [f];
  }

  lemma SecondRound(u: System, e: AuditEvent, f: AuditEvent)
    requires u.device == Device(FirstSpool(e), Some(FirstSpool(e)), Pushed(1), [FirstBatch(e, u.key), FirstBatch(e, u.key)])
    requires |u.taken| == 1 && PositionOk(u.ledger, u.id, u.key) && u.ledger.chains[u.id].head == FirstEntry(e).hash
    requires VerdictOn(u.ledger.chains, u.id, FirstBatch(e, u.key)).Err?
    ensures var v := Run(u, FINISHING + [Emit(f)] + PUSHING);
            Waiting(v) && v.id == u.id && VerdictOn(v.ledger.chains, u.id, NextBatch(v)) == Ok([f])
  {
    AfterRefusal(u, e, f);
    var v2 := Run(u, FINISHING + [Emit(f)]);
    assert v2.device.spool.pending == [SecondEntry(e, f)];
    Pushing(v2);
    RunConcat(u, FINISHING + [Emit(f)], PUSHING);
    assert NextBatch(Run(v2, PUSHING)) == SecondBatch(e, f, u.key);
    SecondAccepted(v2.ledger, u.id, u.key, e, f);
  }

  lemma SecondIsSegment(e: AuditEvent, f: AuditEvent, key: PublicKey)
    ensures Segment(SecondBatch(e, f, key), key)
  {
    var spool := Spool(1, FirstEntry(e).hash, []);
    FirstConfirmed(e);
    EmitKeepsSpool(spool, [FirstEntry(e)], f);
    PendingIsSegment(Emitted(spool, f), [FirstEntry(e)] + [NewEntry(spool, f)], key);
  }

  // ----- booting with an empty spool -----

  /** The platform entry points boot with an empty spool instead of the saved one. */
  function FreshBoot(d: Device): Device { d.(spool := EMPTY_SPOOL, phase := Idle) }

  /** The system after such a boot. */
  function Booted(s: System): System { s.(device := FreshBoot(s.device), kept := []) }

  /** The same, had an empty checkpoint been saved. */
  function EmptySaved(s: System): System {
    s.(device := s.device.(saved := Some(EMPTY_SPOOL)), savedKept := [])
  }

  /** An exposed moment with an empty checkpoint: restarting from there is booting afresh. */
  function ExposedEmpty(s: System): System {
    var e := EmptySaved(s);
    e.(device := e.device.(phase := if s.device.phase.Pushed? then s.device.phase else Confirmed))
  }

  lemma EmptyLogOk(d: Device, d': Device, kept: seq<SpoolEntry>, key: PublicKey)
    requires LogOk(d, kept) && BatchesOk(d, kept, key) && Flat(d.pushed) != []
    requires d' == d.(saved := Some(EMPTY_SPOOL), phase := if d.phase.Pushed? then d.phase else Confirmed)
    ensures LogOk(d', kept) && SavedOk(d', kept, []) && BatchesOk(d', kept, key)
  {
    EmptyLog();
  }

  /** The invariant with another state of the device. */
  lemma InvDevice(s: System, d: Device, savedKept: seq<SpoolEntry>)
    requires Inv(s) && d.pushed == s.device.pushed
    requires LogOk(d, s.kept) && SavedOk(d, s.kept, savedKept) && BatchesOk(d, s.kept, s.key)
    ensures Inv(s.(device := d, savedKept := savedKept))
  {
  }

  lemma ExposedEmptyOk(s: System)
    requires Inv(s) && Flat(s.device.pushed) != []
    ensures Inv(ExposedEmpty(s)) && Exposed(ExposedEmpty(s).device)
  {
    EmptyLogOk(s.device, ExposedEmpty(s).device, s.kept, s.key);
    InvDevice(s, ExposedEmpty(s).device, []);
  }

  lemma RestartIsBoot(s: System)
    ensures Next(ExposedEmpty(s), Restart) == EmptySaved(Booted(s))
    ensures BelievedBatch(ExposedEmpty(s)) == NothingSent(s.key)
  {
  }

  /** Alike but for the checkpoint. */
  ghost predicate AlikeButSaved(a: System, b: System) {
    a.(device := a.device.(saved := b.device.saved), savedKept := b.savedKept) == b
  }

  lemma AlikeStep(a: System, b: System, step: Step)
    requires AlikeButSaved(a, b) && !step.Restart?
    ensures AlikeButSaved(Next(a, step), Next(b, step))
  {
  }

  /** Without restarts the checkpoint does not matter. */
  lemma {:induction false} AlikeRun(a: System, b: System, steps: seq<Step>)
    requires AlikeButSaved(a, b) && NoRestart(steps)
    ensures AlikeButSaved(Run(a, steps), Run(b, steps)) && SafeRun(a, steps)
  {
    if steps != [] {
      var n := |steps| - 1;
      AlikeRun(a, b, steps[..n]);
      AlikeStep(Run(a, steps[..n]), Run(b, steps[..n]), steps[n]);
    }
  }

  lemma BootedOk(s: System)
    requires AnyInv(s)
    ensures AnyInv(Booted(s)) && AnyInv(EmptySaved(Booted(s)))
  {
    EmptyLog();
  }

  /** What an account that starts with nothing sent is based on. */
  function NothingSent(key: PublicKey): SignedSpoolBatch { SignBatch(key, [], Genesis) }

  /** After a fresh boot: how the run goes on, and when it catches up. */
  ghost predicate BootGoesOn(s: System, u: System) { GoesOn(s, u) && CatchesUpIff(s, u, NothingSent(s.key)) }

  lemma BootGoesOnAlike(s: System, a: System, b: System)
    requires AlikeButSaved(a, b) && BootGoesOn(ExposedEmpty(s), a)
    ensures BootGoesOn(s, b)
  {
  }

  /** The booted device believes in a history that starts with nothing sent. */
  lemma BootHistory(s: System, after: seq<Step>)
    requires Inv(s) && Flat(s.device.pushed) != [] && SafeRun(EmptySaved(Booted(s)), after)
    ensures var x, u := ExposedEmpty(s), Run(EmptySaved(Booted(s)), after);
            && History(x.device.pushed, x.kept, x.key) && StillLevel(x, u)
            && History(AsIf(u.device, |x.device.pushed|, NothingSent(s.key)).pushed, u.kept, u.key)
  {
    ExposedEmptyOk(s);
    RestartIsBoot(s);
    BelievedHistory(ExposedEmpty(s), after);
  }

  lemma BootGoesOnFrom(s: System, after: seq<Step>)
    requires Inv(s) && AnyInv(s) && Flat(s.device.pushed) != [] && NoRestart(after)
    ensures BootGoesOn(s, Run(Booted(s), after))
  {
    var x, t := ExposedEmpty(s), EmptySaved(Booted(s));
    AlikeRun(t, Booted(s), after);
    BootedOk(s);
    AnyRunKeeps(t, after);
    BootHistory(s, after);
    GoesOnFrom(x, Run(t, after), NothingSent(s.key));
    CatchesUp(x, Run(t, after), NothingSent(s.key));
    BootGoesOnAlike(s, Run(t, after), Run(Booted(s), after));
  }

  /**
   After a fresh boot when something was pushed, and any run from there: batches pushed before it are
   still accepted, the first one after it is refused as a gap, every later one is accepted if and
   only if the head of the batch before it is the ledger's head; and until one is, that happens if
   and only if the events sent since the boot are the events sent before it.
   */
  lemma AfterFreshBoot(id: DeviceId, key: PublicKey, before: seq<Step>, after: seq<Step>)
    requires SafeRun(Start(id, key), before) && Run(Start(id, key), before).device.pushed != [] && NoRestart(after)
    ensures BootGoesOn(Run(Start(id, key), before), Run(Booted(Run(Start(id, key), before)), after))
  {
    SafeRunsKeepInv(id, key, before);
    StartOk(id, key);
    AnyRunKeeps(Start(id, key), before);
    PushedHasEntries(Run(Start(id, key), before).device.pushed, Run(Start(id, key), before).key);
    BootGoesOnFrom(Run(Start(id, key), before), after);
  }

  // Exactly when a fresh boot does no harm to delivery.

  ghost predicate NextAccepted(u: System) { Waiting(u) ==> VerdictOn(u.ledger.chains, u.id, NextBatch(u)).Ok? }

  lemma {:induction false} InvRun(s: System, steps: seq<Step>)
    requires Inv(s) && SafeRun(s, steps)
    ensures Inv(Run(s, steps))
  {
    if steps != [] {
      InvRun(s, steps[..|steps| - 1]);
      StepKeeps(Run(s, steps[..|steps| - 1]), steps[|steps| - 1]);
    }
  }

  /** Pushed batches have entries. */
  lemma PushedHasEntries(pushed: seq<SignedSpoolBatch>, key: PublicKey)
    requires AllSegments(pushed, key) && pushed != []
    ensures Flat(pushed) != []
  {
    assert Segment(pushed[|pushed| - 1], key);
  }

  lemma BootedInOrder(s: System)
    requires Inv(s) && s.device.pushed == []
    ensures Inv(EmptySaved(Booted(s)))
  {
    EmptyLog();
    var d := EmptySaved(Booted(s)).device;
    assert LogOk(d, []) && SavedOk(d, [], []) && BatchesOk(d, [], s.key);
    assert s.taken == [];
  }

  lemma HarmlessBoot(s: System, after: seq<Step>)
    requires Inv(s) && s.device.pushed == [] && NoRestart(after)
    ensures NextAccepted(Run(Booted(s), after))
  {
    var t := EmptySaved(Booted(s));
    BootedInOrder(s);
    AlikeRun(t, Booted(s), after);
    InvRun(t, after);
    TakeStep(Run(t, after));
  }

  function Takes(k: nat): seq<Step> { seq(k, _ => TakeBatch) }

  /** The gateway takes the next `k` batches. */
  lemma {:induction false} TakingMany(u: System, k: nat)
    requires |u.taken| + k <= |u.device.pushed|
    ensures Run(u, Takes(k)).device == u.device && |Run(u, Takes(k)).taken| == |u.taken| + k
  {
    if k > 0 {
      TakingMany(u, k - 1);
      assert Takes(k)[..k - 1] == Takes(k - 1);
    }
  }

  /** A run after the boot that brings its first batch before the gateway. */
  function Telling(s: System, e: AuditEvent): seq<Step>
    requires |s.taken| <= |s.device.pushed|
  {
    [Emit(e)] + PUSHING + Takes(|s.device.pushed| - |s.taken|)
  }

  lemma TellingIsRun(s: System, e: AuditEvent)
    requires |s.taken| <= |s.device.pushed|
    ensures NoRestart(Telling(s, e))
  {
  }

  /** Booting, emitting and pushing one event. */
  lemma BootTells(s: System, e: AuditEvent)
    ensures var u := Run(Booted(s), [Emit(e)] + PUSHING);
            |u.device.pushed| == |s.device.pushed| + 1 && u.taken == s.taken
  {
    var b := Booted(s);
    RunOne(b, Emit(e));
    EmitsEntry(b, e);
    Pushing(Next(b, Emit(e)));
    RunConcat(b, [Emit(e)], PUSHING);
  }

  lemma TellingRun(s: System, e: AuditEvent)
    requires |s.taken| <= |s.device.pushed|
    ensures var u := Run(Booted(s), Telling(s, e));
            Waiting(u) && |u.taken| == |s.device.pushed|
  {
    var k := |s.device.pushed| - |s.taken|;
    BootTells(s, e);
    RunConcat(Booted(s), [Emit(e)] + PUSHING, Takes(k));
    TakingMany(Run(Booted(s), [Emit(e)] + PUSHING), k);
  }

  /** Every batch is accepted in every run after a fresh boot if and only if nothing was pushed before it. */
  lemma FreshBootAcceptedIff(id: DeviceId, key: PublicKey, before: seq<Step>)
    requires SafeRun(Start(id, key), before)
    ensures var s := Run(Start(id, key), before);
            (forall after :: NoRestart(after) ==> NextAccepted(Run(Booted(s), after))) <==> s.device.pushed == []
  {
    var s := Run(Start(id, key), before);
    SafeRunsKeepInv(id, key, before);
    StartOk(id, key);
    AnyRunKeeps(Start(id, key), before);
    if s.device.pushed == [] {
      forall after | NoRestart(after) ensures NextAccepted(Run(Booted(s), after)) {
        HarmlessBoot(s, after);
      }
    } else {
      HarmfulBoot(s);
    }
  }

  lemma HarmfulBoot(s: System)
    requires Inv(s) && AnyInv(s) && s.device.pushed != []
    ensures exists after :: NoRestart(after) && !NextAccepted(Run(Booted(s), after))
  {
    var after := Telling(s, AuditEvent(0, VolumeMounted, true));
    TellingRun(s, AuditEvent(0, VolumeMounted, true));
    TellingIsRun(s, AuditEvent(0, VolumeMounted, true));
    PushedHasEntries(s.device.pushed, s.key);
    BootGoesOnFrom(s, after);
    assert !NextAccepted(Run(Booted(s), after));
  }

  /** Runs with a fresh boot between any two of them. */
  function Boots(s: System, runs: seq<seq<Step>>): System {
    if runs == [] then s else Run(Booted(Boots(s, runs[..|runs| - 1])), runs[|runs| - 1])
  }

  lemma {:induction false} BootsKeep(s: System, runs: seq<seq<Step>>)
    requires AnyInv(s)
    ensures AnyInv(Boots(s, runs))
  {
    if runs != [] {
      var t := Boots(s, runs[..|runs| - 1]);
      BootsKeep(s, runs[..|runs| - 1]);
      BootedOk(t);
      AnyRunKeeps(Booted(t), runs[|runs| - 1]);
    }
  }

  /** Over any number of fresh boots, a queued batch gets the verdict that its first entry decides. */
  lemma BootsAcceptIffItContinues(id: DeviceId, key: PublicKey, runs: seq<seq<Step>>)
    ensures var s := Boots(Start(id, key), runs);
            Waiting(s) ==>
              && s.id in s.ledger.chains && NextBatch(s).entries != []
              && VerdictOn(s.ledger.chains, s.id, NextBatch(s)) == VerdictAt(s.ledger.chains[s.id], NextBatch(s))
  {
    StartOk(id, key);
    BootsKeep(Start(id, key), runs);
    var s := Boots(Start(id, key), runs);
    if Waiting(s) {
      SegmentVerdict(s.ledger, s.id, s.key, NextBatch(s));
    }
  }

  /** A device that emits one event and pushes it. */
  lemma BootPushes(d: Device, e: AuditEvent, key: PublicKey)
    requires d.phase.Idle?
    ensures var spool := Emitted(d.spool, e);
            DeviceRun(d, [Emit(e), SaveBefore, Peek, Push(true)], key).pushed ==
            d.pushed + [SignBatch(key, spool.pending, spool.head)]
  {
    var steps := [Emit(e), SaveBefore, Peek, Push(true)];
    assert steps[..3][..2] == steps[..2] && steps[..2][..1] == steps[..1] && steps[..1][..0] == [];
    var d1 := DeviceStep(d, steps[0], key);
    assert DeviceRun(d, steps[..1], key) == d1;
    assert DeviceRun(d, steps[..2], key) == DeviceStep(d1, SaveBefore, key);
    assert DeviceRun(d, steps[..3], key) == DeviceStep(DeviceStep(d1, SaveBefore, key), Peek, key);
  }

  /**
   A fresh boot and a restart from the checkpoint push the same batches in every continuation if
   and only if there is no checkpoint or it holds the empty spool.
   */
  lemma FreshBootContinuesIff(d: Device, key: PublicKey)
    ensures (forall steps :: DeviceRun(FreshBoot(d), steps, key).pushed ==
                             DeviceRun(DeviceStep(d, Restart, key), steps, key).pushed) <==>
            d.saved in {None, Some(EMPTY_SPOOL)}
  {
    var bare, resumed := FreshBoot(d), DeviceStep(d, Restart, key);
    if d.saved in {None, Some(EMPTY_SPOOL)} {
      assert bare == resumed;
    } else {
      var e := AuditEvent(0, VolumeMounted, true);
      var steps := [Emit(e), SaveBefore, Peek, Push(true)];
      BootPushes(bare, e, key);
      BootPushes(resumed, e, key);
      PushesDiffer(d.pushed, EMPTY_SPOOL, d.saved.value, e, key);
      assert DeviceRun(bare, steps, key).pushed != DeviceRun(resumed, steps, key).pushed;
    }
  }

  lemma PushesDiffer(pushed: seq<SignedSpoolBatch>, a: Spool, b: Spool, e: AuditEvent, key: PublicKey)
    requires a != b
    ensures var a', b' := Emitted(a, e), Emitted(b, e);
            pushed + [SignBatch(key, a'.pending, a'.head)] != pushed + [SignBatch(key, b'.pending, b'.head)]
  {
    var a', b' := Emitted(a, e), Emitted(b, e);
    var x, y := SignBatch(key, a'.pending, a'.head), SignBatch(key, b'.pending, b'.head);
    assert a'.pending[..|a'.pending| - 1] == a.pending && b'.pending[..|b'.pending| - 1] == b.pending;
    assert x != y;
    assert (pushed + [x])[|pushed|] == x && (pushed + [y])[|pushed|] == y;
  }

  /** An entry that was checkpointed but never pushed: a restart keeps it, a fresh boot drops it. */
  lemma FreshBootDropsPending(id: DeviceId, key: PublicKey, e: AuditEvent)
    ensures var d := Run(Start(id, key), [Emit(e), SaveBefore, Peek, Push(false)]).device;
            && d.pushed == [] && Level(FreshBoot(d))
            && DeviceStep(d, Restart, key).spool.pending == [FirstEntry(e)] && FreshBoot(d).spool.pending == []
  {
    var s := Start(id, key);
    RunOne(s, Emit(e));
    EmitsEntry(s, e);
    var s1 := Next(s, Emit(e));
    assert s1.device == Device(FirstSpool(e), None, Idle, []);
    RunThree(s1, SaveBefore, Peek, Push(false));
    RunConcat(s, [Emit(e)], [SaveBefore, Peek, Push(false)]);
    assert [Emit(e)] + [SaveBefore, Peek, Push(false)] == [Emit(e), SaveBefore, Peek, Push(false)];
    assert Next(Next(Next(s1, SaveBefore), Peek), Push(false)).device == Device(FirstSpool(e), Some(FirstSpool(e)), Idle, []);
  }
}
