/**
 What holds over whole runs of the daemon: its sync cycle is a run of the delivery protocol,
 no command is accepted twice, and a wipe is final.
 */
module DaemonRuns {
  import opened Common
  import opened AuditChain
  import opened Control
  import opened Daemon
  import V = Volume
  import D = Delivery

  // ----- a sync cycle is a run of delivery steps -----

  /** The events that carrying out one command emits. */
  function NotesOf(c: Core, pins: Pins, signed: SignedCommand, now: nat): seq<AuditEvent> {
    match CheckCommand(pins, c.highWater, signed, now)
    case Err(_) => []
    case Ok(env) =>
      match env.command
      case UpdatePolicy(_) => []
      case LockDevice(_) => [Note(now, VolumeUnmounted)]
      case WipeDevice(container, _) => if container == c.vol.id then [Note(now, AuditAction.Wiped)] else []
  }

  function AllNotes(c: Core, pins: Pins, commands: seq<SignedCommand>, now: nat): seq<AuditEvent> {
    if commands == [] then []
    else
      var n := |commands| - 1;
      AllNotes(c, pins, commands[..n], now) + NotesOf(CommandedAll(c, pins, commands[..n], now), pins, commands[n], now)
  }

  function Emits(events: seq<AuditEvent>): seq<D.Step> {
    seq(|events|, i requires 0 <= i < |events| => D.Emit(events[i]))
  }

  function CycleTail(online: bool): seq<D.Step> {
    [D.SaveBefore, D.Peek, D.Push(online), D.Confirm, D.SaveAfter]
  }

  /** The delivery-protocol view of an endpoint between two cycles. */
  function DeviceOf(e: Endpoint): D.Device {
    D.Device(e.core.spool, if e.saved.Some? then Some(e.saved.value.spool) else None, D.Idle, e.pushed)
  }

  lemma {:induction false} DeviceRunConcat(d: D.Device, a: seq<D.Step>, b: seq<D.Step>, key: PublicKey)
    ensures D.DeviceRun(d, a + b, key) == D.DeviceRun(D.DeviceRun(d, a, key), b, key)
    decreases |b|
  {
    if b == [] {
      assert a + b == a;
    } else {
      DeviceRunConcat(d, a, b[..|b| - 1], key);
      assert (a + b)[..|a + b| - 1] == a + b[..|b| - 1];
    }
  }

  lemma {:induction false} EmitsRun(d: D.Device, events: seq<AuditEvent>, key: PublicKey)
    ensures D.DeviceRun(d, Emits(events), key) == d.(spool := EmittedAll(d.spool, events))
  {
    if events != [] {
      var n := |events| - 1;
      EmitsRun(d, events[..n], key);
      assert Emits(events)[..n] == Emits(events[..n]);
    }
  }

  lemma {:induction false} EmittedAllConcat(s: Spool, a: seq<AuditEvent>, b: seq<AuditEvent>)
    ensures EmittedAll(s, a + b) == EmittedAll(EmittedAll(s, a), b)
    decreases |b|
  {
    if b == [] {
      assert a + b == a;
    } else {
      EmittedAllConcat(s, a, b[..|b| - 1]);
      assert (a + b)[..|a + b| - 1] == a + b[..|b| - 1];
    }
  }

  lemma CommandSpool(c: Core, pins: Pins, signed: SignedCommand, now: nat)
    ensures Commanded(c, pins, signed, now).0.spool == EmittedAll(c.spool, NotesOf(c, pins, signed, now))
  {
    var notes := NotesOf(c, pins, signed, now);
    if notes != [] {
      assert notes[..0] == [];
    }
  }

  lemma {:induction false} CommandsSpool(c: Core, pins: Pins, commands: seq<SignedCommand>, now: nat)
    ensures CommandedAll(c, pins, commands, now).spool == EmittedAll(c.spool, AllNotes(c, pins, commands, now))
  {
    if commands != [] {
      var n := |commands| - 1;
      var mid := CommandedAll(c, pins, commands[..n], now);
      CommandsSpool(c, pins, commands[..n], now);
      CommandSpool(mid, pins, commands[n], now);
      EmittedAllConcat(c.spool, AllNotes(c, pins, commands[..n], now), NotesOf(mid, pins, commands[n], now));
    }
  }

  lemma TailRun(d: D.Device, online: bool, key: PublicKey)
    ensures D.DeviceRun(d, CycleTail(online), key) ==
            D.DeviceStep(D.DeviceStep(D.DeviceStep(D.DeviceStep(D.DeviceStep(
              d, D.SaveBefore, key), D.Peek, key), D.Push(online), key), D.Confirm, key), D.SaveAfter, key)
  {
    var t := CycleTail(online);
    assert t[..1][..0] == [] && t[..2][..1] == t[..1] && t[..3][..2] == t[..2] && t[..4][..3] == t[..3];
    assert D.DeviceRun(d, t[..1], key) == D.DeviceStep(d, t[0], key);
    assert D.DeviceRun(d, t[..2], key) == D.DeviceStep(D.DeviceRun(d, t[..1], key), t[1], key);
    assert D.DeviceRun(d, t[..3], key) == D.DeviceStep(D.DeviceRun(d, t[..2], key), t[2], key);
    assert D.DeviceRun(d, t[..4], key) == D.DeviceStep(D.DeviceRun(d, t[..3], key), t[3], key);
  }

  /** One call of the cycle is a run of the delivery protocol: emits, then its five actions. */
  lemma CycleIsDeliveryRun(
    e: Endpoint, pins: Pins, key: PublicKey, commands: seq<SignedCommand>, online: bool, now: nat)
    ensures DeviceOf(Synced(e, pins, key, commands, online, now)) ==
            D.DeviceRun(DeviceOf(e), Emits(AllNotes(e.core, pins, commands, now)) + CycleTail(online), key)
  {
    var notes := AllNotes(e.core, pins, commands, now);
    DeviceRunConcat(DeviceOf(e), Emits(notes), CycleTail(online), key);
    EmitsRun(DeviceOf(e), notes, key);
    CommandsSpool(e.core, pins, commands, now);
    TailRun(DeviceOf(e.(core := CommandedAll(e.core, pins, commands, now))), online, key);
  }

  /** Those steps are an uninterrupted whole cycle after its emits, as the delivery theorem takes it. */
  lemma CycleIsWholeCycle(events: seq<AuditEvent>, online: bool)
    ensures var xs := [D.Between(Emits(events)), D.Cycle(online, [], [], [], [])];
            && D.StepsOfAll(xs) == Emits(events) + CycleTail(online)
            && (forall i :: 0 <= i < |xs| ==> D.WellSpaced(xs[i]))
  {
    var first, cycle := D.Between(Emits(events)), D.Cycle(online, [], [], [], []);
    assert [first, cycle][..1] == [first] && [first][..0] == [];
    assert D.StepsOfAll([first]) == Emits(events);
    assert D.StepsOf(cycle) == CycleTail(online);
  }

  // ----- no command is accepted twice -----

  /** A command the verifier accepted, and when. */
  datatype Acceptance = Acceptance(counter: nat, signed: SignedCommand, at: nat)

  /** The acceptance of a command, if the verifier accepts it. */
  function AcceptedBy(c: Core, pins: Pins, signed: SignedCommand, now: nat): seq<Acceptance> {
    match CheckCommand(pins, c.highWater, signed, now)
    case Ok(env) => [Acceptance(env.counter, signed, now)]
    case Err(_) => []
  }

  function AcceptedIn(c: Core, pins: Pins, commands: seq<SignedCommand>, now: nat): seq<Acceptance> {
    if commands == [] then []
    else
      var n := |commands| - 1;
      AcceptedIn(c, pins, commands[..n], now) + AcceptedBy(CommandedAll(c, pins, commands[..n], now), pins, commands[n], now)
  }

  /**
   What happens to a device: sync cycles, commands outside a cycle, events from elsewhere in the
   daemon, restarts; and its gateway takes a batch.
   */
  datatype LifeOp =
    | Cycle(commands: seq<SignedCommand>, online: bool, now: nat)
    | Direct(signed: SignedCommand, at: nat)
    | Report(event: AuditEvent)
    | Reboot(policy: PolicyBundle, vol: V.Vol)
    | GatewayTakes

  /** A device over its restarts; `accepted` lists every command ever accepted. */
  datatype Life = Life(end: Endpoint, accepted: seq<Acceptance>)

  /** Restarting: the mark and the spool come from the checkpoint, policy and volume from elsewhere. */
  function Rebooted(e: Endpoint, policy: PolicyBundle, vol: V.Vol): Endpoint {
    match e.saved
    case Some(cp) => e.(core := Core(policy, cp.highWater, vol, cp.spool))
    case None => e.(core := Core(policy, 0, vol, EMPTY_SPOOL))
  }

  function LifeStep(l: Life, pins: Pins, key: PublicKey, op: LifeOp): Life {
    match op
    case Cycle(commands, online, now) =>
      Life(Synced(l.end, pins, key, commands, online, now), l.accepted + AcceptedIn(l.end.core, pins, commands, now))
    case Direct(signed, now) =>
      Life(l.end.(core := Commanded(l.end.core, pins, signed, now).0), l.accepted + AcceptedBy(l.end.core, pins, signed, now))
    case Report(event) => l.(end := l.end.(core := l.end.core.(spool := Emitted(l.end.core.spool, event))))
    case Reboot(policy, vol) => l.(end := Rebooted(l.end, policy, vol))
    case GatewayTakes => l
  }

  function LifeAfter(l: Life, pins: Pins, key: PublicKey, ops: seq<LifeOp>): Life {
    if ops == [] then l else LifeStep(LifeAfter(l, pins, key, ops[..|ops| - 1]), pins, key, ops[|ops| - 1])
  }

  /** Counters strictly increase, so no command is there twice. */
  predicate Increasing(s: seq<Acceptance>) { forall i, j :: 0 <= i < j < |s| ==> s[i].counter < s[j].counter }

  /** The mark that a restart finds. */
  function SavedMark(e: Endpoint): nat {
    match e.saved case Some(cp) => cp.highWater case None => 0
  }

  /** The checkpoint holds the current mark. */
  predicate MarkSaved(e: Endpoint) { SavedMark(e) == e.core.highWater }

  /** No restart while the mark is ahead of the checkpoint. */
  ghost predicate MarkedRun(l: Life, pins: Pins, key: PublicKey, ops: seq<LifeOp>) {
    ops != [] ==>
      var n := |ops| - 1;
      MarkedRun(l, pins, key, ops[..n]) && (ops[n].Reboot? ==> MarkSaved(LifeAfter(l, pins, key, ops[..n]).end))
  }

  /** Accepted counters increase and none is above the mark. */
  ghost predicate NoReplay(accepted: seq<Acceptance>, highWater: nat) {
    Increasing(accepted) && forall i :: 0 <= i < |accepted| ==> accepted[i].counter <= highWater
  }

  lemma AcceptKeepsNoReplay(accepted: seq<Acceptance>, c: Core, pins: Pins, signed: SignedCommand, now: nat)
    requires NoReplay(accepted, c.highWater)
    ensures NoReplay(accepted + AcceptedBy(c, pins, signed, now), Commanded(c, pins, signed, now).0.highWater)
  {
  }

  lemma {:induction false} CommandsKeepNoReplay(
    accepted: seq<Acceptance>, c: Core, pins: Pins, commands: seq<SignedCommand>, now: nat)
    requires NoReplay(accepted, c.highWater)
    ensures NoReplay(accepted + AcceptedIn(c, pins, commands, now), CommandedAll(c, pins, commands, now).highWater)
  {
    if commands == [] {
      assert accepted + AcceptedIn(c, pins, commands, now) == accepted;
    } else {
      var n := |commands| - 1;
      var mid := CommandedAll(c, pins, commands[..n], now);
      CommandsKeepNoReplay(accepted, c, pins, commands[..n], now);
      AcceptKeepsNoReplay(accepted + AcceptedIn(c, pins, commands[..n], now), mid, pins, commands[n], now);
      assert accepted + AcceptedIn(c, pins, commands[..n], now) + AcceptedBy(mid, pins, commands[n], now)
          == accepted + AcceptedIn(c, pins, commands, now);
    }
  }

  /** Over every run whose restarts find the mark saved, accepted counters strictly increase. */
  lemma {:induction false} AcceptedOnce(l: Life, pins: Pins, key: PublicKey, ops: seq<LifeOp>)
    requires NoReplay(l.accepted, l.end.core.highWater) && MarkedRun(l, pins, key, ops)
    ensures NoReplay(LifeAfter(l, pins, key, ops).accepted, LifeAfter(l, pins, key, ops).end.core.highWater)
  {
    if ops != [] {
      var n := |ops| - 1;
      AcceptedOnce(l, pins, key, ops[..n]);
      var mid := LifeAfter(l, pins, key, ops[..n]);
      match ops[n] {
        case Cycle(commands, _, now) => CommandsKeepNoReplay(mid.accepted, mid.end.core, pins, commands, now);
        case Direct(signed, now) => AcceptKeepsNoReplay(mid.accepted, mid.end.core, pins, signed, now);
        case _ =>
      }
    }
  }

  /** If commands arrive only in sync cycles, every restart finds the mark saved. */
  lemma {:induction false} CyclesSaveTheMark(l: Life, pins: Pins, key: PublicKey, ops: seq<LifeOp>)
    requires MarkSaved(l.end) && forall i :: 0 <= i < |ops| ==> !ops[i].Direct?
    ensures MarkedRun(l, pins, key, ops) && MarkSaved(LifeAfter(l, pins, key, ops).end)
  {
    if ops != [] {
      CyclesSaveTheMark(l, pins, key, ops[..|ops| - 1]);
    }
  }

  /** Sync cycles and restarts, in any order: no counter is ever accepted twice. */
  lemma CyclesNeverReplay(c: Core, pins: Pins, key: PublicKey, ops: seq<LifeOp>)
    requires c.highWater == 0 && forall i :: 0 <= i < |ops| ==> !ops[i].Direct?
    ensures Increasing(LifeAfter(Life(Endpoint(c, None, []), []), pins, key, ops).accepted)
  {
    var l := Life(Endpoint(c, None, []), []);
    CyclesSaveTheMark(l, pins, key, ops);
    AcceptedOnce(l, pins, key, ops);
  }

  /** The accepted command was signed for this device, under this counter, and was in time. */
  ghost predicate SignedInTime(pins: Pins, a: Acceptance) {
    exists issuedAt: nat, command: GatewayCommand ::
      IssuedAs(pins, a.signed, a.counter, issuedAt, command) && Timely(pins, issuedAt, a.at)
  }

  ghost predicate AllSignedInTime(pins: Pins, accepted: seq<Acceptance>) {
    forall i :: 0 <= i < |accepted| ==> SignedInTime(pins, accepted[i])
  }

  lemma AcceptKeepsSigned(accepted: seq<Acceptance>, c: Core, pins: Pins, signed: SignedCommand, now: nat)
    requires AllSignedInTime(pins, accepted)
    ensures AllSignedInTime(pins, accepted + AcceptedBy(c, pins, signed, now))
  {
    var r := CheckCommand(pins, c.highWater, signed, now);
    if r.Ok? {
      AcceptedIffAuthentic(pins, c.highWater, signed, now, r.value.command);
      assert SignedInTime(pins, Acceptance(r.value.counter, signed, now));
    }
  }

  lemma {:induction false} CommandsKeepSigned(
    accepted: seq<Acceptance>, c: Core, pins: Pins, commands: seq<SignedCommand>, now: nat)
    requires AllSignedInTime(pins, accepted)
    ensures AllSignedInTime(pins, accepted + AcceptedIn(c, pins, commands, now))
  {
    if commands == [] {
      assert accepted + AcceptedIn(c, pins, commands, now) == accepted;
    } else {
      var n := |commands| - 1;
      var mid, some := CommandedAll(c, pins, commands[..n], now), AcceptedIn(c, pins, commands[..n], now);
      CommandsKeepSigned(accepted, c, pins, commands[..n], now);
      AcceptKeepsSigned(accepted + some, mid, pins, commands[n], now);
      assert accepted + some + AcceptedBy(mid, pins, commands[n], now) == accepted + AcceptedIn(c, pins, commands, now);
    }
  }

  /** Over every life, whatever the restarts, only commands signed for the device are ever accepted, and in time. */
  lemma {:induction false} OnlySignedAreAccepted(l: Life, pins: Pins, key: PublicKey, ops: seq<LifeOp>)
    requires AllSignedInTime(pins, l.accepted)
    ensures AllSignedInTime(pins, LifeAfter(l, pins, key, ops).accepted)
  {
    if ops != [] {
      var n := |ops| - 1;
      OnlySignedAreAccepted(l, pins, key, ops[..n]);
      var mid := LifeAfter(l, pins, key, ops[..n]);
      match ops[n] {
        case Cycle(commands, _, now) => CommandsKeepSigned(mid.accepted, mid.end.core, pins, commands, now);
        case Direct(signed, now) => AcceptKeepsSigned(mid.accepted, mid.end.core, pins, signed, now);
        case _ =>
      }
    }
  }

  /** Exactly what the verifier checks besides the mark. */
  predicate Acceptable(pins: Pins, a: Acceptance) {
    && a.counter > 0
    && match CheckCommand(pins, a.counter - 1, a.signed, a.at) case Ok(env) => env.counter == a.counter case Err(_) => false
  }

  /** An acceptable command is accepted exactly below its counter. */
  lemma AcceptedBelowIff(c: Core, pins: Pins, a: Acceptance)
    requires Acceptable(pins, a)
    ensures AcceptedBy(c, pins, a.signed, a.at) == if c.highWater < a.counter then [a] else []
  {
  }

  ghost predicate AllAcceptable(pins: Pins, accepted: seq<Acceptance>) {
    forall i :: 0 <= i < |accepted| ==> Acceptable(pins, accepted[i])
  }

  /** The mark is the counter of the last acceptance. */
  ghost predicate MarkIs(accepted: seq<Acceptance>, highWater: nat) {
    highWater == if accepted == [] then 0 else accepted[|accepted| - 1].counter
  }

  lemma CommandMark(accepted: seq<Acceptance>, c: Core, pins: Pins, signed: SignedCommand, now: nat)
    requires AllAcceptable(pins, accepted) && MarkIs(accepted, c.highWater)
    ensures var c', all := Commanded(c, pins, signed, now).0, accepted + AcceptedBy(c, pins, signed, now);
            AllAcceptable(pins, all) && MarkIs(all, c'.highWater) && c.highWater <= c'.highWater
  {
  }

  lemma {:induction false} CommandsMark(
    accepted: seq<Acceptance>, c: Core, pins: Pins, commands: seq<SignedCommand>, now: nat)
    requires AllAcceptable(pins, accepted) && MarkIs(accepted, c.highWater)
    ensures var c', all := CommandedAll(c, pins, commands, now), accepted + AcceptedIn(c, pins, commands, now);
            AllAcceptable(pins, all) && MarkIs(all, c'.highWater) && c.highWater <= c'.highWater
  {
    if commands == [] {
      assert accepted + AcceptedIn(c, pins, commands, now) == accepted;
    } else {
      var n := |commands| - 1;
      var mid, some := CommandedAll(c, pins, commands[..n], now), AcceptedIn(c, pins, commands[..n], now);
      CommandsMark(accepted, c, pins, commands[..n], now);
      CommandMark(accepted + some, mid, pins, commands[n], now);
      assert accepted + some + AcceptedBy(mid, pins, commands[n], now) == accepted + AcceptedIn(c, pins, commands, now);
    }
  }

  /** The mark follows the accepted commands, and the saved one is not ahead of it. */
  ghost predicate MarkTracks(l: Life, pins: Pins) {
    && AllAcceptable(pins, l.accepted) && MarkIs(l.accepted, l.end.core.highWater)
    && SavedMark(l.end) <= l.end.core.highWater
  }

  lemma MarkTracksStep(l: Life, pins: Pins, key: PublicKey, op: LifeOp)
    requires MarkTracks(l, pins) && (op.Reboot? ==> MarkSaved(l.end))
    ensures MarkTracks(LifeStep(l, pins, key, op), pins)
  {
    match op {
      case Cycle(commands, _, now) => CommandsMark(l.accepted, l.end.core, pins, commands, now);
      case Direct(signed, now) => CommandMark(l.accepted, l.end.core, pins, signed, now);
      case _ =>
    }
  }

  lemma {:induction false} MarkTracksRun(l: Life, pins: Pins, key: PublicKey, ops: seq<LifeOp>)
    requires MarkTracks(l, pins) && MarkedRun(l, pins, key, ops)
    ensures MarkTracks(LifeAfter(l, pins, key, ops), pins)
  {
    if ops != [] {
      MarkTracksRun(l, pins, key, ops[..|ops| - 1]);
      MarkTracksStep(LifeAfter(l, pins, key, ops[..|ops| - 1]), pins, key, ops[|ops| - 1]);
    }
  }

  /** After a restart, the daemon accepts this command once more. */
  ghost predicate Replays(l: Life, pins: Pins, policy: PolicyBundle, vol: V.Vol, a: Acceptance, now: nat) {
    a in l.accepted && AcceptedBy(Rebooted(l.end, policy, vol).core, pins, a.signed, now) != []
  }

  /** Behind the mark, the last accepted command is accepted again. */
  lemma LastReplays(l: Life, pins: Pins, policy: PolicyBundle, vol: V.Vol)
    requires MarkTracks(l, pins) && !MarkSaved(l.end)
    ensures l.accepted != []
    ensures var last := l.accepted[|l.accepted| - 1]; Replays(l, pins, policy, vol, last, last.at)
  {
    AcceptedBelowIff(Rebooted(l.end, policy, vol).core, pins, l.accepted[|l.accepted| - 1]);
  }

  /** At the mark, no accepted command is accepted again. */
  lemma NothingReplays(l: Life, pins: Pins, policy: PolicyBundle, vol: V.Vol, a: Acceptance, now: nat)
    requires NoReplay(l.accepted, l.end.core.highWater) && AllAcceptable(pins, l.accepted)
    requires Replays(l, pins, policy, vol, a, now)
    ensures !MarkSaved(l.end)
  {
    SameCounter(Rebooted(l.end, policy, vol).core, pins, a, now);
  }

  /**
   After every run that has not restarted behind its mark: a restart makes the daemon accept again,
   at whatever time, some command that it accepted before if and only if the checkpoint does not
   hold the mark; and then it accepts the last one again.
   */
  lemma RebootReplaysIff(c: Core, pins: Pins, key: PublicKey, ops: seq<LifeOp>, policy: PolicyBundle, vol: V.Vol)
    requires c.highWater == 0 && MarkedRun(Life(Endpoint(c, None, []), []), pins, key, ops)
    ensures var l := LifeAfter(Life(Endpoint(c, None, []), []), pins, key, ops);
            && ((exists a, now :: Replays(l, pins, policy, vol, a, now)) <==> !MarkSaved(l.end))
            && (!MarkSaved(l.end) ==>
                  l.accepted != [] &&
                  var last := l.accepted[|l.accepted| - 1]; Replays(l, pins, policy, vol, last, last.at))
  {
    var start := Life(Endpoint(c, None, []), []);
    var l := LifeAfter(start, pins, key, ops);
    AcceptedOnce(start, pins, key, ops);
    MarkTracksRun(start, pins, key, ops);
    if !MarkSaved(l.end) {
      LastReplays(l, pins, policy, vol);
    }
    forall a, now | Replays(l, pins, policy, vol, a, now) ensures !MarkSaved(l.end) {
      NothingReplays(l, pins, policy, vol, a, now);
    }
  }

  /** Whenever it is accepted, a command is accepted under its own counter. */
  lemma SameCounter(c: Core, pins: Pins, a: Acceptance, now: nat)
    requires Acceptable(pins, a) && AcceptedBy(c, pins, a.signed, now) != []
    ensures c.highWater < a.counter
  {
  }

  /** Otherwise: a command applied outside a cycle is accepted again after a restart. */
  lemma DirectCommandCanReplay(c: Core, pins: Pins, key: PublicKey, at: nat)
    requires c.highWater == 0
    ensures var lock := Sign(pins.tenant, pins.key, 1, at, LockDevice(AdminRequest));
            var ops := [Direct(lock, at), Reboot(c.policy, c.vol), Direct(lock, at)];
            LifeAfter(Life(Endpoint(c, None, []), []), pins, key, ops).accepted ==
            [Acceptance(1, lock, at), Acceptance(1, lock, at)]
  {
    var lock := Sign(pins.tenant, pins.key, 1, at, LockDevice(AdminRequest));
    var ops := [Direct(lock, at), Reboot(c.policy, c.vol), Direct(lock, at)];
    var l := Life(Endpoint(c, None, []), []);
    assert ops[..2][..1] == ops[..1] && ops[..1][..0] == [];
    assert LifeAfter(l, pins, key, ops[..1]) == LifeStep(l, pins, key, ops[0]);
    assert LifeAfter(l, pins, key, ops[..2]) == LifeStep(LifeAfter(l, pins, key, ops[..1]), pins, key, ops[1]);
  }

  // ----- a whole life is a run of the delivery protocol -----

  /** The delivery stretches behind one thing that happens to the device. */
  function StretchesFor(l: Life, pins: Pins, op: LifeOp): seq<D.Stretch> {
    match op
    case Cycle(commands, online, now) =>
      [D.Between(Emits(AllNotes(l.end.core, pins, commands, now))), D.Cycle(online, [], [], [], [])]
    case Direct(signed, now) => [D.Between(Emits(NotesOf(l.end.core, pins, signed, now)))]
    case Report(event) => [D.Between([D.Emit(event)])]
    case Reboot(_, _) => [D.Stretch.Reboot]
    case GatewayTakes => [D.Between([D.TakeBatch])]
  }

  function StretchesOf(l: Life, pins: Pins, key: PublicKey, ops: seq<LifeOp>): seq<D.Stretch> {
    if ops == [] then []
    else
      var n := |ops| - 1;
      StretchesOf(l, pins, key, ops[..n]) + StretchesFor(LifeAfter(l, pins, key, ops[..n]), pins, ops[n])
  }

  lemma LastStretch(xs: seq<D.Stretch>, x: D.Stretch)
    ensures D.StepsOfAll(xs + [x]) == D.StepsOfAll(xs) + D.StepsOf(x)
  {
    assert (xs + [x])[..|xs|] == xs;
  }

  lemma Regroup(p: seq<D.Step>, q: seq<D.Step>, r: seq<D.Step>)
    ensures p + q + r == p + (q + r)
  {
  }

  lemma SplitLast<T>(a: seq<T>, b: seq<T>)
    requires b != []
    ensures b == b[..|b| - 1] + [b[|b| - 1]] && a + b == a + b[..|b| - 1] + [b[|b| - 1]]
  {
  }

  lemma {:induction false} StepsOfAllConcat(a: seq<D.Stretch>, b: seq<D.Stretch>)
    ensures D.StepsOfAll(a + b) == D.StepsOfAll(a) + D.StepsOfAll(b)
    decreases |b|
  {
    if b == [] {
      assert a + b == a;
    } else {
      var init, last := b[..|b| - 1], b[|b| - 1];
      StepsOfAllConcat(a, init);
      SplitLast(a, b);
      LastStretch(a + init, last);
      LastStretch(init, last);
      Regroup(D.StepsOfAll(a), D.StepsOfAll(init), D.StepsOf(last));
    }
  }

  lemma OneStretch(x: D.Stretch)
    ensures D.StepsOfAll([x]) == D.StepsOf(x)
  {
    assert [x][..0] == [];
  }

  lemma OneDeviceStep(d: D.Device, step: D.Step, key: PublicKey)
    ensures D.DeviceRun(d, [step], key) == D.DeviceStep(d, step, key)
  {
    assert [step][..0] == [];
  }

  lemma DirectIsDelivery(e: Endpoint, pins: Pins, key: PublicKey, signed: SignedCommand, now: nat)
    ensures DeviceOf(e.(core := Commanded(e.core, pins, signed, now).0)) ==
            D.DeviceRun(DeviceOf(e), Emits(NotesOf(e.core, pins, signed, now)), key)
  {
    EmitsRun(DeviceOf(e), NotesOf(e.core, pins, signed, now), key);
    CommandSpool(e.core, pins, signed, now);
  }

  lemma RebootIsRestart(e: Endpoint, policy: PolicyBundle, vol: V.Vol, key: PublicKey)
    ensures DeviceOf(Rebooted(e, policy, vol)) == D.DeviceStep(DeviceOf(e), D.Restart, key)
  {
  }

  lemma LifeStepIsDelivery(l: Life, pins: Pins, key: PublicKey, op: LifeOp)
    ensures DeviceOf(LifeStep(l, pins, key, op).end) ==
            D.DeviceRun(DeviceOf(l.end), D.StepsOfAll(StretchesFor(l, pins, op)), key)
  {
    match op {
      case Cycle(commands, online, now) =>
        CycleIsDeliveryRun(l.end, pins, key, commands, online, now);
        CycleIsWholeCycle(AllNotes(l.end.core, pins, commands, now), online);
      case Direct(signed, now) =>
        OneStretch(D.Between(Emits(NotesOf(l.end.core, pins, signed, now))));
        DirectIsDelivery(l.end, pins, key, signed, now);
      case Report(event) =>
        OneStretch(D.Between([D.Emit(event)]));
        OneDeviceStep(DeviceOf(l.end), D.Emit(event), key);
      case Reboot(policy, vol) =>
        OneStretch(D.Stretch.Reboot);
        OneDeviceStep(DeviceOf(l.end), D.Restart, key);
        RebootIsRestart(l.end, policy, vol, key);
      case GatewayTakes =>
        OneStretch(D.Between([D.TakeBatch]));
        OneDeviceStep(DeviceOf(l.end), D.TakeBatch, key);
    }
  }

  lemma {:induction false} LifeIsDelivery(l: Life, pins: Pins, key: PublicKey, ops: seq<LifeOp>)
    ensures DeviceOf(LifeAfter(l, pins, key, ops).end) ==
            D.DeviceRun(DeviceOf(l.end), D.StepsOfAll(StretchesOf(l, pins, key, ops)), key)
  {
    if ops != [] {
      var n := |ops| - 1;
      var mid := LifeAfter(l, pins, key, ops[..n]);
      LifeIsDelivery(l, pins, key, ops[..n]);
      LifeStepIsDelivery(mid, pins, key, ops[n]);
      StepsOfAllConcat(StretchesOf(l, pins, key, ops[..n]), StretchesFor(mid, pins, ops[n]));
      DeviceRunConcat(DeviceOf(l.end), D.StepsOfAll(StretchesOf(l, pins, key, ops[..n])),
                      D.StepsOfAll(StretchesFor(mid, pins, ops[n])), key);
    }
  }

  ghost predicate AllSpaced(xs: seq<D.Stretch>) { forall i :: 0 <= i < |xs| ==> D.WellSpaced(xs[i]) }

  lemma {:induction false} LifeIsSpaced(l: Life, pins: Pins, key: PublicKey, ops: seq<LifeOp>)
    ensures AllSpaced(StretchesOf(l, pins, key, ops))
  {
    if ops != [] {
      LifeIsSpaced(l, pins, key, ops[..|ops| - 1]);
      OpIsSpaced(LifeAfter(l, pins, key, ops[..|ops| - 1]), pins, ops[|ops| - 1]);
    }
  }

  lemma OpIsSpaced(l: Life, pins: Pins, op: LifeOp)
    ensures AllSpaced(StretchesFor(l, pins, op))
  {
  }

  lemma {:induction false} SystemDevice(s: D.System, steps: seq<D.Step>)
    ensures D.Run(s, steps).device == D.DeviceRun(s.device, steps, s.key)
  {
    if steps != [] {
      SystemDevice(s, steps[..|steps| - 1]);
      D.RunKeepsIdentity(s, steps[..|steps| - 1]);
    }
  }

  /**
   Over every life of a daemon, with its gateway taking batches whenever it likes: the device is
   where the delivery protocol has it, nothing pushed is refused, and a gateway that took
   everything stands at the pending tail.
   */
  lemma LifeDelivers(id: D.AuditLedger.DeviceId, c: Core, pins: Pins, key: PublicKey, ops: seq<LifeOp>)
    requires c.spool == EMPTY_SPOOL
    ensures var l := Life(Endpoint(c, None, []), []);
            var s := D.Run(D.Start(id, key), D.StepsOfAll(StretchesOf(l, pins, key, ops)));
            s.device == DeviceOf(LifeAfter(l, pins, key, ops).end) && D.InTouch(s)
  {
    var l := Life(Endpoint(c, None, []), []);
    var xs := StretchesOf(l, pins, key, ops);
    LifeIsDelivery(l, pins, key, ops);
    SystemDevice(D.Start(id, key), D.StepsOfAll(xs));
    LifeIsSpaced(l, pins, key, ops);
    D.CyclesDeliver(id, key, xs);
  }

  // ----- what commands and events do -----

  /** What a command that was accepted has to meet to be carried out. */
  predicate CanObey(c: Core, command: GatewayCommand) {
    match command
    case UpdatePolicy(bundle) => bundle.version >= c.policy.version
    case LockDevice(_) => true
    case WipeDevice(container, _) => container == c.vol.id
  }

  /** Why an accepted command cannot be obeyed. */
  function WhyNot(c: Core, command: GatewayCommand): GatewayError {
    if command.UpdatePolicy? then PolicyRefused(Rollback(c.policy.version, command.bundle.version)) else WrongContainer
  }

  /** What carrying it out leaves, besides the audit trail. */
  function Carried(c: Core, command: GatewayCommand): (PolicyBundle, V.Vol) {
    match command
    case UpdatePolicy(bundle) => (bundle, c.vol)
    case LockDevice(_) => (c.policy, c.vol.(cipher := None))
    case WipeDevice(container, _) => (c.policy, c.vol.(cipher := None, keys := c.vol.keys - {container}, wiped := true))
  }

  /**
   A command is carried out if and only if it is authentic and can be obeyed, and then it does just
   that; a command that is not authentic changes nothing at all, and an authentic one that cannot be
   obeyed moves the mark only.
   */
  lemma CommandMeans(c: Core, pins: Pins, signed: SignedCommand, now: nat, command: GatewayCommand)
    ensures var (c', r) := Commanded(c, pins, signed, now);
            var authentic := Authentic(pins, c.highWater, signed, now, command);
            && ((forall other :: !Authentic(pins, c.highWater, signed, now, other)) ==> c' == c && r.Err? && r.error.Rejected?)
            && (authentic && CanObey(c, command) ==>
                  r == Ok(()) && c'.highWater == signed.envelope.envelope.counter
                  && (c'.policy, c'.vol) == Carried(c, command)
                  && c'.spool == EmittedAll(c.spool, NotesOf(c, pins, signed, now)))
            && (authentic && !CanObey(c, command) ==>
                  r == Err(WhyNot(c, command)) && c' == c.(highWater := signed.envelope.envelope.counter))
            && (CheckCommand(pins, c.highWater, signed, now).Err? ==>
                  r == Err(Rejected(CheckCommand(pins, c.highWater, signed, now).error)))
  {
    CommandSpool(c, pins, signed, now);
    AcceptedIffAuthentic(pins, c.highWater, signed, now, command);
    var check := CheckCommand(pins, c.highWater, signed, now);
    if check.Ok? {
      AcceptedIffAuthentic(pins, c.highWater, signed, now, check.value.command);
    }
  }

  predicate AnsweredOk(c: Core, pins: Pins, commands: seq<SignedCommand>, now: nat, k: nat)
    requires k < |commands|
  {
    Commanded(CommandedAll(c, pins, commands[..k], now), pins, commands[k], now).1 == Ok(())
  }

  /** The commands that were answered with success, by position. */
  ghost function Answered(c: Core, pins: Pins, commands: seq<SignedCommand>, now: nat): set<nat> {
    set k: nat | k < |commands| && AnsweredOk(c, pins, commands, now, k)
  }

  lemma AnsweredPrefix(c: Core, pins: Pins, commands: seq<SignedCommand>, now: nat, n: nat, k: nat)
    requires k < n <= |commands|
    ensures AnsweredOk(c, pins, commands[..n], now, k) == AnsweredOk(c, pins, commands, now, k)
  {
    assert commands[..n][..k] == commands[..k];
  }

  lemma AnsweredLast(c: Core, pins: Pins, commands: seq<SignedCommand>, now: nat)
    requires commands != []
    ensures var n := |commands| - 1;
            Answered(c, pins, commands, now) ==
            Answered(c, pins, commands[..n], now) + if AnsweredOk(c, pins, commands, now, n) then {n} else {}
  {
    var n := |commands| - 1;
    forall k: nat | k < n ensures AnsweredOk(c, pins, commands[..n], now, k) == AnsweredOk(c, pins, commands, now, k) {
      AnsweredPrefix(c, pins, commands, now, n, k);
    }
  }

  /** The report counts as applied exactly the commands answered with success. */
  lemma {:induction false} AppliedIsAnswered(c: Core, pins: Pins, commands: seq<SignedCommand>, now: nat)
    ensures AppliedCount(c, pins, commands, now) == |Answered(c, pins, commands, now)|
  {
    if commands != [] {
      AppliedIsAnswered(c, pins, commands[..|commands| - 1], now);
      AnsweredLast(c, pins, commands, now);
    }
  }

  /** The audit events of a daemon event: what joins, leaves, mounts, unmounts or wipes is reported, once. */
  function EventNotes(c: Core, pins: Pins, ev: DaemonEvent, now: nat): seq<AuditEvent> {
    match ev
    case ZoneJoin(_) => [AuditEvent(now, ProcessJoinedZone, true)]
    case ZoneLeave(_) => [AuditEvent(now, ProcessLeftZone, true)]
    case VolumeUnlock =>
      if !c.vol.wiped && V.UnwrapFrom(c.vol.keys, c.vol.id).Key? then [AuditEvent(now, VolumeMounted, true)] else []
    case VolumeLock => [AuditEvent(now, VolumeUnmounted, true)]
    case WipeNow => [AuditEvent(now, AuditAction.Wiped, true)]
    case GatewayControl(signed) => NotesOf(c, pins, signed, now)
    case _ => []
  }

  lemma EventsAreReported(c: Core, pins: Pins, scheme: V.Scheme, ev: DaemonEvent, now: nat)
    ensures DaemonStep(c, pins, scheme, ev, now).spool == EmittedAll(c.spool, EventNotes(c, pins, ev, now))
  {
    var notes := EventNotes(c, pins, ev, now);
    if ev.GatewayControl? {
      CommandSpool(c, pins, ev.signed, now);
    } else if notes != [] {
      assert notes[..0] == [];
    }
  }

  // ----- a wipe is final -----

  /** Everything that reaches the volume through the daemon, and everything else it can be told. */
  datatype DaemonEvent =
    | ZoneJoin(proc: V.ProcId)
    | ZoneLeave(proc: V.ProcId)
    | PolicyUpdate(bundle: PolicyBundle)
    | VolumeUnlock
    | VolumeLock
    | GatewayControl(signed: SignedCommand)
    | WipeNow
    | VolumeRead(caller: V.ProcId, first: nat, len: nat)
    | VolumeWrite(caller: V.ProcId, first: nat, bytes: seq<V.Cipher.Byte>)

  function DaemonStep(c: Core, pins: Pins, scheme: V.Scheme, ev: DaemonEvent, now: nat): Core {
    match ev
    case ZoneJoin(p) => Noted(c.(vol := V.VolStep(c.vol, scheme, V.Join(p)).0), now, ProcessJoinedZone)
    case ZoneLeave(p) => Noted(c.(vol := V.VolStep(c.vol, scheme, V.Leave(p)).0), now, ProcessLeftZone)
    case PolicyUpdate(bundle) => PolicyUpdated(c, bundle).0
    case VolumeUnlock => VolumeUnlocked(c, now).0
    case VolumeLock => VolumeLocked(c, now)
    case GatewayControl(signed) => Commanded(c, pins, signed, now).0
    case WipeNow => VolumeWiped(c, now)
    case VolumeRead(caller, first, len) => c
    case VolumeWrite(caller, first, bytes) => c.(vol := V.Written(c.vol, scheme, caller, first, bytes).0)
  }

  function DaemonAfter(c: Core, pins: Pins, scheme: V.Scheme, events: seq<(DaemonEvent, nat)>): Core {
    if events == [] then c
    else
      var n := |events| - 1;
      DaemonStep(DaemonAfter(c, pins, scheme, events[..n]), pins, scheme, events[n].0, events[n].1)
  }

  /** The volume operations behind a daemon event: at most one. */
  function VolOps(c: Core, pins: Pins, ev: DaemonEvent, now: nat): seq<V.VolOp> {
    match ev
    case ZoneJoin(p) => [V.Join(p)]
    case ZoneLeave(p) => [V.Leave(p)]
    case PolicyUpdate(_) => []
    case VolumeUnlock => [V.Unlock]
    case VolumeLock => [V.Lock]
    case GatewayControl(signed) =>
      (match CheckCommand(pins, c.highWater, signed, now)
       case Err(_) => []
       case Ok(env) =>
         match env.command
         case UpdatePolicy(_) => []
         case LockDevice(_) => [V.Lock]
         case WipeDevice(container, _) => if container == c.vol.id then [V.Wipe] else [])
    case WipeNow => [V.Wipe]
    case VolumeRead(caller, first, len) => [V.Read(caller, first, len)]
    case VolumeWrite(caller, first, bytes) => [V.Write(caller, first, bytes)]
  }

  function AllVolOps(c: Core, pins: Pins, scheme: V.Scheme, events: seq<(DaemonEvent, nat)>): seq<V.VolOp> {
    if events == [] then []
    else
      var n := |events| - 1;
      AllVolOps(c, pins, scheme, events[..n])
      + VolOps(DaemonAfter(c, pins, scheme, events[..n]), pins, events[n].0, events[n].1)
  }

  lemma {:induction false} VolAfterConcat(v: V.Vol, scheme: V.Scheme, a: seq<V.VolOp>, b: seq<V.VolOp>)
    ensures V.VolAfter(v, scheme, a + b) == V.VolAfter(V.VolAfter(v, scheme, a), scheme, b)
    decreases |b|
  {
    if b == [] {
      assert a + b == a;
    } else {
      VolAfterConcat(v, scheme, a, b[..|b| - 1]);
      assert (a + b)[..|a + b| - 1] == a + b[..|b| - 1];
    }
  }

  lemma EventVolume(c: Core, pins: Pins, scheme: V.Scheme, ev: DaemonEvent, now: nat)
    ensures DaemonStep(c, pins, scheme, ev, now).vol == V.VolAfter(c.vol, scheme, VolOps(c, pins, ev, now))
  {
    var ops := VolOps(c, pins, ev, now);
    if ops != [] {
      assert ops[..0] == [];
    }
  }

  /** The daemon moves its volume only through volume operations. */
  lemma {:induction false} DaemonVolume(c: Core, pins: Pins, scheme: V.Scheme, events: seq<(DaemonEvent, nat)>)
    ensures DaemonAfter(c, pins, scheme, events).vol == V.VolAfter(c.vol, scheme, AllVolOps(c, pins, scheme, events))
  {
    if events != [] {
      var n := |events| - 1;
      var mid := DaemonAfter(c, pins, scheme, events[..n]);
      DaemonVolume(c, pins, scheme, events[..n]);
      EventVolume(mid, pins, scheme, events[n].0, events[n].1);
      VolAfterConcat(c.vol, scheme, AllVolOps(c, pins, scheme, events[..n]), VolOps(mid, pins, events[n].0, events[n].1));
    }
  }

  /** After a wipe, whatever events follow: nothing unlocks and the stored bytes stay as they are. */
  lemma {:induction false} DaemonWipeIsFinal(c: Core, pins: Pins, scheme: V.Scheme, events: seq<(DaemonEvent, nat)>, now: nat)
    ensures var wiped := VolumeWiped(c, now);
            var after := DaemonAfter(wiped, pins, scheme, events);
            && after.vol.data == c.vol.data
            && V.Dead(after.vol)
            && V.Unlocked(after.vol).1 == V.Failed(V.WipeMarkerSet)
            && (forall caller, first, len ::
                  V.ReadReply(after.vol, scheme, caller, first, len) in {V.Failed(V.AccessDenied), V.Failed(V.Locked)})
            && (forall caller, first, bytes ::
                  && V.Written(after.vol, scheme, caller, first, bytes).0 == after.vol
                  && V.Written(after.vol, scheme, caller, first, bytes).1 in {V.Failed(V.AccessDenied), V.Failed(V.Locked)})
  {
    var wiped := VolumeWiped(c, now);
    DaemonVolume(wiped, pins, scheme, events);
    V.WipeIsFinal(wiped.vol, scheme, AllVolOps(wiped, pins, scheme, events));
  }

  /** After a wipe the key is gone for good, whatever the daemon is told: no bytes can be opened with it. */
  lemma DaemonWipeDestroysKey(c: Core, pins: Pins, scheme: V.Scheme, events: seq<(DaemonEvent, nat)>, now: nat)
    ensures V.KeyGone(c.vol, DaemonAfter(VolumeWiped(c, now), pins, scheme, events).vol)
  {
    var wiped := VolumeWiped(c, now);
    DaemonVolume(wiped, pins, scheme, events);
    V.WipeDestroysKey(c.vol, scheme, AllVolOps(wiped, pins, scheme, events));
  }
}
