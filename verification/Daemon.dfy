/**
 The daemon: policy, volume, command verifier and audit spool behind one set of operations,
 and the sync cycle that exchanges commands, checkpoints and audit batches with the gateway.
 Each operation is one atomic step.
 */
module Daemon {
  import opened Common
  import opened AuditChain
  import opened Control
  import V = Volume
  import D = Delivery

  datatype PolicyError = Rollback(current: nat, offered: nat)

  datatype GatewayError = Rejected(proto: ProtoError) | WrongContainer | PolicyRefused(policy: PolicyError)

  /** The state that daemon operations change. */
  datatype Core = Core(policy: PolicyBundle, highWater: nat, vol: V.Vol, spool: Spool)

  /** An event the daemon itself reports. */
  function Note(now: nat, action: AuditAction): AuditEvent { AuditEvent(now, action, true) }

  function Noted(c: Core, now: nat, action: AuditAction): Core {
    c.(spool := Emitted(c.spool, Note(now, action)))
  }

  function PolicyUpdated(c: Core, next: PolicyBundle): (Core, Result<(), PolicyError>) {
    if next.version < c.policy.version then (c, Err(Rollback(c.policy.version, next.version)))
    else (c.(policy := next), Ok(()))
  }

  /** Only a successful unlock is reported. */
  function VolumeUnlocked(c: Core, now: nat): (Core, V.Reply) {
    var (vol, reply) := V.Unlocked(c.vol);
    (if reply.Done? then Noted(c.(vol := vol), now, VolumeMounted) else c.(vol := vol), reply)
  }

  function VolumeLocked(c: Core, now: nat): Core {
    Noted(c.(vol := c.vol.(cipher := None)), now, VolumeUnmounted)
  }

  function VolumeWiped(c: Core, now: nat): Core {
    Noted(c.(vol := V.Wiped(c.vol)), now, AuditAction.Wiped)
  }

  /** An accepted command moves the high-water mark even when carrying it out fails. */
  function Obeyed(c: Core, command: GatewayCommand, now: nat): (Core, Result<(), GatewayError>) {
    match command
    case UpdatePolicy(bundle) =>
      (match PolicyUpdated(c, bundle)
       case (c', Ok(_)) => (c', Ok(()))
       case (c', Err(e)) => (c', Err(PolicyRefused(e))))
    case LockDevice(_) => (VolumeLocked(c, now), Ok(()))
    case WipeDevice(container, _) =>
      if container != c.vol.id then (c, Err(WrongContainer)) else (VolumeWiped(c, now), Ok(()))
  }

  function Commanded(c: Core, pins: Pins, signed: SignedCommand, now: nat): (Core, Result<(), GatewayError>) {
    match CheckCommand(pins, c.highWater, signed, now)
    case Err(e) => (c, Err(Rejected(e)))
    case Ok(env) => Obeyed(c.(highWater := env.counter), env.command, now)
  }

  class Daemon {
    var policy: PolicyBundle
    const audit: AuditSpool
    const volume: V.ClaveVolume
    const gateway: GatewayVerifier

    function Value(): Core
      reads this, audit, gateway, volume, volume.keystore, volume.backing, volume.backing.data, volume.gate
    {
      Core(policy, gateway.highWater, volume.Value(), audit.Value())
    }

    constructor (audit: AuditSpool, policy: PolicyBundle, volume: V.ClaveVolume, gateway: GatewayVerifier)
      ensures this.audit == audit && this.volume == volume && this.gateway == gateway
      ensures Value() == Core(policy, gateway.highWater, volume.Value(), audit.Value())
    {
      this.audit, this.policy, this.volume, this.gateway := audit, policy, volume, gateway;
    }

    method UpdatePolicy(next: PolicyBundle) returns (r: Result<(), PolicyError>)
      modifies this
      ensures (Value(), r) == PolicyUpdated(old(Value()), next)
    {
      if next.version < policy.version {
        return Err(Rollback(policy.version, next.version));
      }
      policy := next;
      return Ok(());
    }

    method UnlockVolume(now: nat) returns (r: V.Reply)
      modifies volume, audit
      ensures (Value(), r) == VolumeUnlocked(old(Value()), now)
    {
      r := volume.Unlock();
      if r.Done? {
        audit.Emit(Note(now, VolumeMounted));
      }
    }

    method LockVolume(now: nat)
      modifies volume, audit
      ensures Value() == VolumeLocked(old(Value()), now)
    {
      volume.Lock();
      audit.Emit(Note(now, VolumeUnmounted));
    }

    method Wipe(now: nat)
      modifies volume, volume.keystore, volume.backing, audit
      ensures Value() == VolumeWiped(old(Value()), now)
    {
      volume.Wipe();
      audit.Emit(Note(now, AuditAction.Wiped));
    }

    method ApplyGatewayCommand(signed: SignedCommand, now: nat) returns (r: Result<(), GatewayError>)
      modifies this, gateway, volume, volume.keystore, volume.backing, audit
      ensures (Value(), r) == Commanded(old(Value()), gateway.pins, signed, now)
    {
      var verified := gateway.Verify(signed, now);
      if verified.Err? {
        return Err(Rejected(verified.error));
      }
      match verified.value {
        case UpdatePolicy(bundle) =>
          var updated := UpdatePolicy(bundle);
          if updated.Err? {
            return Err(PolicyRefused(updated.error));
          }
        case LockDevice(_) =>
          LockVolume(now);
        case WipeDevice(container, _) =>
          if container != volume.id {
            return Err(WrongContainer);
          }
          Wipe(now);
      }
      return Ok(());
    }

    method TakeCheckpoint() returns (c: Checkpoint)
      ensures c == CheckpointOf(Value())
    {
      c := Checkpoint(gateway.highWater, audit.Value());
    }
  }

  // ----- the sync cycle -----

  /** What a cycle saves: the high-water mark and the whole audit spool. */
  datatype Checkpoint = Checkpoint(highWater: nat, spool: Spool)

  function CheckpointOf(c: Core): Checkpoint { Checkpoint(c.highWater, c.spool) }

  datatype SyncReport = SyncReport(applied: nat, rejected: nat, shipped: nat, retained: nat)

  class LoopbackLink {
    var inbound: seq<SignedCommand>
    var pushed: seq<SignedSpoolBatch>
    var online: bool

    constructor ()
      ensures inbound == [] && pushed == [] && online
    {
      inbound, pushed, online := [], [], true;
    }

    method PollCommands() returns (commands: seq<SignedCommand>)
      modifies this
      ensures commands == old(inbound) && inbound == [] && pushed == old(pushed) && online == old(online)
    {
      commands := inbound;
      inbound := [];
    }

    method PushAudit(batch: SignedSpoolBatch) returns (ok: bool)
      modifies this
      ensures ok == online && online == old(online) && inbound == old(inbound)
      ensures pushed == if ok then old(pushed) + [batch] else old(pushed)
    {
      if !online {
        return false;
      }
      pushed := pushed + [batch];
      return true;
    }
  }

  class MemCheckpointStore {
    var saved: Option<Checkpoint>

    constructor ()
      ensures saved == None
    {
      saved := None;
    }

    method Save(c: Checkpoint)
      modifies this
      ensures saved == Some(c)
    {
      saved := Some(c);
    }
  }

  /** The core after a list of commands. */
  function CommandedAll(c: Core, pins: Pins, commands: seq<SignedCommand>, now: nat): Core {
    if commands == [] then c
    else
      var n := |commands| - 1;
      Commanded(CommandedAll(c, pins, commands[..n], now), pins, commands[n], now).0
  }

  /** How many of the commands were carried out. */
  function AppliedCount(c: Core, pins: Pins, commands: seq<SignedCommand>, now: nat): (k: nat)
    ensures k <= |commands|
  {
    if commands == [] then 0
    else
      var n := |commands| - 1;
      AppliedCount(c, pins, commands[..n], now) +
      if Commanded(CommandedAll(c, pins, commands[..n], now), pins, commands[n], now).1.Ok? then 1 else 0
  }

  /** Everything one cycle touches. */
  datatype Endpoint = Endpoint(core: Core, saved: Option<Checkpoint>, pushed: seq<SignedSpoolBatch>)

  /** The second half of a cycle: checkpoint, push, confirm, checkpoint. */
  function Shipped(e: Endpoint, key: PublicKey, online: bool): Endpoint {
    var spool := e.core.spool;
    var first := e.(saved := Some(CheckpointOf(e.core)));
    if spool.pending == [] || !online then first
    else
      var through := spool.pending[|spool.pending| - 1].number;
      var core := e.core.(spool := spool.(pending := Above(spool.pending, through)));
      Endpoint(core, Some(CheckpointOf(core)), e.pushed + [SignBatch(key, spool.pending, spool.head)])
  }

  function Synced(e: Endpoint, pins: Pins, key: PublicKey, commands: seq<SignedCommand>, online: bool, now: nat): Endpoint {
    Shipped(e.(core := CommandedAll(e.core, pins, commands, now)), key, online)
  }

  class GatewaySync {
    const link: LoopbackLink
    const deviceKey: PublicKey
    const store: MemCheckpointStore

    constructor (link: LoopbackLink, deviceKey: PublicKey, store: MemCheckpointStore)
      ensures this.link == link && this.deviceKey == deviceKey && this.store == store
    {
      this.link, this.deviceKey, this.store := link, deviceKey, store;
    }

    /** The first half of a cycle: carry out the polled commands, in order. */
    method ApplyCommands(daemon: Daemon, commands: seq<SignedCommand>, now: nat) returns (applied: nat, rejected: nat)
      modifies daemon, daemon.gateway, daemon.audit, daemon.volume, daemon.volume.keystore, daemon.volume.backing
      ensures daemon.Value() == CommandedAll(old(daemon.Value()), daemon.gateway.pins, commands, now)
      ensures applied == AppliedCount(old(daemon.Value()), daemon.gateway.pins, commands, now)
      ensures applied + rejected == |commands|
    {
      ghost var before, pins := daemon.Value(), daemon.gateway.pins;
      applied, rejected := 0, 0;
      for i := 0 to |commands|
        invariant daemon.Value() == CommandedAll(before, pins, commands[..i], now)
        invariant applied == AppliedCount(before, pins, commands[..i], now) && applied + rejected == i
      {
        var r := daemon.ApplyGatewayCommand(commands[i], now);
        assert commands[..i + 1][..i] == commands[..i];
        if r.Ok? {
          applied := applied + 1;
        } else {
          rejected := rejected + 1;
        }
      }
      assert commands[..|commands|] == commands;
    }

    method SyncOnce(daemon: Daemon, now: nat) returns (report: SyncReport)
      modifies link, store, daemon, daemon.gateway, daemon.audit
      modifies daemon.volume, daemon.volume.keystore, daemon.volume.backing
      ensures Endpoint(daemon.Value(), store.saved, link.pushed) ==
              Synced(old(Endpoint(daemon.Value(), store.saved, link.pushed)), daemon.gateway.pins, deviceKey,
                     old(link.inbound), link.online, now)
      ensures link.inbound == [] && link.online == old(link.online)
      ensures report.applied == AppliedCount(old(daemon.Value()), daemon.gateway.pins, old(link.inbound), now)
      ensures report.applied + report.rejected == |old(link.inbound)|
      ensures report.shipped == |D.Flat(link.pushed)| - |D.Flat(old(link.pushed))|
      ensures report.retained == if link.online then 0 else |daemon.audit.pending|
    {
      var commands := link.PollCommands();
      var applied, rejected := ApplyCommands(daemon, commands, now);
      var shipped, retained := Ship(daemon);
      report := SyncReport(applied, rejected, shipped, retained);
    }

    /** The second half of a cycle: save, push what is pending, confirm and save again if the link took it. */
    method Ship(daemon: Daemon) returns (shipped: nat, retained: nat)
      modifies link, store, daemon.audit
      ensures Endpoint(daemon.Value(), store.saved, link.pushed) ==
              Shipped(old(Endpoint(daemon.Value(), store.saved, link.pushed)), deviceKey, link.online)
      ensures link.inbound == old(link.inbound) && link.online == old(link.online)
      ensures shipped == |D.Flat(link.pushed)| - |D.Flat(old(link.pushed))|
      ensures retained == if link.online then 0 else |daemon.audit.pending|
    {
      shipped, retained := 0, 0;
      var checkpoint := daemon.TakeCheckpoint();
      store.Save(checkpoint);
      var entries, head := daemon.audit.Peek();
      if entries != [] {
        var through := entries[|entries| - 1].number;
        var batch := SignBatch(deviceKey, entries, head);
        D.FlatPush(link.pushed, batch);
        var ok := link.PushAudit(batch);
        if ok {
          daemon.audit.ConfirmThrough(through);
          shipped := |entries|;
          checkpoint := daemon.TakeCheckpoint();
          store.Save(checkpoint);
        } else {
          retained := |entries|;
        }
      }
    }
  }
}
