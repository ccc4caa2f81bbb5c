/**
 The gateway's policy issuer: a version history per workspace and one command counter, and
 what a daemon makes of the commands it signs.
 */
module PolicyIssuer {
  import opened Common
  import opened Control
  import opened Daemon

  type WorkspaceId = nat

  /** The issuer's state; `counter` is the last counter given out. */
  datatype Issuer = Issuer(policies: map<WorkspaceId, seq<PolicyBundle>>, counter: nat)

  function HistoryOf(i: Issuer, ws: WorkspaceId): seq<PolicyBundle> {
    if ws in i.policies then i.policies[ws] else []
  }

  /** Authoring numbers the bundle after the newest one of its workspace. */
  function NextVersion(history: seq<PolicyBundle>): nat {
    if history == [] then 1 else history[|history| - 1].version + 1
  }

  function Authored(i: Issuer, ws: WorkspaceId, bundle: PolicyBundle): Issuer {
    var history := HistoryOf(i, ws);
    i.(policies := i.policies[ws := history + [bundle.(version := NextVersion(history))]])
  }

  /** Signing the current policy uses up a counter; without a policy nothing happens. */
  function Signed(i: Issuer, tenant: TenantId, key: CommandKey, ws: WorkspaceId, now: nat)
    : (Issuer, Option<SignedCommand>)
  {
    var history := HistoryOf(i, ws);
    if history == [] then (i, None)
    else
      var counter := i.counter + 1;
      (i.(counter := counter), Some(Sign(tenant, key, counter, now, UpdatePolicy(history[|history| - 1]))))
  }

  class MemPolicyIssuer {
    const tenant: TenantId
    const key: CommandKey
    var policies: map<WorkspaceId, seq<PolicyBundle>>
    var counter: nat

    function Value(): Issuer
      reads this
    {
      Issuer(policies, counter)
    }

    constructor (tenant: TenantId, key: CommandKey, counter: nat)
      ensures this.tenant == tenant && this.key == key && Value() == Issuer(map[], counter)
    {
      this.tenant, this.key, this.counter := tenant, key, counter;
      policies := map[];
    }

    method SetPolicy(ws: WorkspaceId, bundle: PolicyBundle)
      modifies this
      ensures Value() == PolicySet(old(Value()), ws, bundle)
    {
      policies := policies[ws := [bundle]];
    }

    method AuthorPolicy(ws: WorkspaceId, bundle: PolicyBundle) returns (stored: PolicyBundle)
      modifies this
      ensures Value() == Authored(old(Value()), ws, bundle)
      ensures HistoryOf(Value(), ws) == HistoryOf(old(Value()), ws) + [stored]
    {
      var history := if ws in policies then policies[ws] else [];
      stored := bundle.(version := if history == [] then 1 else history[|history| - 1].version + 1);
      policies := policies[ws := history + [stored]];
    }

    method SignCurrent(ws: WorkspaceId, now: nat) returns (r: Option<SignedCommand>)
      modifies this
      ensures (Value(), r) == Signed(old(Value()), tenant, key, ws, now)
    {
      if ws !in policies || policies[ws] == [] {
        return None;
      }
      var bundle := policies[ws][|policies[ws]| - 1];
      counter := counter + 1;
      r := Some(Sign(tenant, key, counter, now, UpdatePolicy(bundle)));
    }
  }

  // ----- runs of the issuer -----

  datatype IssuerOp =
    | SetTo(ws: WorkspaceId, bundle: PolicyBundle)
    | Author(ws: WorkspaceId, bundle: PolicyBundle)
    | Reissue(ws: WorkspaceId, now: nat)

  function PolicySet(i: Issuer, ws: WorkspaceId, bundle: PolicyBundle): Issuer {
    i.(policies := i.policies[ws := [bundle]])
  }

  function IssuerStep(i: Issuer, tenant: TenantId, key: CommandKey, op: IssuerOp): Issuer {
    match op
    case SetTo(ws, bundle) => PolicySet(i, ws, bundle)
    case Author(ws, bundle) => Authored(i, ws, bundle)
    case Reissue(ws, now) => Signed(i, tenant, key, ws, now).0
  }

  function IssuerAfter(i: Issuer, tenant: TenantId, key: CommandKey, ops: seq<IssuerOp>): Issuer {
    if ops == [] then i else IssuerStep(IssuerAfter(i, tenant, key, ops[..|ops| - 1]), tenant, key, ops[|ops| - 1])
  }

  // What a history holds, read from the run alone.

  /** The policy texts since the last outright setting, that one included. */
  function TextsOf(ops: seq<IssuerOp>, ws: WorkspaceId): seq<nat> {
    if ops == [] then []
    else
      var before := TextsOf(ops[..|ops| - 1], ws);
      match ops[|ops| - 1]
      case SetTo(w, bundle) => if w == ws then [bundle.body] else before
      case Author(w, bundle) => if w == ws then before + [bundle.body] else before
      case Reissue(_, _) => before
  }

  /** The version the texts start from: the one last set, or 1. */
  function FirstVersion(ops: seq<IssuerOp>, ws: WorkspaceId): nat {
    if ops == [] then 1
    else
      var op := ops[|ops| - 1];
      if op.SetTo? && op.ws == ws then op.bundle.version else FirstVersion(ops[..|ops| - 1], ws)
  }

  /** These texts, under consecutive versions. */
  ghost predicate Numbers(history: seq<PolicyBundle>, texts: seq<nat>, first: nat) {
    |history| == |texts| && forall k :: 0 <= k < |history| ==> history[k] == PolicyBundle(first + k, texts[k])
  }

  /** Over every run, a workspace's history is the texts set and authored for it, in order, under consecutive versions. */
  lemma {:induction false} HistoryIsWritten(i: Issuer, tenant: TenantId, key: CommandKey, ops: seq<IssuerOp>, ws: WorkspaceId)
    requires HistoryOf(i, ws) == []
    ensures Numbers(HistoryOf(IssuerAfter(i, tenant, key, ops), ws), TextsOf(ops, ws), FirstVersion(ops, ws))
    ensures TextsOf(ops, ws) == [] ==> FirstVersion(ops, ws) == 1
  {
    if ops != [] {
      HistoryIsWritten(i, tenant, key, ops[..|ops| - 1], ws);
    }
  }

  /** What one operation signs for a workspace; other workspaces share the counter. */
  function SignedFor(i: Issuer, tenant: TenantId, key: CommandKey, op: IssuerOp, ws: WorkspaceId): (cs: seq<SignedCommand>)
    ensures forall k :: 0 <= k < |cs| ==> PolicyCommand(cs[k], tenant, key)
  {
    match op
    case Reissue(w, now) =>
      var r := Signed(i, tenant, key, w, now).1;
      if w == ws && r.Some? then [r.value] else []
    case _ => []
  }

  /** The commands signed for one workspace, in order. */
  function CommandsFor(i: Issuer, tenant: TenantId, key: CommandKey, ops: seq<IssuerOp>, ws: WorkspaceId): (cs: seq<SignedCommand>)
    ensures forall k :: 0 <= k < |cs| ==> PolicyCommand(cs[k], tenant, key)
  {
    if ops == [] then []
    else
      var n := |ops| - 1;
      CommandsFor(i, tenant, key, ops[..n], ws) + SignedFor(IssuerAfter(i, tenant, key, ops[..n]), tenant, key, ops[n], ws)
  }

  lemma RunLast(i: Issuer, tenant: TenantId, key: CommandKey, ops: seq<IssuerOp>, op: IssuerOp, ws: WorkspaceId)
    ensures IssuerAfter(i, tenant, key, ops + [op]) == IssuerStep(IssuerAfter(i, tenant, key, ops), tenant, key, op)
    ensures CommandsFor(i, tenant, key, ops + [op], ws) ==
            CommandsFor(i, tenant, key, ops, ws) + SignedFor(IssuerAfter(i, tenant, key, ops), tenant, key, op, ws)
  {
    assert (ops + [op])[..|ops|] == ops;
  }

  /** A policy command signed with this key for this tenant. */
  predicate PolicyCommand(c: SignedCommand, tenant: TenantId, key: CommandKey) {
    && c.envelope.Encoded?
    && c.envelope.envelope.proto == GATEWAY_PROTO_VERSION
    && c.envelope.envelope.tenant == tenant
    && c.envelope.envelope.command.UpdatePolicy?
    && c.signature == SignedWith(key, c.envelope)
  }

  /** The counter of a command, 0 if it has none. */
  function CounterOf(c: SignedCommand): nat { if c.envelope.Encoded? then c.envelope.envelope.counter else 0 }

  /** The version of the policy that a command carries, 0 if it carries none. */
  function VersionOf(c: SignedCommand): nat {
    if c.envelope.Encoded? && c.envelope.envelope.command.UpdatePolicy?
    then c.envelope.envelope.command.bundle.version else 0
  }

  /** Counters strictly increase and versions never go back. */
  ghost predicate Ascending(cs: seq<SignedCommand>, tenant: TenantId, key: CommandKey) {
    && (forall k :: 0 <= k < |cs| ==> PolicyCommand(cs[k], tenant, key))
    && (forall j, k :: 0 <= j < k < |cs| ==> CounterOf(cs[j]) < CounterOf(cs[k]) && VersionOf(cs[j]) <= VersionOf(cs[k]))
  }

  /** No command of the list is ahead of the issuer. */
  ghost predicate NotAhead(cs: seq<SignedCommand>, i: Issuer, ws: WorkspaceId)
  {
    forall k :: 0 <= k < |cs| ==>
      && CounterOf(cs[k]) <= i.counter
      && HistoryOf(i, ws) != []
      && VersionOf(cs[k]) <= HistoryOf(i, ws)[|HistoryOf(i, ws)| - 1].version
  }

  /** Setting a policy outright does not go below the newest version of its workspace. */
  predicate NotBack(i: Issuer, op: IssuerOp) {
    op.SetTo? ==>
      var history := HistoryOf(i, op.ws);
      history != [] ==> op.bundle.version >= history[|history| - 1].version
  }

  ghost predicate NeverBack(i: Issuer, tenant: TenantId, key: CommandKey, ops: seq<IssuerOp>, ws: WorkspaceId) {
    ops != [] ==>
      var n := |ops| - 1;
      && NeverBack(i, tenant, key, ops[..n], ws)
      && (ops[n].ws == ws ==> NotBack(IssuerAfter(i, tenant, key, ops[..n]), ops[n]))
  }

  /** Counters strictly increase. */
  ghost predicate Numbered(cs: seq<SignedCommand>, tenant: TenantId, key: CommandKey) {
    && (forall k :: 0 <= k < |cs| ==> PolicyCommand(cs[k], tenant, key))
    && (forall j, k :: 0 <= j < k < |cs| ==> CounterOf(cs[j]) < CounterOf(cs[k]))
  }

  ghost predicate CountersWithin(cs: seq<SignedCommand>, low: nat, high: nat)
  {
    low <= high && forall k :: 0 <= k < |cs| ==> low < CounterOf(cs[k]) <= high
  }

  /** Whatever happens at the issuer, the counters of its commands strictly increase. */
  lemma {:induction false} CommandsAreNumbered(
    i: Issuer, tenant: TenantId, key: CommandKey, ops: seq<IssuerOp>, ws: WorkspaceId)
    ensures Numbered(CommandsFor(i, tenant, key, ops, ws), tenant, key)
    ensures CountersWithin(CommandsFor(i, tenant, key, ops, ws), i.counter, IssuerAfter(i, tenant, key, ops).counter)
  {
    if ops != [] {
      var n := |ops| - 1;
      CommandsAreNumbered(i, tenant, key, ops[..n], ws);
      NumberedStep(CommandsFor(i, tenant, key, ops[..n], ws), i.counter, IssuerAfter(i, tenant, key, ops[..n]), tenant, key, ops[n], ws);
    }
  }

  lemma NumberedStep(
    cs: seq<SignedCommand>, low: nat, mid: Issuer, tenant: TenantId, key: CommandKey, op: IssuerOp, ws: WorkspaceId)
    requires Numbered(cs, tenant, key) && CountersWithin(cs, low, mid.counter)
    ensures Numbered(cs + SignedFor(mid, tenant, key, op, ws), tenant, key)
    ensures CountersWithin(cs + SignedFor(mid, tenant, key, op, ws), low, IssuerStep(mid, tenant, key, op).counter)
  {
  }

  /** One more command: what counts is the one before it. */
  lemma AscendingPush(cs: seq<SignedCommand>, c: SignedCommand, tenant: TenantId, key: CommandKey)
    requires Ascending(cs, tenant, key) && PolicyCommand(c, tenant, key)
    requires forall k :: 0 <= k < |cs| ==> CounterOf(cs[k]) < CounterOf(c)
    ensures Ascending(cs + [c], tenant, key) <==> cs == [] || VersionOf(cs[|cs| - 1]) <= VersionOf(c)
  {
    var all := cs + [c];
    assert all[|cs|] == c && forall k :: 0 <= k < |cs| ==> all[k] == cs[k];
    if cs != [] && VersionOf(cs[|cs| - 1]) <= VersionOf(c) {
      assert forall k :: 0 <= k < |cs| ==> VersionOf(cs[k]) <= VersionOf(cs[|cs| - 1]);
    }
  }

  /** The current version is not below the version last reissued. */
  ghost predicate Holds(i: Issuer, cs: seq<SignedCommand>, ws: WorkspaceId)
  {
    var history := HistoryOf(i, ws);
    history != [] && cs != [] ==> VersionOf(cs[|cs| - 1]) <= history[|history| - 1].version
  }

  /** The newest policy under the next counter. */
  function NextCommand(i: Issuer, tenant: TenantId, key: CommandKey, ws: WorkspaceId, now: nat): SignedCommand
    requires HistoryOf(i, ws) != []
  {
    var history := HistoryOf(i, ws);
    Sign(tenant, key, i.counter + 1, now, UpdatePolicy(history[|history| - 1]))
  }

  lemma LastCommand(i: Issuer, tenant: TenantId, key: CommandKey, ops: seq<IssuerOp>, ws: WorkspaceId, now: nat)
    requires HistoryOf(IssuerAfter(i, tenant, key, ops), ws) != []
    ensures CommandsFor(i, tenant, key, ops + [Reissue(ws, now)], ws) ==
            CommandsFor(i, tenant, key, ops, ws) + [NextCommand(IssuerAfter(i, tenant, key, ops), tenant, key, ws, now)]
  {
    RunLast(i, tenant, key, ops, Reissue(ws, now), ws);
    ReissueSigns(IssuerAfter(i, tenant, key, ops), tenant, key, ws, now);
  }

  lemma ReissueSigns(i: Issuer, tenant: TenantId, key: CommandKey, ws: WorkspaceId, now: nat)
    requires HistoryOf(i, ws) != []
    ensures SignedFor(i, tenant, key, Reissue(ws, now), ws) == [NextCommand(i, tenant, key, ws, now)]
  {
  }

  lemma NextAscendsIff(
    cs: seq<SignedCommand>, low: nat, mid: Issuer, tenant: TenantId, key: CommandKey, ws: WorkspaceId, now: nat)
    requires Ascending(cs, tenant, key) && CountersWithin(cs, low, mid.counter) && HistoryOf(mid, ws) != []
    ensures Ascending(cs + [NextCommand(mid, tenant, key, ws, now)], tenant, key) <==> Holds(mid, cs, ws)
  {
    AscendingPush(cs, NextCommand(mid, tenant, key, ws, now), tenant, key);
  }

  /** A reissue keeps ascending commands ascending if and only if the current version is not below the last reissued one. */
  lemma ReissueAscendsIff(i: Issuer, tenant: TenantId, key: CommandKey, ops: seq<IssuerOp>, ws: WorkspaceId, now: nat)
    requires Ascending(CommandsFor(i, tenant, key, ops, ws), tenant, key)
    requires HistoryOf(IssuerAfter(i, tenant, key, ops), ws) != []
    ensures Ascending(CommandsFor(i, tenant, key, ops + [Reissue(ws, now)], ws), tenant, key) <==>
            Holds(IssuerAfter(i, tenant, key, ops), CommandsFor(i, tenant, key, ops, ws), ws)
  {
    CommandsAreNumbered(i, tenant, key, ops, ws);
    LastCommand(i, tenant, key, ops, ws, now);
    NextAscendsIff(CommandsFor(i, tenant, key, ops, ws), i.counter, IssuerAfter(i, tenant, key, ops), tenant, key, ws, now);
  }

  lemma SettingSignsNothing(
    i: Issuer, tenant: TenantId, key: CommandKey, ops: seq<IssuerOp>, ws: WorkspaceId, bundle: PolicyBundle)
    ensures HistoryOf(IssuerAfter(i, tenant, key, ops + [SetTo(ws, bundle)]), ws) == [bundle]
    ensures CommandsFor(i, tenant, key, ops + [SetTo(ws, bundle)], ws) == CommandsFor(i, tenant, key, ops, ws)
  {
    RunLast(i, tenant, key, ops, SetTo(ws, bundle), ws);
  }

  /** So setting a policy outright before a reissue is compared with the version last reissued. */
  lemma SetPolicyAscendsIff(
    i: Issuer, tenant: TenantId, key: CommandKey, ops: seq<IssuerOp>, ws: WorkspaceId, bundle: PolicyBundle, now: nat)
    requires Ascending(CommandsFor(i, tenant, key, ops, ws), tenant, key)
    ensures var cs := CommandsFor(i, tenant, key, ops, ws);
            Ascending(CommandsFor(i, tenant, key, ops + [SetTo(ws, bundle)] + [Reissue(ws, now)], ws), tenant, key) <==>
            cs == [] || VersionOf(cs[|cs| - 1]) <= bundle.version
  {
    var set' := ops + [SetTo(ws, bundle)];
    SettingSignsNothing(i, tenant, key, ops, ws, bundle);
    ReissueAscendsIff(i, tenant, key, set', ws, now);
  }

  /** At every reissue of the workspace the current version is not below the one last reissued. */
  ghost predicate ReissuesHold(i: Issuer, tenant: TenantId, key: CommandKey, ops: seq<IssuerOp>, ws: WorkspaceId) {
    ops != [] ==>
      var n := |ops| - 1;
      && ReissuesHold(i, tenant, key, ops[..n], ws)
      && (ops[n].Reissue? && ops[n].ws == ws ==>
            Holds(IssuerAfter(i, tenant, key, ops[..n]), CommandsFor(i, tenant, key, ops[..n], ws), ws))
  }

  lemma AscendingPrefix(cs: seq<SignedCommand>, more: seq<SignedCommand>, tenant: TenantId, key: CommandKey)
    requires Ascending(cs + more, tenant, key)
    ensures Ascending(cs, tenant, key)
  {
    var all := cs + more;
    assert forall k :: 0 <= k < |cs| ==> all[k] == cs[k];
  }

  /** An operation adds at most one command. */
  lemma CommandsGrow(i: Issuer, tenant: TenantId, key: CommandKey, ops: seq<IssuerOp>, ws: WorkspaceId)
    requires ops != []
    ensures var n := |ops| - 1;
            var cs, op := CommandsFor(i, tenant, key, ops[..n], ws), ops[n];
            if op.Reissue? && op.ws == ws && HistoryOf(IssuerAfter(i, tenant, key, ops[..n]), ws) != []
            then cs <= CommandsFor(i, tenant, key, ops, ws)
            else CommandsFor(i, tenant, key, ops, ws) == cs
  {
  }

  /** Over every run of the issuer, its commands ascend if and only if every reissue holds the version. */
  lemma {:induction false} CommandsAscendIff(
    i: Issuer, tenant: TenantId, key: CommandKey, ops: seq<IssuerOp>, ws: WorkspaceId)
    ensures Ascending(CommandsFor(i, tenant, key, ops, ws), tenant, key) <==> ReissuesHold(i, tenant, key, ops, ws)
  {
    if ops != [] {
      var n := |ops| - 1;
      var cs, all, op := CommandsFor(i, tenant, key, ops[..n], ws), CommandsFor(i, tenant, key, ops, ws), ops[n];
      CommandsAscendIff(i, tenant, key, ops[..n], ws);
      CommandsGrow(i, tenant, key, ops, ws);
      if cs <= all && Ascending(all, tenant, key) {
        assert all == cs + all[|cs|..];
        AscendingPrefix(cs, all[|cs|..], tenant, key);
      }
      if op.Reissue? && op.ws == ws && HistoryOf(IssuerAfter(i, tenant, key, ops[..n]), ws) != []
         && Ascending(cs, tenant, key) {
        assert ops == ops[..n] + [Reissue(ws, op.now)];
        ReissueAscendsIff(i, tenant, key, ops[..n], ws, op.now);
      }
    }
  }

  /** As long as nothing goes back, the issuer never falls behind the commands it signed. */
  lemma {:induction false} NeverBackHolds(i: Issuer, tenant: TenantId, key: CommandKey, ops: seq<IssuerOp>, ws: WorkspaceId)
    requires NeverBack(i, tenant, key, ops, ws)
    ensures ReissuesHold(i, tenant, key, ops, ws)
    ensures Holds(IssuerAfter(i, tenant, key, ops), CommandsFor(i, tenant, key, ops, ws), ws)
    ensures CommandsFor(i, tenant, key, ops, ws) != [] ==> HistoryOf(IssuerAfter(i, tenant, key, ops), ws) != []
  {
    if ops != [] {
      var n := |ops| - 1;
      NeverBackHolds(i, tenant, key, ops[..n], ws);
      HoldsStep(CommandsFor(i, tenant, key, ops[..n], ws), IssuerAfter(i, tenant, key, ops[..n]), tenant, key, ops[n], ws);
    }
  }

  lemma HoldsStep(cs: seq<SignedCommand>, mid: Issuer, tenant: TenantId, key: CommandKey, op: IssuerOp, ws: WorkspaceId)
    requires Holds(mid, cs, ws) && (cs != [] ==> HistoryOf(mid, ws) != []) && (op.ws == ws ==> NotBack(mid, op))
    ensures var all, after := cs + SignedFor(mid, tenant, key, op, ws), IssuerStep(mid, tenant, key, op);
            Holds(after, all, ws) && (all != [] ==> HistoryOf(after, ws) != [])
  {
  }

  lemma CommandsAscend(i: Issuer, tenant: TenantId, key: CommandKey, ops: seq<IssuerOp>, ws: WorkspaceId)
    requires NeverBack(i, tenant, key, ops, ws)
    ensures Ascending(CommandsFor(i, tenant, key, ops, ws), tenant, key)
    ensures NotAhead(CommandsFor(i, tenant, key, ops, ws), IssuerAfter(i, tenant, key, ops), ws)
    ensures CountersWithin(CommandsFor(i, tenant, key, ops, ws), i.counter, IssuerAfter(i, tenant, key, ops).counter)
  {
    var cs := CommandsFor(i, tenant, key, ops, ws);
    NeverBackHolds(i, tenant, key, ops, ws);
    CommandsAscendIff(i, tenant, key, ops, ws);
    CommandsAreNumbered(i, tenant, key, ops, ws);
    NothingAhead(cs, i.counter, IssuerAfter(i, tenant, key, ops), tenant, key, ws);
  }

  lemma NothingAhead(cs: seq<SignedCommand>, low: nat, i: Issuer, tenant: TenantId, key: CommandKey, ws: WorkspaceId)
    requires Ascending(cs, tenant, key) && CountersWithin(cs, low, i.counter)
    requires Holds(i, cs, ws) && (cs != [] ==> HistoryOf(i, ws) != [])
    ensures NotAhead(cs, i, ws)
  {
    assert forall k :: 0 <= k < |cs| ==> VersionOf(cs[k]) <= VersionOf(cs[|cs| - 1]);
  }

  // ----- delivery to a daemon -----

  /** Delivering the commands in order, command `k` at time `nows[k]`. */
  function DeliveredAll(c: Core, pins: Pins, cs: seq<SignedCommand>, nows: seq<nat>): Core
    requires |nows| == |cs|
  {
    if cs == [] then c
    else
      var n := |cs| - 1;
      Commanded(DeliveredAll(c, pins, cs[..n], nows[..n]), pins, cs[n], nows[n]).0
  }

  /** The daemon's answer to command `k` of the delivery. */
  function AnswerAt(c: Core, pins: Pins, cs: seq<SignedCommand>, nows: seq<nat>, k: nat): Result<(), GatewayError>
    requires |nows| == |cs| && k < |cs|
  {
    Commanded(DeliveredAll(c, pins, cs[..k], nows[..k]), pins, cs[k], nows[k]).1
  }

  /** The daemon is behind the first command. */
  ghost predicate Behind(c: Core, cs: seq<SignedCommand>)
  {
    cs != [] ==> c.highWater < CounterOf(cs[0]) && c.policy.version <= VersionOf(cs[0])
  }

  ghost predicate AllInTime(pins: Pins, cs: seq<SignedCommand>, nows: seq<nat>)
    requires |nows| == |cs|
  {
    forall k :: 0 <= k < |cs| ==> cs[k].envelope.Encoded? && InTime(pins, cs[k].envelope.envelope.issuedAt, nows[k])
  }

  lemma {:induction false} AscendingIsAccepted(c: Core, pins: Pins, cs: seq<SignedCommand>, nows: seq<nat>)
    requires |nows| == |cs| && Ascending(cs, pins.tenant, pins.key)
    requires Behind(c, cs) && AllInTime(pins, cs, nows)
    ensures forall k :: 0 <= k < |cs| ==> AnswerAt(c, pins, cs, nows, k) == Ok(())
    ensures cs != [] ==>
              && DeliveredAll(c, pins, cs, nows).highWater == CounterOf(cs[|cs| - 1])
              && DeliveredAll(c, pins, cs, nows).policy == cs[|cs| - 1].envelope.envelope.command.bundle
  {
    if cs != [] {
      var n := |cs| - 1;
      var init, before := cs[..n], nows[..n];
      AscendingIsAccepted(c, pins, init, before);
      forall k | 0 <= k < |cs| ensures AnswerAt(c, pins, cs, nows, k) == Ok(()) {
        if k < n {
          assert init[..k] == cs[..k] && before[..k] == nows[..k];
          assert AnswerAt(c, pins, init, before, k) == Ok(());
        }
      }
    }
  }

  ghost predicate AllAccepted(c: Core, pins: Pins, cs: seq<SignedCommand>, nows: seq<nat>)
    requires |nows| == |cs|
  {
    forall k :: 0 <= k < |cs| ==> AnswerAt(c, pins, cs, nows, k) == Ok(())
  }

  lemma AcceptedPrefix(c: Core, pins: Pins, cs: seq<SignedCommand>, nows: seq<nat>)
    requires |nows| == |cs| && cs != [] && AllAccepted(c, pins, cs, nows)
    ensures AllAccepted(c, pins, cs[..|cs| - 1], nows[..|cs| - 1])
  {
    var init, before := cs[..|cs| - 1], nows[..|cs| - 1];
    forall k | 0 <= k < |init| ensures AnswerAt(c, pins, init, before, k) == Ok(()) {
      assert init[..k] == cs[..k] && before[..k] == nows[..k];
      assert AnswerAt(c, pins, cs, nows, k) == Ok(());
    }
  }

  /** The daemon takes a policy command only if the version does not go back. */
  lemma AcceptedHolds(c: Core, pins: Pins, signed: SignedCommand, now: nat)
    requires PolicyCommand(signed, pins.tenant, pins.key) && Commanded(c, pins, signed, now).1 == Ok(())
    ensures c.policy.version <= VersionOf(signed)
  {
  }

  lemma {:induction false} AcceptedAscends(c: Core, pins: Pins, cs: seq<SignedCommand>, nows: seq<nat>)
    requires |nows| == |cs| && Numbered(cs, pins.tenant, pins.key)
    requires Behind(c, cs) && AllInTime(pins, cs, nows) && AllAccepted(c, pins, cs, nows)
    ensures Ascending(cs, pins.tenant, pins.key)
  {
    if cs != [] {
      var n := |cs| - 1;
      var init, before := cs[..n], nows[..n];
      AcceptedPrefix(c, pins, cs, nows);
      AcceptedAscends(c, pins, init, before);
      AscendingIsAccepted(c, pins, init, before);
      assert AnswerAt(c, pins, cs, nows, n) == Ok(());
      AcceptedHolds(DeliveredAll(c, pins, init, before), pins, cs[n], nows[n]);
      AscendingPush(init, cs[n], pins.tenant, pins.key);
      assert cs == init + [cs[n]];
    }
  }

  /**
   Over every run of the issuer: delivering a workspace's commands in order and in time to a daemon
   behind the first of them is accepted throughout if and only if every reissue held the version.
   */
  lemma IssuedPoliciesAcceptedIff(
    i: Issuer, pins: Pins, ops: seq<IssuerOp>, ws: WorkspaceId, c: Core, nows: seq<nat>)
    requires var cs := CommandsFor(i, pins.tenant, pins.key, ops, ws);
             |nows| == |cs| && Behind(c, cs) && AllInTime(pins, cs, nows)
    ensures AllAccepted(c, pins, CommandsFor(i, pins.tenant, pins.key, ops, ws), nows) <==>
            ReissuesHold(i, pins.tenant, pins.key, ops, ws)
  {
    var cs := CommandsFor(i, pins.tenant, pins.key, ops, ws);
    CommandsAreNumbered(i, pins.tenant, pins.key, ops, ws);
    CommandsAscendIff(i, pins.tenant, pins.key, ops, ws);
    if Ascending(cs, pins.tenant, pins.key) {
      AscendingIsAccepted(c, pins, cs, nows);
    }
    if AllAccepted(c, pins, cs, nows) {
      AcceptedAscends(c, pins, cs, nows);
    }
  }

  /**
   Whatever is set, authored and reissued, as long as every reissue holds the version: delivering a workspace's commands
   in order and in time to a daemon behind the first of them is always accepted (so never a
   replay or a rollback), and leaves it with the last reissued policy.
   */
  lemma IssuedPoliciesAreAccepted(
    i: Issuer, pins: Pins, ops: seq<IssuerOp>, ws: WorkspaceId, c: Core, nows: seq<nat>)
    requires ReissuesHold(i, pins.tenant, pins.key, ops, ws)
    requires var cs := CommandsFor(i, pins.tenant, pins.key, ops, ws);
             |nows| == |cs| && Behind(c, cs) && AllInTime(pins, cs, nows)
    ensures var cs := CommandsFor(i, pins.tenant, pins.key, ops, ws);
            && (forall k :: 0 <= k < |cs| ==> AnswerAt(c, pins, cs, nows, k) == Ok(()))
            && (cs != [] ==> DeliveredAll(c, pins, cs, nows).policy == cs[|cs| - 1].envelope.envelope.command.bundle)
  {
    CommandsAscendIff(i, pins.tenant, pins.key, ops, ws);
    AscendingIsAccepted(c, pins, CommandsFor(i, pins.tenant, pins.key, ops, ws), nows);
  }

  /** A final reissue, delivered with the rest, leaves the daemon at the workspace's current policy. */
  lemma LastReissueWins(
    i: Issuer, pins: Pins, ops: seq<IssuerOp>, ws: WorkspaceId, now: nat, c: Core, nows: seq<nat>)
    requires ReissuesHold(i, pins.tenant, pins.key, ops + [Reissue(ws, now)], ws)
    requires HistoryOf(IssuerAfter(i, pins.tenant, pins.key, ops), ws) != []
    requires var cs := CommandsFor(i, pins.tenant, pins.key, ops + [Reissue(ws, now)], ws);
             |nows| == |cs| && Behind(c, cs) && AllInTime(pins, cs, nows)
    ensures var cs := CommandsFor(i, pins.tenant, pins.key, ops + [Reissue(ws, now)], ws);
            var history := HistoryOf(IssuerAfter(i, pins.tenant, pins.key, ops), ws);
            DeliveredAll(c, pins, cs, nows).policy == history[|history| - 1]
  {
    LastCommand(i, pins.tenant, pins.key, ops, ws, now);
    IssuedPoliciesAreAccepted(i, pins, ops + [Reissue(ws, now)], ws, c, nows);
  }

  /** Authoring alone never goes back. */
  lemma {:induction false} AuthoringNeverGoesBack(
    i: Issuer, tenant: TenantId, key: CommandKey, ops: seq<IssuerOp>, ws: WorkspaceId)
    requires forall k :: 0 <= k < |ops| ==> !ops[k].SetTo?
    ensures NeverBack(i, tenant, key, ops, ws)
  {
    if ops != [] {
      AuthoringNeverGoesBack(i, tenant, key, ops[..|ops| - 1], ws);
    }
  }
}
