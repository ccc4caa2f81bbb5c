/**
 Signed gateway commands and the verifier that pins a tenant, a key, a freshness window and a
 strictly increasing counter.
 */
module Control {
  import opened Common

  const GATEWAY_PROTO_VERSION: nat := 1

  const DEFAULT_MAX_AGE_SECS: nat := 30 * 24 * 60 * 60

  const MAX_FUTURE_SKEW_SECS: nat := 5 * 60

  type TenantId = nat

  type CommandKey = nat

  /** A policy bundle; everything but the version is opaque here. */
  datatype PolicyBundle = PolicyBundle(version: nat, body: nat)

  datatype ControlReason = Offboarding | LostOrStolen | Compromise | AdminRequest

  datatype GatewayCommand =
    | UpdatePolicy(bundle: PolicyBundle)
    | LockDevice(reason: ControlReason)
    | WipeDevice(container: nat, why: ControlReason)

  datatype Envelope = Envelope(proto: nat, tenant: TenantId, counter: nat, issuedAt: nat, command: GatewayCommand)

  /** Envelope bytes: an encoded envelope, or bytes that decode to none. */
  datatype EnvelopeBytes = Encoded(envelope: Envelope) | Undecodable(id: nat)

  datatype CommandSignature = SignedWith(key: CommandKey, over: EnvelopeBytes) | ForgedSignature | BadLength

  datatype SignedCommand = SignedCommand(envelope: EnvelopeBytes, signature: CommandSignature)

  datatype ProtoError =
    | BadSignature
    | Replay(last: nat, got: nat)
    | Stale(issuedAt: nat, now: nat)
    | WrongTenant(pinned: TenantId, other: TenantId)
    | UnsupportedProto(version: nat)
    | Malformed

  function Sign(tenant: TenantId, key: CommandKey, counter: nat, issuedAt: nat, command: GatewayCommand): SignedCommand {
    var bytes := Encoded(Envelope(GATEWAY_PROTO_VERSION, tenant, counter, issuedAt, command));
    SignedCommand(bytes, SignedWith(key, bytes))
  }

  /** What a verifier is pinned to. */
  datatype Pins = Pins(tenant: TenantId, key: CommandKey, maxAge: nat)

  function SaturatingSub(a: nat, b: nat): nat { if a < b then 0 else a - b }

  predicate InTime(pins: Pins, issuedAt: nat, now: nat) {
    SaturatingSub(now, issuedAt) <= pins.maxAge && SaturatingSub(issuedAt, now) <= MAX_FUTURE_SKEW_SECS
  }

  /** The verdict on a command, given the highest counter accepted so far. */
  function CheckCommand(pins: Pins, highWater: nat, signed: SignedCommand, now: nat): Result<Envelope, ProtoError> {
    if signed.signature.BadLength? then Err(Malformed)
    else if signed.signature != SignedWith(pins.key, signed.envelope) then Err(BadSignature)
    else if signed.envelope.Undecodable? then Err(Malformed)
    else
      var env := signed.envelope.envelope;
      if env.proto != GATEWAY_PROTO_VERSION then Err(UnsupportedProto(env.proto))
      else if env.tenant != pins.tenant then Err(WrongTenant(pins.tenant, env.tenant))
      else if !InTime(pins, env.issuedAt, now) then Err(Stale(env.issuedAt, now))
      else if env.counter <= highWater then Err(Replay(highWater, env.counter))
      else Ok(env)
  }

  // ----- what a verdict means -----

  /** Issued at most `maxAge` ago and at most the allowed skew ahead. */
  predicate Timely(pins: Pins, issuedAt: int, now: int) {
    now - issuedAt <= pins.maxAge && issuedAt - now <= MAX_FUTURE_SKEW_SECS
  }

  /** What the pinned key signed for the pinned tenant, under this counter and at this time. */
  predicate IssuedAs(pins: Pins, signed: SignedCommand, counter: nat, issuedAt: nat, command: GatewayCommand) {
    signed == Sign(pins.tenant, pins.key, counter, issuedAt, command)
  }

  /** The command was signed for this verifier, lately and under a counter above the mark. */
  ghost predicate Authentic(pins: Pins, highWater: nat, signed: SignedCommand, now: nat, command: GatewayCommand) {
    exists counter: nat, issuedAt: nat ::
      IssuedAs(pins, signed, counter, issuedAt, command) && counter > highWater && Timely(pins, issuedAt, now)
  }

  /** The signature is one that the pinned key made over exactly these bytes. */
  predicate KeySigned(pins: Pins, signed: SignedCommand) { signed.signature == SignedWith(pins.key, signed.envelope) }

  /** A command is accepted if and only if it is authentic. */
  lemma AcceptedIffAuthentic(pins: Pins, highWater: nat, signed: SignedCommand, now: nat, command: GatewayCommand)
    ensures var r := CheckCommand(pins, highWater, signed, now);
            r.Ok? && r.value.command == command <==> Authentic(pins, highWater, signed, now, command)
    ensures var r := CheckCommand(pins, highWater, signed, now);
            r.Ok? ==> IssuedAs(pins, signed, r.value.counter, r.value.issuedAt, r.value.command)
                      && r.value.counter > highWater && Timely(pins, r.value.issuedAt, now)
  {
    if signed.envelope.Encoded? {
      var env := signed.envelope.envelope;
      if CheckCommand(pins, highWater, signed, now).Ok? {
        assert IssuedAs(pins, signed, env.counter, env.issuedAt, env.command);
      }
    }
  }

  /** Signed by the key over an envelope of the current protocol for this tenant. */
  predicate ForUs(pins: Pins, signed: SignedCommand) {
    && KeySigned(pins, signed) && signed.envelope.Encoded?
    && signed.envelope.envelope.proto == 1 && signed.envelope.envelope.tenant == pins.tenant
  }

  /** Which condition fails for each error; together with acceptance these are all cases. */
  lemma RefusalsMean(pins: Pins, highWater: nat, signed: SignedCommand, now: nat)
    ensures var r := CheckCommand(pins, highWater, signed, now);
            && (r == Err(BadSignature) <==> !signed.signature.BadLength? && !KeySigned(pins, signed))
            && (r == Err(Malformed) <==>
                  signed.signature.BadLength? || (KeySigned(pins, signed) && signed.envelope.Undecodable?))
            && (forall v: nat :: r == Err(UnsupportedProto(v)) <==>
                  KeySigned(pins, signed) && signed.envelope.Encoded? && v == signed.envelope.envelope.proto && v != 1)
            && (forall a: nat, b: nat :: r == Err(WrongTenant(a, b)) <==>
                  KeySigned(pins, signed) && signed.envelope.Encoded? && signed.envelope.envelope.proto == 1
                  && a == pins.tenant && b == signed.envelope.envelope.tenant && a != b)
            && (forall a: nat, b: nat :: r == Err(Stale(a, b)) <==>
                  ForUs(pins, signed) && a == signed.envelope.envelope.issuedAt && b == now && !Timely(pins, a, now))
            && (forall a: nat, b: nat :: r == Err(Replay(a, b)) <==>
                  ForUs(pins, signed) && Timely(pins, signed.envelope.envelope.issuedAt, now)
                  && a == highWater && b == signed.envelope.envelope.counter && b <= a)
  {
  }

  class GatewayVerifier {
    const pins: Pins
    var highWater: nat

    constructor (tenant: TenantId, key: CommandKey)
      ensures pins == Pins(tenant, key, DEFAULT_MAX_AGE_SECS) && highWater == 0
    {
      pins, highWater := Pins(tenant, key, DEFAULT_MAX_AGE_SECS), 0;
    }

    constructor WithHighWater(pins: Pins, counter: nat)
      ensures this.pins == pins && highWater == counter
    {
      this.pins, highWater := pins, counter;
    }

    /** Accepts a genuine, fresh command with a new counter, and moves the mark up to it. */
    method Verify(signed: SignedCommand, now: nat) returns (r: Result<GatewayCommand, ProtoError>)
      modifies this
      ensures match CheckCommand(pins, old(highWater), signed, now)
              case Ok(env) => r == Ok(env.command) && highWater == env.counter > old(highWater)
              case Err(e) => r == Err(e) && highWater == old(highWater)
      ensures forall command :: r == Ok(command) <==> Authentic(pins, old(highWater), signed, now, command)
      ensures r.Ok? ==> IssuedAs(pins, signed, highWater, signed.envelope.envelope.issuedAt, r.value)
    {
      forall command
        ensures var c := CheckCommand(pins, highWater, signed, now);
                c.Ok? && c.value.command == command <==> Authentic(pins, highWater, signed, now, command)
      {
        AcceptedIffAuthentic(pins, highWater, signed, now, command);
      }
      if signed.signature.BadLength? {
        return Err(Malformed);
      }
      if signed.signature != SignedWith(pins.key, signed.envelope) {
        return Err(BadSignature);
      }
      if signed.envelope.Undecodable? {
        return Err(Malformed);
      }
      var env := signed.envelope.envelope;
      if env.proto != GATEWAY_PROTO_VERSION {
        return Err(UnsupportedProto(env.proto));
      }
      if env.tenant != pins.tenant {
        return Err(WrongTenant(pins.tenant, env.tenant));
      }
      var age := SaturatingSub(now, env.issuedAt);
      var future := SaturatingSub(env.issuedAt, now);
      if age > pins.maxAge || future > MAX_FUTURE_SKEW_SECS {
        return Err(Stale(env.issuedAt, now));
      }
      if env.counter <= highWater {
        return Err(Replay(highWater, env.counter));
      }
      highWater := env.counter;
      return Ok(env.command);
    }
  }
}
