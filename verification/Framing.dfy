/**
 Length-prefixed frames on a byte stream: the encoder, the incremental decoder and the
 buffering reader, whose results do not depend on how the stream is cut into chunks.
 */
module Framing {
  import opened Common
  import opened Cipher

  const MAX_FRAME: nat := 0x10_0000

  const U32: nat := 0x1_0000_0000

  /** Serialisation of message bodies; decoding gives back what was encoded. */
  datatype Codec<!T(!new)> = Codec(ser: T -> seq<Byte>, de: seq<Byte> -> Option<T>) {
    ghost predicate Faithful() { forall m: T :: de(ser(m)) == Some(m) }
  }

  datatype FrameError = TooLarge | Malformed

  datatype Decoded<+T> = Incomplete | Frame(msg: T, consumed: nat) | Bad(error: FrameError)

  function Le32(n: nat): (r: seq<Byte>)
    requires n < U32
    ensures |r| == 4
  {
    [n % 0x100, n / 0x100 % 0x100, n / 0x1_0000 % 0x100, n / 0x100_0000]
  }

  function FromLe32(b: seq<Byte>): nat
    requires |b| == 4
  {
    b[0] as int + 0x100 * (b[1] as int) + 0x1_0000 * (b[2] as int) + 0x100_0000 * (b[3] as int)
  }

  lemma LengthRoundTrip(n: nat)
    requires n < U32
    ensures FromLe32(Le32(n)) == n
  {
    var a, b, c := n / 0x100, n / 0x1_0000, n / 0x100_0000;
    assert n == 0x100 * a + n % 0x100;
    assert a / 0x100 == b && a == 0x100 * b + a % 0x100;
    assert b / 0x100 == c && b == 0x100 * c + b % 0x100;
  }

  /** The length field is cut to 32 bits, as the cast in the encoder does. */
  function Encode<T(!new)>(c: Codec<T>, m: T): (r: seq<Byte>)
    ensures |r| == 4 + |c.ser(m)|
  {
    Le32(|c.ser(m)| % U32) + c.ser(m)
  }

  function TryDecode<T(!new)>(c: Codec<T>, buf: seq<Byte>): (r: Decoded<T>)
    ensures r.Frame? ==> 4 <= r.consumed <= |buf|
  {
    if |buf| < 4 then Incomplete
    else
      var len := FromLe32(buf[..4]);
      if len > MAX_FRAME then Bad(TooLarge)
      else if |buf| < 4 + len then Incomplete
      else
        match c.de(buf[4..4 + len])
        case Some(msg) => Frame(msg, 4 + len)
        case None => Bad(Malformed)
  }

  /** A frame comes back whole exactly when its body is within the limit. */
  lemma RoundTripIff<T(!new)>(c: Codec<T>, m: T, rest: seq<Byte>)
    requires c.Faithful()
    ensures TryDecode(c, Encode(c, m) + rest) == Frame(m, |Encode(c, m)|) <==> |c.ser(m)| <= MAX_FRAME
  {
    var body, all := c.ser(m), Encode(c, m) + rest;
    LengthRoundTrip(|body| % U32);
    assert all[..4] == Le32(|body| % U32);
    if |body| <= MAX_FRAME {
      assert all[4..4 + |body|] == body;
    }
  }

  /** Every proper prefix of a frame is still incomplete. */
  lemma PrefixIsIncomplete<T(!new)>(c: Codec<T>, m: T, k: nat)
    requires |c.ser(m)| <= MAX_FRAME && k < |Encode(c, m)|
    ensures TryDecode(c, Encode(c, m)[..k]) == Incomplete
  {
    LengthRoundTrip(|c.ser(m)|);
    if k >= 4 {
      assert Encode(c, m)[..k][..4] == Le32(|c.ser(m)|);
    }
  }

  /** More bytes never change a decision that was already possible. */
  lemma DecisionIsFinal<T(!new)>(c: Codec<T>, buf: seq<Byte>, more: seq<Byte>)
    requires TryDecode(c, buf) != Incomplete
    ensures TryDecode(c, buf + more) == TryDecode(c, buf)
  {
    assert (buf + more)[..4] == buf[..4];
    var len := FromLe32(buf[..4]);
    if len <= MAX_FRAME {
      assert (buf + more)[4..4 + len] == buf[4..4 + len];
    }
  }

  /** The length field is little-endian. */
  lemma LengthIsLittleEndian(b: seq<Byte>)
    requires |b| == 4
    ensures FromLe32(b) == b[0] as int + 256 * (b[1] as int + 256 * (b[2] as int + 256 * b[3] as int))
  {
  }

  /** The length field and what of the body is there. */
  predicate Announces(buf: seq<Byte>, len: nat) {
    |buf| >= 4 && buf[..4] == [len % 256, len / 256 % 256, len / 65536 % 256, len / 16777216 % 256] && len < U32
  }

  lemma AnnouncedLength(buf: seq<Byte>, len: nat)
    requires Announces(buf, len)
    ensures FromLe32(buf[..4]) == len
  {
    LengthRoundTrip(len);
  }

  /**
   A buffer that announces a body of `len` bytes: refused at once, however little of it is there, iff that is
   above the limit; otherwise undecided while the body is not there, and then decoded or refused as malformed.
   */
  lemma DecodesAsAnnounced<T(!new)>(c: Codec<T>, buf: seq<Byte>, len: nat)
    requires Announces(buf, len)
    ensures TryDecode(c, buf) ==
            if len > 1024 * 1024 then Bad(TooLarge)
            else if |buf| < 4 + len then Incomplete
            else if c.de(buf[4..4 + len]) == None then Bad(Malformed)
            else Frame(c.de(buf[4..4 + len]).value, 4 + len)
  {
    AnnouncedLength(buf, len);
  }

  /** A message whose body is over the limit, but fits the length field, is refused as soon as four bytes are there. */
  lemma OversizeIsRefused<T(!new)>(c: Codec<T>, m: T, k: nat)
    requires MAX_FRAME < |c.ser(m)| < U32 && 4 <= k <= |Encode(c, m)|
    ensures TryDecode(c, Encode(c, m)[..k]) == Bad(TooLarge)
  {
    var buf := Encode(c, m)[..k];
    assert buf[..4] == Le32(|c.ser(m)|);
    LengthRoundTrip(|c.ser(m)|);
  }

  // ----- the reader -----

  datatype Outcome<+T> = Message(msg: T) | End | Truncated | Broken(error: FrameError)

  /** What reading the next message of a byte string yields, and the bytes left after it. */
  function NextOf<T(!new)>(c: Codec<T>, bytes: seq<Byte>): (Outcome<T>, seq<Byte>) {
    match TryDecode(c, bytes)
    case Frame(msg, consumed) => (Message(msg), bytes[consumed..])
    case Bad(e) => (Broken(e), bytes)
    case Incomplete => (if bytes == [] then End else Truncated, bytes)
  }

  function Flat(chunks: seq<seq<Byte>>): seq<Byte> {
    if chunks == [] then [] else chunks[0] + Flat(chunks[1..])
  }

  /** A connection; `chunks` is what the stream will still deliver, piece by piece. */
  class Connection<!T(!new)> {
    const codec: Codec<T>
    var buf: seq<Byte>
    var chunks: seq<seq<Byte>>

    /** All bytes not yet turned into messages. */
    function Ahead(): seq<Byte>
      reads this
    {
      buf + Flat(chunks)
    }

    /** A stream never delivers an empty piece before its end. */
    ghost predicate Valid()
      reads this
    {
      forall i :: 0 <= i < |chunks| ==> chunks[i] != []
    }

    constructor (codec: Codec<T>, chunks: seq<seq<Byte>>)
      requires forall i :: 0 <= i < |chunks| ==> chunks[i] != []
      ensures Valid() && this.codec == codec && Ahead() == Flat(chunks)
    {
      this.codec, this.buf, this.chunks := codec, [], chunks;
      new;
      assert [] + Flat(chunks) == Flat(chunks);
    }

    /** One read from the stream; an empty result is the end. */
    method ReadBytes() returns (piece: seq<Byte>)
      requires Valid()
      modifies this`chunks
      ensures Valid() && piece + Flat(chunks) == Flat(old(chunks))
      ensures if old(chunks) == [] then piece == [] && chunks == [] else piece != [] && |chunks| < |old(chunks)|
    {
      if chunks == [] {
        return [];
      }
      piece := chunks[0];
      chunks := chunks[1..];
    }

    /** The outcome depends on the bytes ahead only, not on where they are cut. */
    method Read() returns (r: Outcome<T>)
      requires Valid()
      modifies this
      ensures Valid()
      ensures (r, Ahead()) == NextOf(codec, old(Ahead()))
    {
      while true
        invariant Valid() && Ahead() == old(Ahead())
        decreases |chunks|
      {
        var d := TryDecode(codec, buf);
        if !d.Incomplete? {
          DecisionIsFinal(codec, buf, Flat(chunks));
        }
        match d {
          case Frame(msg, consumed) =>
            assert Ahead()[consumed..] == buf[consumed..] + Flat(chunks);
            buf := buf[consumed..];
            return Message(msg);
          case Bad(e) =>
            return Broken(e);
          case Incomplete =>
        }
        ghost var before := Ahead();
        var piece := ReadBytes();
        if piece == [] {
          assert Ahead() == buf;
          return if buf == [] then End else Truncated;
        }
        assert before == buf + piece + Flat(chunks);
        buf := buf + piece;
      }
    }

    /** Reads until the stream yields something other than a message. */
    method ReadAll() returns (msgs: seq<T>, last: Outcome<T>)
      requires Valid()
      modifies this
      ensures (msgs, last) == Parse(codec, old(Ahead()))
    {
      msgs := [];
      ghost var all := Parse(codec, Ahead());
      assert [] + all.0 == all.0;
      while true
        invariant Valid()
        invariant msgs + Parse(codec, Ahead()).0 == all.0 && Parse(codec, Ahead()).1 == all.1
        decreases |Ahead()|
      {
        last := Read();
        if !last.Message? {
          assert msgs + [] == msgs;
          return;
        }
        assert msgs + ([last.msg] + Parse(codec, Ahead()).0) == msgs + [last.msg] + Parse(codec, Ahead()).0;
        msgs := msgs + [last.msg];
      }
    }
  }

  /** Messages up to the first other outcome, and that outcome. */
  function Parse<T(!new)>(c: Codec<T>, bytes: seq<Byte>): (seq<T>, Outcome<T>)
    decreases |bytes|
  {
    var (r, rest) := NextOf(c, bytes);
    if r.Message? then
      var (ms, last) := Parse(c, rest);
      ([r.msg] + ms, last)
    else ([], r)
  }

  function EncodeAll<T(!new)>(c: Codec<T>, ms: seq<T>): seq<Byte> {
    if ms == [] then [] else Encode(c, ms[0]) + EncodeAll(c, ms[1..])
  }

  /** The messages come first, whatever the tail then yields. */
  lemma {:induction false} ParseUpTo<T(!new)>(c: Codec<T>, ms: seq<T>, tail: seq<Byte>, last: Outcome<T>)
    requires c.Faithful() && forall i :: 0 <= i < |ms| ==> |c.ser(ms[i])| <= MAX_FRAME
    requires NextOf(c, tail).0 == last && !last.Message?
    ensures Parse(c, EncodeAll(c, ms) + tail) == (ms, last)
    decreases |ms|
  {
    if ms == [] {
      assert EncodeAll(c, ms) + tail == tail;
    } else {
      var rest := EncodeAll(c, ms[1..]) + tail;
      assert EncodeAll(c, ms) + tail == Encode(c, ms[0]) + rest;
      RoundTripIff(c, ms[0], rest);
      assert (Encode(c, ms[0]) + rest)[|Encode(c, ms[0])|..] == rest;
      ParseUpTo(c, ms[1..], tail, last);
      assert ms == [ms[0]] + ms[1..];
    }
  }

  lemma ParseMessages<T(!new)>(c: Codec<T>, ms: seq<T>, tail: seq<Byte>)
    requires c.Faithful() && forall i :: 0 <= i < |ms| ==> |c.ser(ms[i])| <= MAX_FRAME
    requires TryDecode(c, tail) == Incomplete
    ensures Parse(c, EncodeAll(c, ms) + tail) == (ms, if tail == [] then End else Truncated)
  {
    ParseUpTo(c, ms, tail, if tail == [] then End else Truncated);
  }

  /**
   Messages sent and then a frame cut after `k` bytes: the reader returns exactly the whole
   messages, then a clean end if nothing was cut off in the middle, and `Truncated` otherwise.
   */
  lemma StreamReadsBack<T(!new)>(c: Codec<T>, ms: seq<T>, next: T, k: nat)
    requires c.Faithful() && |c.ser(next)| <= MAX_FRAME && k < |Encode(c, next)|
    requires forall i :: 0 <= i < |ms| ==> |c.ser(ms[i])| <= MAX_FRAME
    ensures Parse(c, EncodeAll(c, ms) + Encode(c, next)[..k]) == (ms, if k == 0 then End else Truncated)
  {
    PrefixIsIncomplete(c, next, k);
    ParseMessages(c, ms, Encode(c, next)[..k]);
  }

  /** A stream that turns oversize after some messages yields those, and then the refusal. */
  lemma StreamRefusesOversize<T(!new)>(c: Codec<T>, ms: seq<T>, big: T, k: nat)
    requires c.Faithful() && MAX_FRAME < |c.ser(big)| < U32 && 4 <= k <= |Encode(c, big)|
    requires forall i :: 0 <= i < |ms| ==> |c.ser(ms[i])| <= MAX_FRAME
    ensures Parse(c, EncodeAll(c, ms) + Encode(c, big)[..k]) == (ms, Broken(TooLarge))
  {
    OversizeIsRefused(c, big, k);
    ParseUpTo(c, ms, Encode(c, big)[..k], Broken(TooLarge));
  }
}
