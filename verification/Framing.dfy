/**
 The length-prefixed framing shared by the sockets and stream endpoints.

 Every message travels as a four byte length and the payload. The decoder keeps one buffer for all the
 payloads of a connection: it resizes it to the declared length and reads over its beginning.
 */
module Framing {
  import opened Bytes

  // Header and frame ------------------------------------------------------------------------------------

  /** The value of a complete four byte header in the wire order `wire`. */
  function Declared(s: seq<Byte>, wire: Endian): (n: nat)
    requires |s| >= 4
    ensures n < U32_LIMIT
  {
    Pow256Of4();
    HostBytesOfValue(s[..4], wire);
    HostValue(s[..4], wire)
  }

  /** The conversion of a payload length to `unsigned int`. */
  function Truncated(length: nat): nat
  {
    length % U32_LIMIT
  }

  /** What a sender puts on the wire for one payload: the truncated length, then that many bytes. */
  function Encode(payload: seq<Byte>, wire: Endian): seq<Byte>
  {
    HostBytes(Truncated(|payload|), 4, wire) + payload[..Truncated(|payload|)]
  }

  function EncodeAll(payloads: seq<seq<Byte>>, wire: Endian): seq<Byte>
  {
    if payloads == [] then [] else Encode(payloads[0], wire) + EncodeAll(payloads[1..], wire)
  }

  // The frames of a byte string: the reference the decoders are compared with ---------------------------

  datatype Parsed = Parsed(frames: seq<seq<Byte>>, rest: seq<Byte>)

  predicate HasFrame(s: seq<Byte>, wire: Endian)
  {
    |s| >= 4 && |s| - 4 >= Declared(s, wire)
  }

  /** The whole frames at the head of `s`, and the incomplete rest. */
  function Parse(s: seq<Byte>, wire: Endian): Parsed
    decreases |s|
  {
    if !HasFrame(s, wire) then
      Parsed([], s)
    else
      var n := Declared(s, wire);
      var tail := Parse(s[4 + n..], wire);
      Parsed([s[4..4 + n]] + tail.frames, tail.rest)
  }

  predicate Fits(payloads: seq<seq<Byte>>)
  {
    forall i :: 0 <= i < |payloads| ==> |payloads[i]| < U32_LIMIT
  }

  lemma DeclaredOfHeader(n: nat, tail: seq<Byte>, wire: Endian)
    requires n < U32_LIMIT
    ensures Declared(HostBytes(n, 4, wire) + tail, wire) == n
  {
    Pow256Of4();
    HostRoundTrip(n, 4, wire);
    assert (HostBytes(n, 4, wire) + tail)[..4] == HostBytes(n, 4, wire);
  }

  /** The number four bytes stand for, the most significant last. */
  function Number(a: int, b: int, c: int, d: int): int
  {
    a + 0x100 * b + 0x1_0000 * c + 0x100_0000 * d
  }

  /** The value of four bytes, the most significant first or last. */
  lemma DeclaredValue(s: seq<Byte>)
    requires |s| >= 4
    ensures Declared(s, Big) == Number(s[3], s[2], s[1], s[0])
    ensures Declared(s, Little) == Number(s[0], s[1], s[2], s[3])
  {
    FourDigits(s[..4]);
    FourDigits(Reversed(s[..4]));
  }

  lemma FourDigits(d: seq<Byte>)
    requires |d| == 4
    ensures LittleValue(d) == Number(d[0], d[1], d[2], d[3])
  {
    assert d[1..][1..] == d[2..] && d[2..][1..] == d[3..] && d[3..][1..] == [];
    assert LittleValue(d[3..]) == d[3];
    assert LittleValue(d[2..]) == d[2] + 0x100 * LittleValue(d[3..]);
    assert LittleValue(d[1..]) == d[1] + 0x100 * LittleValue(d[2..]);
  }

  /**
   What is on the wire for a payload: its length, cut to 32 bits, in four bytes, the most significant first, then that
   many of its own bytes.
   */
  predicate OnWire(wire: seq<Byte>, payload: seq<Byte>)
  {
    var n := |payload| % 0x1_0000_0000;
    && |wire| == 4 + n && wire[4..] == payload[..n]
    && wire[0] == n / 0x100_0000 && wire[1] == n / 0x1_0000 % 256 && wire[2] == n / 0x100 % 256 && wire[3] == n % 256
  }

  lemma EncodedBytes(payload: seq<Byte>)
    ensures OnWire(Encode(payload, Big), payload)
  {
    var n := Truncated(|payload|);
    FourBytes(n);
    hide HostBytes;
    var wire, header := Encode(payload, Big), HostBytes(n, 4, Big);
    assert wire[0] == header[0] && wire[1] == header[1] && wire[2] == header[2] && wire[3] == header[3];
  }

  lemma FourBytes(n: nat)
    ensures var b := HostBytes(n, 4, Big);
      && b[0] == n / 0x100_0000 % 256 && b[1] == n / 0x1_0000 % 256 && b[2] == n / 0x100 % 256 && b[3] == n % 256
  {
    FourPowers();
    HostByteAt(n, 4, 0);
    HostByteAt(n, 4, 1);
    HostByteAt(n, 4, 2);
    HostByteAt(n, 4, 3);
    hide HostBytes, Pow256;
  }

  lemma FourPowers()
    ensures Pow256(0) == 1 && Pow256(1) == 0x100 && Pow256(2) == 0x1_0000 && Pow256(3) == 0x100_0000
  {
  }

  /** A frame at the head of a string is the first of its frames. */
  lemma ParseFrame(payload: seq<Byte>, tail: seq<Byte>, wire: Endian)
    requires |payload| < U32_LIMIT
    ensures var p := Parse(tail, wire);
      Parse(Encode(payload, wire) + tail, wire) == Parsed([payload] + p.frames, p.rest)
  {
    hide HostBytes, Declared;
    var s := Encode(payload, wire) + tail;
    assert s == HostBytes(|payload|, 4, wire) + (payload + tail);
    DeclaredOfHeader(|payload|, payload + tail, wire);
    assert s[4..4 + |payload|] == payload;
    assert s[4 + |payload|..] == tail;
  }

  lemma ParseStep(s: seq<Byte>, wire: Endian)
    requires HasFrame(s, wire)
    ensures var n := Declared(s, wire); var tail := Parse(s[4 + n..], wire);
      Parse(s, wire) == Parsed([s[4..4 + n]] + tail.frames, tail.rest)
  {
  }

  lemma ParseOfRest(rest: seq<Byte>, wire: Endian)
    requires !HasFrame(rest, wire)
    ensures Parse(rest, wire) == Parsed([], rest)
  {
  }

  /** Parsing undoes encoding, whatever incomplete rest follows. */
  lemma {:induction false} ParseOfEncoded(payloads: seq<seq<Byte>>, rest: seq<Byte>, wire: Endian)
    requires Fits(payloads)
    requires !HasFrame(rest, wire)
    ensures Parse(EncodeAll(payloads, wire) + rest, wire) == Parsed(payloads, rest)
  {
    hide Encode, Parse;
    if payloads == [] {
      ParseOfRest(rest, wire);
      assert EncodeAll(payloads, wire) + rest == rest;
    } else {
      ParseOfEncoded(payloads[1..], rest, wire);
      ParseFrame(payloads[0], EncodeAll(payloads[1..], wire) + rest, wire);
      assert EncodeAll(payloads, wire) + rest
          == Encode(payloads[0], wire) + (EncodeAll(payloads[1..], wire) + rest);
    }
  }

  lemma EncodeOfFrame(s: seq<Byte>, wire: Endian)
    requires HasFrame(s, wire)
    ensures Encode(s[4..4 + Declared(s, wire)], wire) == s[..4 + Declared(s, wire)]
  {
    hide HostBytes;
    HostBytesOfValue(s[..4], wire);
    assert Truncated(Declared(s, wire)) == Declared(s, wire);
  }

  lemma EncodeAllCons(frame: seq<Byte>, frames: seq<seq<Byte>>, wire: Endian)
    ensures EncodeAll([frame] + frames, wire) == Encode(frame, wire) + EncodeAll(frames, wire)
  {
    assert ([frame] + frames)[1..] == frames;
  }

  lemma EncodeAllOne(payload: seq<Byte>, wire: Endian)
    ensures EncodeAll([payload], wire) == Encode(payload, wire)
  {
    hide Encode;
    assert EncodeAll([payload], wire) == Encode(payload, wire) + EncodeAll([payload][1..], wire);
  }

  lemma EncodeAllStep(payloads: seq<seq<Byte>>, wire: Endian)
    requires Fits(payloads) && EncodeAll(payloads, wire) != []
    ensures payloads != []
    ensures EncodeAll(payloads, wire)
         == HostBytes(|payloads[0]|, 4, wire) + (payloads[0] + EncodeAll(payloads[1..], wire))
  {
    hide HostBytes;
  }

  lemma EncodeAllNone(s: seq<Byte>, wire: Endian)
    ensures EncodeAll([], wire) + s == s
  {
  }

  /** Encoding undoes parsing: no byte is lost or invented, for any byte string. */
  lemma {:induction false} EncodedOfParsed(s: seq<Byte>, wire: Endian)
    ensures Fits(Parse(s, wire).frames)
    ensures !HasFrame(Parse(s, wire).rest, wire)
    ensures EncodeAll(Parse(s, wire).frames, wire) + Parse(s, wire).rest == s
    decreases |s|
  {
    hide Encode, Declared, EncodeAll, Parse;
    if HasFrame(s, wire) {
      var n := Declared(s, wire);
      ParseStep(s, wire);
      EncodedOfParsed(s[4 + n..], wire);
      EncodeOfFrame(s, wire);
      EncodeAllCons(s[4..4 + n], Parse(s[4 + n..], wire).frames, wire);
      assert s == s[..4 + n] + s[4 + n..];
    } else {
      ParseOfRest(s, wire);
      EncodeAllNone(s, wire);
    }
  }

  lemma {:induction false} EncodeAllAppend(a: seq<seq<Byte>>, b: seq<seq<Byte>>, wire: Endian)
    ensures EncodeAll(a + b, wire) == EncodeAll(a, wire) + EncodeAll(b, wire)
  {
    hide Encode;
    if a == [] {
      assert a + b == b;
    } else {
      EncodeAllAppend(a[1..], b, wire);
      assert (a + b)[1..] == a[1..] + b;
    }
  }

  /** Bytes that arrive later only add frames: those already complete stay as they are. */
  lemma ParseGrows(s: seq<Byte>, more: seq<Byte>, wire: Endian)
    ensures var p := Parse(s, wire); var q := Parse(p.rest + more, wire);
      Parse(s + more, wire) == Parsed(p.frames + q.frames, q.rest)
  {
    hide HostBytes, Truncated, Parse, EncodeAll, HasFrame;
    var p := Parse(s, wire);
    var q := Parse(p.rest + more, wire);
    EncodedOfParsed(s, wire);
    EncodedOfParsed(p.rest + more, wire);
    EncodeAllAppend(p.frames, q.frames, wire);
    assert s + more == EncodeAll(p.frames, wire) + (p.rest + more);
    assert s + more == EncodeAll(p.frames + q.frames, wire) + q.rest;
    ParseOfEncoded(p.frames + q.frames, q.rest, wire);
  }

  /** A stream that starts with encoded payloads has those payloads as its first frames. */
  lemma FramesOfPrefix(payloads: seq<seq<Byte>>, more: seq<Byte>, wire: Endian)
    requires Fits(payloads)
    ensures var p := Parse(EncodeAll(payloads, wire) + more, wire);
      p == Parsed(payloads + Parse(more, wire).frames, Parse(more, wire).rest)
  {
    ParseOfEncoded(payloads, [], wire);
    assert EncodeAll(payloads, wire) + [] == EncodeAll(payloads, wire);
    ParseGrows(EncodeAll(payloads, wire), more, wire);
    assert [] + more == more;
  }

  // The decoder -----------------------------------------------------------------------------------------

  /** `vector::resize`: keeps the leading elements, fills with zeros. */
  function Resized(buffer: seq<Byte>, n: nat): (r: seq<Byte>)
    ensures |r| == n
  {
    if n <= |buffer| then buffer[..n] else buffer + seq(n - |buffer|, _ => 0)
  }

  /** The buffer after the received bytes are written over its beginning. */
  function Overwritten(buffer: seq<Byte>, received: seq<Byte>): seq<Byte>
    requires |received| <= |buffer|
  {
    received + buffer[|received|..]
  }

  /** The messages the decoder delivers for the bytes `s`, its buffer holding `buffer` beforehand. */
  function Delivered(s: seq<Byte>, buffer: seq<Byte>, wire: Endian): seq<seq<Byte>>
    decreases |s|
  {
    if |s| < 4 then
      []
    else
      var n := Declared(s, wire);
      var got := Min(n, |s| - 4);
      var message := Overwritten(Resized(buffer, n), s[4..4 + got]);
      [message] + Delivered(s[4 + got..], message, wire)
  }

  function LastOr(frames: seq<seq<Byte>>, otherwise: seq<Byte>): seq<Byte>
  {
    if frames == [] then otherwise else frames[|frames| - 1]
  }

  /**
   What an incomplete rest adds: nothing while the header is short, otherwise one message of the declared
   length, the received bytes followed by what the resized buffer held behind them.
   */
  function TruncatedMessages(rest: seq<Byte>, buffer: seq<Byte>, wire: Endian): seq<seq<Byte>>
    requires !HasFrame(rest, wire)
  {
    if |rest| < 4 then [] else [Overwritten(Resized(buffer, Declared(rest, wire)), rest[4..])]
  }

  /** A resized buffer, byte by byte: what it held, then zeros. */
  lemma ResizedAt(buffer: seq<Byte>, n: nat, i: nat)
    requires i < n
    ensures Resized(buffer, n)[i] == if i < |buffer| then buffer[i] else 0
  {
  }

  /** The message of a cut frame, byte by byte: what arrived, what the buffer held behind it, then zeros. */
  lemma TruncatedBytes(rest: seq<Byte>, buffer: seq<Byte>, wire: Endian)
    requires !HasFrame(rest, wire) && |rest| >= 4
    ensures var out := TruncatedMessages(rest, buffer, wire);
      && |out| == 1 && |out[0]| == Declared(rest, wire)
      && forall i :: 0 <= i < |out[0]| ==>
           out[0][i] == if 4 + i < |rest| then rest[4 + i] else if i < |buffer| then buffer[i] else 0
  {
    hide Declared, Resized;
    var n := Declared(rest, wire);
    forall i | 0 <= i < n
      ensures Resized(buffer, n)[i] == if i < |buffer| then buffer[i] else 0
    {
      ResizedAt(buffer, n, i);
    }
  }

  lemma DeliveredOfRest(rest: seq<Byte>, buffer: seq<Byte>, wire: Endian)
    requires !HasFrame(rest, wire)
    ensures Delivered(rest, buffer, wire) == TruncatedMessages(rest, buffer, wire)
  {
    hide Declared, Delivered;
    if |rest| < 4 {
      DeliveredNothing(rest, buffer, wire);
    } else {
      DeliveredStep(rest, buffer, wire);
      var got := |rest| - 4;
      var message := Overwritten(Resized(buffer, Declared(rest, wire)), rest[4..4 + got]);
      assert rest[4..4 + got] == rest[4..];
      DeliveredNothing(rest[4 + got..], message, wire);
    }
  }

  /** The decoder on any byte string: its whole frames, then the remainder of a cut frame, if any. */
  lemma {:induction false} DeliveredExactly(s: seq<Byte>, buffer: seq<Byte>, wire: Endian)
    ensures var p := Parse(s, wire);
      && !HasFrame(p.rest, wire)
      && Delivered(s, buffer, wire) == p.frames + TruncatedMessages(p.rest, LastOr(p.frames, buffer), wire)
    decreases |s|
  {
    hide Declared, Parse, Delivered;
    if HasFrame(s, wire) {
      var n := Declared(s, wire);
      ParseStep(s, wire);
      DeliveredStep(s, buffer, wire);
      var frame, frames := s[4..4 + n], Parse(s[4 + n..], wire).frames;
      assert Min(n, |s| - 4) == n && Overwritten(Resized(buffer, n), frame) == frame;
      DeliveredExactly(s[4 + n..], frame, wire);
      assert LastOr([frame] + frames, buffer) == LastOr(frames, frame);
    } else {
      ParseOfRest(s, wire);
      DeliveredOfRest(s, buffer, wire);
      assert [] + TruncatedMessages(s, buffer, wire) == TruncatedMessages(s, buffer, wire);
    }
  }

  /** The round trip: decoding the encodings of payloads gives exactly the payloads. */
  lemma DecodeOfEncoded(payloads: seq<seq<Byte>>, wire: Endian)
    requires Fits(payloads)
    ensures Delivered(EncodeAll(payloads, wire), [], wire) == payloads
  {
    ParseOfEncoded(payloads, [], wire);
    assert EncodeAll(payloads, wire) + [] == EncodeAll(payloads, wire);
    DeliveredExactly(EncodeAll(payloads, wire), [], wire);
  }

  /** One payload survives the trip exactly when its length fits the four byte header. */
  lemma PayloadSurvivesExactly(payload: seq<Byte>, wire: Endian)
    ensures Delivered(Encode(payload, wire), [], wire) == [payload] <==> |payload| < U32_LIMIT
  {
    hide HostBytes, Delivered;
    var sent := payload[..Truncated(|payload|)];
    assert Encode(sent, wire) == Encode(payload, wire);
    DecodeOfEncoded([sent], wire);
    EncodeAllCons(sent, [], wire);
    assert [sent] + [] == [sent] && Encode(sent, wire) + [] == Encode(sent, wire);
    assert [sent][0] == sent && [payload][0] == payload;
    if |payload| < U32_LIMIT {
      assert sent == payload;
    }
  }

  /**
   A stream of encoded payloads cut after `k` bytes: the decoder delivers the first payloads, and at most
   one message more, whose length is that of the payload that was cut and whose received part is its
   beginning.
   */
  lemma CutStream(payloads: seq<seq<Byte>>, k: nat, wire: Endian) returns (whole: nat)
    requires Fits(payloads)
    requires k <= |EncodeAll(payloads, wire)|
    ensures whole <= |payloads|
    ensures var cut := EncodeAll(payloads, wire)[..k]; var out := Delivered(cut, [], wire);
      && |EncodeAll(payloads[..whole], wire)| <= k
      && payloads[..whole] <= out
      && (|out| == whole <==> k < |EncodeAll(payloads[..whole], wire)| + 4)
      && (|out| != whole ==>
            && whole < |payloads| && |out| == whole + 1
            && |out[whole]| == |payloads[whole]|
            && var got := k - |EncodeAll(payloads[..whole], wire)| - 4;
               && got < |payloads[whole]|
               && out[whole][..got] == payloads[whole][..got]
               && forall i :: got <= i < |payloads[whole]| ==>
                    var last := LastOr(payloads[..whole], []);
                    out[whole][i] == if i < |last| then last[i] else 0)
  {
    hide HostBytes, Truncated, Parse, EncodeAll, Delivered, TruncatedMessages, Resized;
    var cut := EncodeAll(payloads, wire)[..k];
    var p := Parse(cut, wire);
    DeliveredExactly(cut, [], wire);
    FramesOfCut(payloads, k, wire);
    whole := |p.frames|;
    assert payloads[..whole] == p.frames;
    if |p.rest| >= 4 {
      var last := LastOr(p.frames, []);
      CutMessage(payloads[whole..], p.rest, last, wire);
      assert payloads[whole..][0] == payloads[whole];
    } else {
      ShortRest(p.rest, LastOr(p.frames, []), wire);
      assert p.frames + [] == p.frames;
    }
  }

  /** The frames of a cut stream are the first payloads; the rest begins the encoding of the others. */
  lemma FramesOfCut(payloads: seq<seq<Byte>>, k: nat, wire: Endian)
    requires Fits(payloads)
    requires k <= |EncodeAll(payloads, wire)|
    ensures var p := Parse(EncodeAll(payloads, wire)[..k], wire);
      && !HasFrame(p.rest, wire) && p.frames <= payloads
      && |EncodeAll(p.frames, wire)| + |p.rest| == k
      && p.rest <= EncodeAll(payloads[|p.frames|..], wire)
  {
    hide HostBytes, Truncated, Parse, EncodeAll, Declared;
    var all := EncodeAll(payloads, wire);
    var cut := all[..k];
    var p := Parse(cut, wire);
    EncodedOfParsed(cut, wire);
    ParseGrows(cut, all[k..], wire);
    assert all == cut + all[k..] && all + [] == all;
    ParseOfEncoded(payloads, [], wire);
    var whole := |p.frames|;
    assert payloads == p.frames + payloads[whole..];
    EncodeAllAppend(p.frames, payloads[whole..], wire);
    assert all == EncodeAll(p.frames, wire) + (p.rest + all[k..]);
    assert all[|EncodeAll(p.frames, wire)|..] == p.rest + all[k..];
  }

  lemma ShortRest(rest: seq<Byte>, buffer: seq<Byte>, wire: Endian)
    requires |rest| < 4 && !HasFrame(rest, wire)
    ensures TruncatedMessages(rest, buffer, wire) == []
  {
  }

  /** The message an incomplete rest with a whole header adds. */
  lemma CutMessage(payloads: seq<seq<Byte>>, rest: seq<Byte>, buffer: seq<Byte>, wire: Endian)
    requires Fits(payloads) && rest <= EncodeAll(payloads, wire)
    requires |rest| >= 4 && !HasFrame(rest, wire)
    ensures payloads != [] && |rest| - 4 < |payloads[0]|
    ensures var out, got := TruncatedMessages(rest, buffer, wire), |rest| - 4;
      && |out| == 1 && |out[0]| == |payloads[0]| && out[0][..got] == payloads[0][..got]
      && forall i :: got <= i < |payloads[0]| ==> out[0][i] == if i < |buffer| then buffer[i] else 0
  {
    hide EncodeAll, Resized, Declared, TruncatedMessages;
    var all := EncodeAll(payloads, wire);
    assert all == rest + all[|rest|..];
    TruncatedBytes(rest, buffer, wire);
    var out := TruncatedMessages(rest, buffer, wire);
    assert forall i :: 0 <= i < |rest| - 4 ==> rest[4..][i] == rest[4 + i];
    CutFrame(payloads, rest, all[|rest|..], wire);
  }

  /** An incomplete rest with a whole header is the beginning of the next payload's frame. */
  lemma CutFrame(payloads: seq<seq<Byte>>, rest: seq<Byte>, more: seq<Byte>, wire: Endian)
    requires Fits(payloads)
    requires EncodeAll(payloads, wire) == rest + more
    requires |rest| >= 4 && !HasFrame(rest, wire)
    ensures payloads != [] && Declared(rest, wire) == |payloads[0]|
    ensures |rest| - 4 < |payloads[0]| && rest[4..] == payloads[0][..|rest| - 4]
  {
    hide HostBytes, Declared, EncodeAll;
    EncodeAllStep(payloads, wire);
    var p := payloads[0];
    var tail := p + EncodeAll(payloads[1..], wire);
    DeclaredOfHeader(|p|, tail, wire);
    SameHeader(rest, more, HostBytes(|p|, 4, wire), tail, wire);
    assert rest[4..] == (rest + more)[4..|rest|] == tail[..|rest| - 4];
  }

  lemma SameHeader(rest: seq<Byte>, more: seq<Byte>, header: seq<Byte>, tail: seq<Byte>, wire: Endian)
    requires |rest| >= 4 && |header| == 4 && rest + more == header + tail
    ensures rest[..4] == header
    ensures Declared(rest, wire) == Declared(header + tail, wire)
  {
    assert rest[..4] == (rest + more)[..4] == (header + tail)[..4];
  }

  // The imperative encoder and decoder ------------------------------------------------------------------

  datatype Event = Message(payload: seq<Byte>) | Disconnected

  function Messages(payloads: seq<seq<Byte>>): (r: seq<Event>)
    ensures |r| == |payloads|
  {
    seq(|payloads|, i requires 0 <= i < |payloads| => Message(payloads[i]))
  }

  /** An inbound channel: what the library has called on it. */
  class Channel {
    var events: seq<Event>

    constructor ()
      ensures events == []
    {
      events := [];
    }

    method Receive(payload: seq<Byte>)
      modifies this
      ensures events == old(events) + [Message(payload)]
    {
      events := events + [Message(payload)];
    }

    method Disconnect()
      modifies this
      ensures events == old(events) + [Disconnected]
    {
      events := events + [Disconnected];
    }
  }

  /** One direction of a connection: the bytes sent and not yet received. */
  class Wire {
    var pending: seq<Byte>

    constructor ()
      ensures pending == []
    {
      pending := [];
    }

    method Send(data: seq<Byte>)
      modifies this
      ensures pending == old(pending) + data
    {
      pending := pending + data;
    }

    /** A waiting read: short only where the stream has ended. */
    method Read(n: nat) returns (got: seq<Byte>)
      modifies this
      ensures got == old(pending)[..Min(n, |old(pending)|)]
      ensures pending == old(pending)[Min(n, |old(pending)|)..]
    {
      var k := Min(n, |pending|);
      got := pending[..k];
      pending := pending[k..];
    }
  }

  /** `client_session::message` of the sockets client: the reordered length, then the payload. */
  method SendMessage(host: Endian, socket: Wire, payload: seq<Byte>)
    modifies socket
    ensures socket.pending == old(socket.pending) + Encode(payload, Big)
    ensures |socket.pending| >= old(|socket.pending|) && OnWire(socket.pending[old(|socket.pending|)..], payload)
  {
    EncodedBytes(payload);
    hide OnWire, HostBytes, Reordered;
    var length := Truncated(|payload|);
    var size := new ByteRepresentation(host, 4);
    size.SetValue(length);
    size.Reorder();
    ReorderedIsBigEndian(length, 4, host);
    socket.Send(size.bytes[..]);
    socket.Send(payload[..length]);
    assert socket.pending[old(|socket.pending|)..] == Encode(payload, Big);
  }

  /** The wire order of a stream whose headers are, or are not, reordered by a host of the given kind. */
  function WireOrder(host: Endian, reorder: bool): Endian
  {
    if reorder then Big else host
  }

  /** The value the host reads from a header it received, reordered or not, is the declared length. */
  lemma HeaderRead(header: seq<Byte>, tail: seq<Byte>, host: Endian, reorder: bool)
    requires |header| == 4
    ensures HostValue(if reorder then Reordered(header, host) else header, host)
         == Declared(header + tail, WireOrder(host, reorder))
  {
    hide LittleValue;
    ReversedTwice(header);
    assert (header + tail)[..4] == header;
  }

  lemma ReadSplit(s: seq<Byte>, n: nat)
    ensures var k := Min(n, |s|); s[..k] + s[k..] == s
  {
  }

  lemma ReadBehind(header: seq<Byte>, s: seq<Byte>, k: nat)
    requires k <= |s|
    ensures (header + s)[|header|..|header| + k] == s[..k]
    ensures (header + s)[|header| + k..] == s[k..]
  {
  }

  lemma DeliveredStep(s: seq<Byte>, buffer: seq<Byte>, wire: Endian)
    requires |s| >= 4
    ensures var got := Min(Declared(s, wire), |s| - 4);
      var message := Overwritten(Resized(buffer, Declared(s, wire)), s[4..4 + got]);
      Delivered(s, buffer, wire) == [message] + Delivered(s[4 + got..], message, wire)
  {
  }

  lemma DeliveredNothing(s: seq<Byte>, buffer: seq<Byte>, wire: Endian)
    requires |s| < 4
    ensures Delivered(s, buffer, wire) == []
  {
  }

  /** The size in a header, whatever follows it. */
  method ReadSize(size: ByteRepresentation, header: seq<Byte>, reorder: bool, ghost tail: seq<Byte>) returns (n: nat)
    requires |header| == size.bytes.Length == 4
    modifies size.bytes
    ensures n == Declared(header + tail, WireOrder(size.host, reorder))
  {
    hide HostValue, Reordered, Declared, WireOrder;
    size.Receive(header);
    assert size.bytes[..] == header;
    if reorder {
      size.Reorder();
    }
    HeaderRead(header, tail, size.host, reorder);
    n := HostValue(size.bytes[..], size.host);
  }

  /** `read_messages`: reads headers and payloads from the socket until a header comes short. */
  method ReadMessages(host: Endian, reorder: bool, socket: Wire, inbound: Channel)
    modifies socket, inbound
    ensures socket.pending == []
    ensures inbound.events
         == old(inbound.events) + Messages(Delivered(old(socket.pending), [], WireOrder(host, reorder)))
  {
    hide Declared, WireOrder, Delivered, Resized, Overwritten;
    ghost var wire := WireOrder(host, reorder);
    ghost var done: seq<seq<Byte>> := [];
    var buffer: seq<Byte> := [];
    var size := new ByteRepresentation(host, 4);
    var header := socket.Read(4);
    ReadSplit(old(socket.pending), 4);
    while |header| == 4
      invariant |header| <= 4 && (|header| < 4 ==> socket.pending == [])
      invariant fresh(size) && fresh(size.bytes) && size.bytes.Length == 4 && size.host == host
      invariant inbound.events == old(inbound.events) + Messages(done)
      invariant Delivered(old(socket.pending), [], wire)
             == done + Delivered(header + socket.pending, buffer, wire)
      decreases |header| + |socket.pending|
    {
      ghost var before, was := header + socket.pending, buffer;
      var n := ReadSize(size, header, reorder, socket.pending);
      buffer := Resized(buffer, n);
      ghost var behind := socket.pending;
      var got := socket.Read(n);
      buffer := Overwritten(buffer, got);
      inbound.Receive(buffer);
      ReadBehind(header, behind, |got|);
      DeliveredStep(before, was, wire);
      done := done + [buffer];
      ReadSplit(socket.pending, 4);
      header := socket.Read(4);
    }
    DeliveredNothing(header + socket.pending, buffer, wire);
  }

  /** Client encoder to decoder, on hosts of any two kinds: every payload sent arrives, in order. */
  method SendAndDeliver(client: Endian, server: Endian, payloads: seq<seq<Byte>>) returns (inbound: Channel)
    requires Fits(payloads)
    ensures fresh(inbound) && inbound.events == Messages(payloads)
  {
    var socket := new Wire();
    inbound := new Channel();
    for i := 0 to |payloads|
      invariant fresh(socket) && fresh(inbound) && inbound.events == []
      invariant socket.pending == EncodeAll(payloads[..i], Big)
    {
      SendMessage(client, socket, payloads[i]);
      EncodeAllAppend(payloads[..i], [payloads[i]], Big);
      assert payloads[..i + 1] == payloads[..i] + [payloads[i]];
      assert EncodeAll([payloads[i]], Big) == Encode(payloads[i], Big) + EncodeAll([], Big);
    }
    assert payloads[..|payloads|] == payloads;
    DecodeOfEncoded(payloads, Big);
    ReadMessages(server, true, socket, inbound);
  }
}
