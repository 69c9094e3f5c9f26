/**
 The worker of the stream endpoint: `read_messages` over reads that may be cancelled, and the session it serves.

 A read either returns bytes or throws. The worker is sequential, so what it has done is a function of the outcomes
 of its reads so far.
 */
module StreamEndpoint {
  import opened Bytes
  import opened Framing

  /** How a read of `size` bytes ended. */
  datatype Outcome = Returned(size: nat, data: seq<Byte>) | Threw

  datatype Phase = WantHeader | WantPayload(size: nat) | Closed | Stopped

  datatype Worker = Worker(phase: Phase, buffer: seq<Byte>, log: seq<seq<Byte>>)

  /** The size of the worker's next read. */
  function Wanted(w: Worker): nat
  {
    if w.phase.WantPayload? then w.phase.size else 4
  }

  predicate Done(w: Worker)
  {
    w.phase.Closed? || w.phase.Stopped?
  }

  /** The worker after one more read: a throw ends it without a word, a short header with a `disconnect`. */
  function Next(w: Worker, o: Outcome, host: Endian): Worker
  {
    if Done(w) then
      w
    else
      match o
      case Threw => w.(phase := Stopped)
      case Returned(_, data) =>
        if w.phase.WantPayload? then
          var message := if |data| <= |w.buffer| then Overwritten(w.buffer, data) else w.buffer;
          Worker(WantHeader, message, w.log + [message])
        else if |data| == 4 then
          var n := Declared(data, host);
          w.(phase := WantPayload(n), buffer := Resized(w.buffer, n))
        else
          w.(phase := Closed)
  }

  const START := Worker(WantHeader, [], [])

  function Served(outcomes: seq<Outcome>, host: Endian): Worker
  {
    if outcomes == [] then START
    else Next(Served(outcomes[..|outcomes| - 1], host), outcomes[|outcomes| - 1], host)
  }

  /** The bytes returned by the reads so far. */
  function Total(outcomes: seq<Outcome>): nat
  {
    if outcomes == [] then 0
    else Total(outcomes[..|outcomes| - 1]) + match outcomes[|outcomes| - 1] case Returned(_, d) => |d| case Threw => 0
  }

  /**
   What a cancellable read promises: bytes come from the input in order and none is lost, short only at its end;
   and after the first throw every read throws.
   */
  ghost predicate Honest(outcomes: seq<Outcome>, input: seq<Byte>, ended: bool)
  {
    && (forall i :: 0 <= i < |outcomes| && outcomes[i].Returned? ==> HonestAt(outcomes, i, input, ended))
    && forall i, j :: 0 <= i < j < |outcomes| && outcomes[i].Threw? ==> outcomes[j].Threw?
  }

  predicate HonestAt(outcomes: seq<Outcome>, i: nat, input: seq<Byte>, ended: bool)
    requires i < |outcomes| && outcomes[i].Returned?
  {
    var from, data := Total(outcomes[..i]), outcomes[i].data;
    && |data| <= outcomes[i].size && from + |data| <= |input| && data == input[from..from + |data|]
    && (|data| < outcomes[i].size ==> ended && from + |data| == |input|)
  }

  /** The worker asked for every read it was given. */
  predicate Asked(outcomes: seq<Outcome>, host: Endian)
  {
    forall i :: 0 <= i < |outcomes| && outcomes[i].Returned? && !Done(Served(outcomes[..i], host)) ==>
      outcomes[i].size == Wanted(Served(outcomes[..i], host))
  }

  // What the worker has delivered -----------------------------------------------------------------------

  /** The worker between two reads, after `n` bytes of the input. */
  ghost predicate Tracks(w: Worker, n: nat, input: seq<Byte>, ended: bool, host: Endian)
  {
    && n <= |input|
    && match w.phase
       case WantHeader => Whole(w, n, input, host) || (ended && n == |input| && AllOf(w, input, host))
       case WantPayload(size) =>
         && Fits(w.log) && |w.buffer| == size && w.buffer == Resized(LastOr(w.log, []), size)
         && n >= 4 && Declared(input[n - 4..n], host) == size
         && input[..n - 4] == EncodeAll(w.log, host)
       case Closed => ended && AllOf(w, input, host)
       case Stopped => w.log <= Parse(input, host).frames || (ended && AllOf(w, input, host))
  }

  predicate Whole(w: Worker, n: nat, input: seq<Byte>, host: Endian)
    requires n <= |input|
  {
    Fits(w.log) && w.buffer == LastOr(w.log, []) && input[..n] == EncodeAll(w.log, host)
  }

  /** Everything the decoder makes of the input. */
  predicate AllOf(w: Worker, input: seq<Byte>, host: Endian)
  {
    w.log == Delivered(input, [], host)
  }

  lemma WholePrefix(w: Worker, n: nat, input: seq<Byte>, host: Endian)
    requires n <= |input| && Fits(w.log) && input[..n] == EncodeAll(w.log, host)
    ensures w.log <= Parse(input, host).frames
    ensures Parse(input, host).rest == Parse(input[n..], host).rest
    ensures Parse(input, host).frames == w.log + Parse(input[n..], host).frames
  {
    hide Parse, EncodeAll;
    assert input == input[..n] + input[n..];
    FramesOfPrefix(w.log, input[n..], host);
  }

  lemma HeaderNext(w: Worker, n: nat, input: seq<Byte>, ended: bool, host: Endian, data: seq<Byte>)
    requires w.phase.WantHeader? && Tracks(w, n, input, ended, host)
    requires |data| <= 4 && n + |data| <= |input| && data == input[n..n + |data|]
    requires |data| < 4 ==> ended && n + |data| == |input|
    ensures Tracks(Next(w, Returned(4, data), host), n + |data|, input, ended, host)
  {
    hide Parse, EncodeAll, Delivered, Declared;
    if Whole(w, n, input, host) {
      if |data| < 4 {
        WholePrefix(w, n, input, host);
        ParseOfRest(input[n..], host);
        DeliveredExactly(input, [], host);
        assert w.log + [] == w.log;
      } else {
        assert input[n + 4 - 4..n + 4] == data;
      }
    }
  }

  lemma PayloadNext(w: Worker, n: nat, input: seq<Byte>, ended: bool, host: Endian, data: seq<Byte>)
    requires w.phase.WantPayload? && Tracks(w, n, input, ended, host)
    requires |data| <= w.phase.size && n + |data| <= |input| && data == input[n..n + |data|]
    requires |data| < w.phase.size ==> ended && n + |data| == |input|
    ensures Tracks(Next(w, Returned(w.phase.size, data), host), n + |data|, input, ended, host)
  {
    if |data| == w.phase.size {
      WholePayload(w, n, input, ended, host, data);
    } else {
      CutPayload(w, n, input, ended, host, data);
    }
  }

  lemma WholePayload(w: Worker, n: nat, input: seq<Byte>, ended: bool, host: Endian, data: seq<Byte>)
    requires w.phase.WantPayload? && Tracks(w, n, input, ended, host)
    requires |data| == w.phase.size && n + |data| <= |input| && data == input[n..n + |data|]
    ensures var v := Next(w, Returned(w.phase.size, data), host);
      v.phase.WantHeader? && Whole(v, n + |data|, input, host)
  {
    hide Parse, EncodeAll, Delivered, Declared, Encode;
    assert Overwritten(w.buffer, data) == data;
    var frame := input[n - 4..n + |data|];
    FirstHeader(frame, host);
    assert frame[..4] == input[n - 4..n];
    EncodeOfFrame(frame, host);
    assert frame[4..4 + |data|] == data && frame[..4 + |data|] == frame;
    EncodeAllAppend(w.log, [data], host);
    EncodeAllOne(data, host);
    assert input[..n + |data|] == input[..n - 4] + frame;
  }

  lemma FirstHeader(s: seq<Byte>, host: Endian)
    requires |s| >= 4
    ensures Declared(s, host) == Declared(s[..4], host)
  {
    assert s[..4][..4] == s[..4];
  }

  lemma CutPayload(w: Worker, n: nat, input: seq<Byte>, ended: bool, host: Endian, data: seq<Byte>)
    requires w.phase.WantPayload? && Tracks(w, n, input, ended, host)
    requires |data| < w.phase.size && n + |data| == |input| && data == input[n..] && ended
    ensures Tracks(Next(w, Returned(w.phase.size, data), host), |input|, input, ended, host)
  {
    hide EncodeAll, Delivered, Parse, Declared;
    var rest := input[n - 4..];
    FirstHeader(rest, host);
    assert rest[..4] == input[n - 4..n];
    WholePrefix(w, n - 4, input, host);
    ParseOfRest(rest, host);
    assert w.log + [] == w.log;
    DeliveredExactly(input, [], host);
    assert rest[4..] == data;
  }

  lemma StopNext(w: Worker, n: nat, input: seq<Byte>, ended: bool, host: Endian)
    requires Tracks(w, n, input, ended, host)
    ensures Tracks(w.(phase := Stopped), n, input, ended, host)
  {
    hide Parse, EncodeAll, Delivered, Declared;
    if w.phase.WantHeader? && Whole(w, n, input, host) {
      WholePrefix(w, n, input, host);
    } else if w.phase.WantPayload? {
      WholePrefix(w, n - 4, input, host);
    } else if w.phase.Closed? {
    }
  }

  lemma {:induction false} ServedTracks(outcomes: seq<Outcome>, input: seq<Byte>, ended: bool, host: Endian)
    requires Honest(outcomes, input, ended) && Asked(outcomes, host)
    ensures var w := Served(outcomes, host);
      if Done(w) then exists n :: Tracks(w, n, input, ended, host)
      else Tracks(w, Total(outcomes), input, ended, host)
  {
    hide Tracks, Next;
    if outcomes == [] {
      StartTracks(input, ended, host);
    } else {
      var front, o := outcomes[..|outcomes| - 1], outcomes[|outcomes| - 1];
      FrontHonest(outcomes, input, ended, host);
      ServedTracks(front, input, ended, host);
      var w := Served(front, host);
      if Done(w) {
        DoneStays(w, o, host);
      } else {
        NextTracks(outcomes, input, ended, host);
      }
    }
  }

  lemma StartTracks(input: seq<Byte>, ended: bool, host: Endian)
    ensures Tracks(START, 0, input, ended, host)
  {
  }

  lemma DoneStays(w: Worker, o: Outcome, host: Endian)
    requires Done(w)
    ensures Next(w, o, host) == w
  {
  }

  lemma FrontHonest(outcomes: seq<Outcome>, input: seq<Byte>, ended: bool, host: Endian)
    requires outcomes != [] && Honest(outcomes, input, ended) && Asked(outcomes, host)
    ensures var front := outcomes[..|outcomes| - 1]; Honest(front, input, ended) && Asked(front, host)
  {
    hide Served, Total;
    var front := outcomes[..|outcomes| - 1];
    forall i | 0 <= i < |front| && front[i].Returned?
      ensures HonestAt(front, i, input, ended)
      ensures !Done(Served(front[..i], host)) ==> front[i].size == Wanted(Served(front[..i], host))
    {
      assert front[..i] == outcomes[..i];
      assert HonestAt(outcomes, i, input, ended);
    }
  }

  lemma NextTracks(outcomes: seq<Outcome>, input: seq<Byte>, ended: bool, host: Endian)
    requires outcomes != [] && Honest(outcomes, input, ended) && Asked(outcomes, host)
    requires var front := outcomes[..|outcomes| - 1]; var w := Served(front, host);
      !Done(w) && Tracks(w, Total(front), input, ended, host)
    ensures var w := Served(outcomes, host);
      if Done(w) then exists n :: Tracks(w, n, input, ended, host)
      else Tracks(w, Total(outcomes), input, ended, host)
  {
    hide Tracks, Next, Wanted, Done;
    var front, o := outcomes[..|outcomes| - 1], outcomes[|outcomes| - 1];
    assert o.Returned? ==> HonestAt(outcomes, |outcomes| - 1, input, ended);
    OutcomeTracks(Served(front, host), Total(front), o, input, ended, host);
  }

  lemma OutcomeTracks(w: Worker, n: nat, o: Outcome, input: seq<Byte>, ended: bool, host: Endian)
    requires !Done(w) && Tracks(w, n, input, ended, host)
    requires o.Returned? ==>
      && o.size == Wanted(w) && |o.data| <= o.size && n + |o.data| <= |input| && o.data == input[n..n + |o.data|]
      && (|o.data| < o.size ==> ended && n + |o.data| == |input|)
    ensures var v := Next(w, o, host);
      if o.Returned? then Tracks(v, n + |o.data|, input, ended, host)
      else Done(v) && Tracks(v, n, input, ended, host)
  {
    hide Tracks, Declared;
    match o
    case Threw => StopNext(w, n, input, ended, host);
    case Returned(size, data) =>
      if w.phase.WantPayload? {
        PayloadNext(w, n, input, ended, host, data);
      } else {
        HeaderNext(w, n, input, ended, host, data);
      }
  }

  /**
   However its reads end, the session is given whole frames of the input, in order, from the first byte; a message
   beyond them only at the end of an input cut within a frame, never because of a cancel. It is told of a
   disconnect only at the end of the input, after all of its messages; after a cancelled read it is told nothing.
   */
  lemma SessionIsServed(outcomes: seq<Outcome>, input: seq<Byte>, ended: bool, host: Endian)
    requires Honest(outcomes, input, ended) && Asked(outcomes, host)
    ensures var w := Served(outcomes, host);
      && (w.log <= Parse(input, host).frames || (ended && w.log == Delivered(input, [], host)))
      && (w.phase.Closed? ==> ended && w.log == Delivered(input, [], host))
      && (w.phase.Closed? ==> forall i :: 0 <= i < |outcomes| && outcomes[i].Threw? ==> Served(outcomes[..i], host) == w)
  {
    ServedTracks(outcomes, input, ended, host);
    var w := Served(outcomes, host);
    var n :| Tracks(w, n, input, ended, host);
    StopNext(w, n, input, ended, host);
    if w.phase.Closed? {
      forall i | 0 <= i < |outcomes| && outcomes[i].Threw?
        ensures Served(outcomes[..i], host) == w
      {
        ThrowStops(outcomes, i, host);
      }
    }
    hide Parse, Delivered;
  }

  /** Served from `i` on, a worker that is done stays as it is. */
  lemma {:induction false} DoneForGood(outcomes: seq<Outcome>, i: nat, host: Endian)
    requires i <= |outcomes| && Done(Served(outcomes[..i], host))
    ensures Served(outcomes, host) == Served(outcomes[..i], host)
    decreases |outcomes|
  {
    if i < |outcomes| {
      var front := outcomes[..|outcomes| - 1];
      assert front[..i] == outcomes[..i];
      DoneForGood(front, i, host);
    } else {
      assert outcomes[..i] == outcomes;
    }
  }

  lemma ThrowStops(outcomes: seq<Outcome>, i: nat, host: Endian)
    requires i < |outcomes| && outcomes[i].Threw? && Served(outcomes, host).phase.Closed?
    ensures Served(outcomes[..i], host) == Served(outcomes, host)
  {
    var after := outcomes[..i + 1];
    assert after[..i] == outcomes[..i];
    DoneForGood(outcomes, i + 1, host);
    if Done(Served(outcomes[..i], host)) {
      DoneForGood(outcomes, i, host);
    }
  }

  // When the session is told of the disconnect ----------------------------------------------------------

  /** The outcome at `i` is a header that came short: whole headers and payloads in front of it, and no throw. */
  predicate ShortHeader(outcomes: seq<Outcome>, i: nat)
  {
    && i < |outcomes| && i % 2 == 0 && outcomes[i].Returned? && |outcomes[i].data| != 4
    && Flowing(outcomes, i)
  }

  /** The first `n` reads returned, the headers among them whole. */
  predicate Flowing(outcomes: seq<Outcome>, n: nat)
    requires n <= |outcomes|
  {
    forall j :: 0 <= j < n ==> outcomes[j].Returned? && (j % 2 == 0 ==> |outcomes[j].data| == 4)
  }

  /** The worker is between two messages, within one, or done, and the outcomes alone say which. */
  ghost predicate PhaseIs(outcomes: seq<Outcome>, phase: Phase)
  {
    && (phase.WantHeader? <==> Flowing(outcomes, |outcomes|) && |outcomes| % 2 == 0)
    && (phase.WantPayload? <==> Flowing(outcomes, |outcomes|) && |outcomes| % 2 == 1)
    && (phase.Closed? <==> exists i: nat :: ShortHeader(outcomes, i))
  }

  lemma ShortHeaderMore(outcomes: seq<Outcome>, o: Outcome, i: nat)
    requires i < |outcomes|
    ensures ShortHeader(outcomes + [o], i) <==> ShortHeader(outcomes, i)
  {
    assert forall j :: 0 <= j < |outcomes| ==> (outcomes + [o])[j] == outcomes[j];
  }

  lemma FlowingMore(outcomes: seq<Outcome>, o: Outcome)
    ensures Flowing(outcomes + [o], |outcomes|) == Flowing(outcomes, |outcomes|)
    ensures Flowing(outcomes + [o], |outcomes| + 1) <==>
      Flowing(outcomes, |outcomes|) && o.Returned? && (|outcomes| % 2 == 0 ==> |o.data| == 4)
    ensures ShortHeader(outcomes + [o], |outcomes|) <==>
      Flowing(outcomes, |outcomes|) && |outcomes| % 2 == 0 && o.Returned? && |o.data| != 4
  {
    var more := outcomes + [o];
    assert forall j :: 0 <= j < |outcomes| ==> more[j] == outcomes[j];
    assert more[|outcomes|] == o;
  }

  /** A header that came short is not followed by reads that flow. */
  lemma ShortStops(outcomes: seq<Outcome>)
    ensures (exists i: nat :: ShortHeader(outcomes, i)) ==> !Flowing(outcomes, |outcomes|)
  {
    if exists i: nat :: ShortHeader(outcomes, i) {
      var i: nat :| ShortHeader(outcomes, i);
    }
  }

  lemma PhaseMore(outcomes: seq<Outcome>, o: Outcome, w: Worker, host: Endian)
    requires PhaseIs(outcomes, w.phase)
    ensures PhaseIs(outcomes + [o], Next(w, o, host).phase)
  {
    var more := outcomes + [o];
    FlowingMore(outcomes, o);
    ShortStops(outcomes);
    ShortStops(more);
    forall i: nat | i < |outcomes|
      ensures ShortHeader(more, i) <==> ShortHeader(outcomes, i)
    {
      ShortHeaderMore(outcomes, o, i);
    }
    hide Flowing, Declared, Overwritten, Resized;
    assert forall i: nat :: ShortHeader(more, i) ==> i <= |outcomes|;
    assert forall i: nat :: ShortHeader(outcomes, i) ==> i < |outcomes|;
    hide ShortHeader;
    if exists i: nat :: ShortHeader(more, i) {
      var i: nat :| ShortHeader(more, i);
      assert i == |outcomes| || ShortHeader(outcomes, i);
    }
  }

  lemma {:induction false} ServedPhase(outcomes: seq<Outcome>, host: Endian)
    ensures PhaseIs(outcomes, Served(outcomes, host).phase)
  {
    if outcomes != [] {
      var front, o := outcomes[..|outcomes| - 1], outcomes[|outcomes| - 1];
      ServedPhase(front, host);
      PhaseMore(front, o, Served(front, host), host);
      assert front + [o] == outcomes;
    }
  }

  // The worker's loop -----------------------------------------------------------------------------------

  /** What the session was called with. */
  function Told(w: Worker): seq<Event>
  {
    Messages(w.log) + if w.phase.Closed? then [Disconnected] else []
  }

  /**
   The worker: `read_messages` over the reads with the given outcomes, then `disconnect`. A throw leaves it at once;
   without a further outcome it waits.
   */
  method Work(outcomes: seq<Outcome>, host: Endian, session: Channel)
    modifies session
    ensures session.events == old(session.events) + Told(Served(outcomes, host))
    ensures Disconnected in session.events[old(|session.events|)..] <==> exists i: nat :: ShortHeader(outcomes, i)
    ensures (exists i: nat :: ShortHeader(outcomes, i)) ==>
      session.events != [] && session.events[|session.events| - 1].Disconnected?
    ensures forall k :: old(|session.events|) <= k < |session.events| - 1 ==> session.events[k].Message?
  {
    ServedPhase(outcomes, host);
    hide Declared, Resized, Overwritten, Served;
    ServedNone(host);
    var buffer: seq<Byte> := [];
    ghost var log: seq<seq<Byte>> := [];
    var i := 0;
    while i < |outcomes|
      invariant i <= |outcomes|
      invariant Served(outcomes[..i], host) == Worker(WantHeader, buffer, log)
      invariant session.events == old(session.events) + Messages(log)
    {
      ServedMore(outcomes, i, host);
      if outcomes[i].Threw? {
        DoneForGood(outcomes, i + 1, host);
        return;
      }
      if |outcomes[i].data| != 4 {
        session.Disconnect();
        DoneForGood(outcomes, i + 1, host);
        return;
      }
      buffer := Resized(buffer, Declared(outcomes[i].data, host));
      i := i + 1;
      if i == |outcomes| {
        assert outcomes[..i] == outcomes;
        return;
      }
      ServedMore(outcomes, i, host);
      if outcomes[i].Threw? {
        DoneForGood(outcomes, i + 1, host);
        return;
      }
      if |outcomes[i].data| <= |buffer| {
        buffer := Overwritten(buffer, outcomes[i].data);
      }
      session.Receive(buffer);
      log := log + [buffer];
      i := i + 1;
    }
    assert outcomes[..i] == outcomes;
  }

  lemma ServedNone(host: Endian)
    ensures Served([], host) == START
  {
  }

  lemma ServedMore(outcomes: seq<Outcome>, i: nat, host: Endian)
    requires i < |outcomes|
    ensures Served(outcomes[..i + 1], host) == Next(Served(outcomes[..i], host), outcomes[i], host)
  {
    hide Next;
    assert outcomes[..i + 1][..i] == outcomes[..i];
  }

  // How the outcomes of a reader grow -------------------------------------------------------------------

  lemma HonestGrows(outcomes: seq<Outcome>, input: seq<Byte>, ended: bool, more: seq<Byte>)
    requires Honest(outcomes, input, ended) && !ended
    ensures Honest(outcomes, input + more, ended)
  {
    hide Total;
    forall i | 0 <= i < |outcomes| && outcomes[i].Returned?
      ensures HonestAt(outcomes, i, input + more, ended)
    {
      assert HonestAt(outcomes, i, input, ended);
      var from, data := Total(outcomes[..i]), outcomes[i].data;
      assert (input + more)[from..from + |data|] == input[from..from + |data|];
    }
  }

  lemma HonestEnds(outcomes: seq<Outcome>, input: seq<Byte>, ended: bool)
    requires Honest(outcomes, input, ended)
    ensures Honest(outcomes, input, true)
  {
    forall i | 0 <= i < |outcomes| && outcomes[i].Returned?
      ensures HonestAt(outcomes, i, input, true)
    {
      assert HonestAt(outcomes, i, input, ended);
    }
  }

  lemma HonestMore(outcomes: seq<Outcome>, o: Outcome, input: seq<Byte>, ended: bool)
    requires Honest(outcomes, input, ended)
    requires o.Returned? ==>
      && Threw !in outcomes
      && var n := Total(outcomes);
         && |o.data| <= o.size && n + |o.data| <= |input| && o.data == input[n..n + |o.data|]
         && (|o.data| < o.size ==> ended && n + |o.data| == |input|)
    ensures Honest(outcomes + [o], input, ended)
    ensures Total(outcomes + [o]) == Total(outcomes) + match o case Returned(_, d) => |d| case Threw => 0
  {
    hide Total;
    var more := outcomes + [o];
    assert more[..|outcomes|] == outcomes;
    forall i | 0 <= i < |more| && more[i].Returned?
      ensures HonestAt(more, i, input, ended)
    {
      if i < |outcomes| {
        assert HonestAt(outcomes, i, input, ended);
        assert more[..i] == outcomes[..i];
      }
    }
    TotalMore(outcomes, o);
  }

  lemma TotalMore(outcomes: seq<Outcome>, o: Outcome)
    ensures Total(outcomes + [o]) == Total(outcomes) + match o case Returned(_, d) => |d| case Threw => 0
  {
    assert (outcomes + [o])[..|outcomes|] == outcomes;
  }
}
