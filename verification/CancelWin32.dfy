/**
 `cancellable_read` on Windows: any number of reading and of cancelling threads, one mutex, the published handle
 of the reading thread, and `CancelSynchronousIo`.

 Every section under the mutex is one step; the platform's read is entered and left in steps of its own.
 */
module CancelWin32 {
  import opened Bytes
  import Framing
  import opened StreamEndpoint
  import opened Wrappers

  /** The fields under the mutex: the handle is that of a reader's thread. */
  datatype Shared = Shared(cancelled: bool, handle: Option<nat>)

  /** Where a reading thread is; inside the platform's read it may have been aborted. */
  datatype Pc =
    | Idle
    | Starting(size: nat)
    | Published(size: nat)
    | Reading(size: nat, aborted: bool)
    | Finished(size: nat, data: seq<Byte>, aborted: bool)

  datatype Reader = Reader(pc: Pc, outcomes: seq<Outcome>, calls: nat)

  datatype CancelPc = Resting | Trying | Cancelled

  datatype System = System(
    shared: Shared, readers: seq<Reader>, cancellers: seq<CancelPc>, input: seq<Byte>, taken: nat, ended: bool)

  // The sections under the mutex ------------------------------------------------------------------------

  /** The section in front of the platform's read: throws, or publishes the handle. */
  function Precheck(s: Shared, reader: nat): (Shared, bool)
  {
    if s.cancelled then (s, true) else (s.(handle := Some(reader)), false)
  }

  /** The section behind the platform's read: withdraws the handle, then throws if cancelled. */
  function Postcheck(s: Shared): (Shared, bool)
  {
    (s.(handle := None), s.cancelled)
  }

  /** One round of `cancel`: whether the loop is left. */
  function TryCancel(s: Shared, ioCancelled: bool): (Shared, bool)
  {
    (s.(cancelled := true), s.handle.None? || ioCancelled)
  }

  // Steps -----------------------------------------------------------------------------------------------

  datatype Action =
    | Supply(data: seq<Byte>)
    | EndInput
    | StartRead(reader: nat, size: nat)
    | PrecheckAt(reader: nat)
    | EnterRead(reader: nat)
    | LeaveRead(reader: nat, count: nat)
    | PostcheckAt(reader: nat)
    | StartCancel(canceller: nat)
    | TryCancelAt(canceller: nat, ioCancelled: bool)

  function Remaining(s: System): nat
  {
    if s.taken <= |s.input| then |s.input| - s.taken else 0
  }

  /**
   The platform: `fread` waits for all it was asked for or the end of the input, unless it is aborted, when it may
   leave with less; `CancelSynchronousIo` succeeds only on a thread inside its read.
   */
  predicate Enabled(s: System, a: Action)
  {
    match a
    case Supply(_) => !s.ended
    case EndInput => true
    case StartRead(r, _) => r < |s.readers| && s.readers[r].pc.Idle?
    case PrecheckAt(r) => r < |s.readers| && s.readers[r].pc.Starting?
    case EnterRead(r) => r < |s.readers| && s.readers[r].pc.Published?
    case LeaveRead(r, count) =>
      && r < |s.readers| && s.readers[r].pc.Reading?
      && var size := s.readers[r].pc.size;
         && count <= Min(size, Remaining(s))
         && (!s.readers[r].pc.aborted ==> count == size || (s.ended && count == Remaining(s)))
    case PostcheckAt(r) => r < |s.readers| && s.readers[r].pc.Finished?
    case StartCancel(c) => c < |s.cancellers| && !s.cancellers[c].Trying?
    case TryCancelAt(c, ioCancelled) =>
      && c < |s.cancellers| && s.cancellers[c].Trying?
      && (ioCancelled ==>
            && s.shared.handle.Some? && s.shared.handle.value < |s.readers|
            && s.readers[s.shared.handle.value].pc.Reading?)
  }

  function SetPc(s: System, r: nat, pc: Pc): System
    requires r < |s.readers|
  {
    s.(readers := s.readers[r := s.readers[r].(pc := pc)])
  }

  function Conclude(s: System, r: nat, outcome: Outcome): System
    requires r < |s.readers|
  {
    s.(readers := s.readers[r := Reader(Idle, s.readers[r].outcomes + [outcome], s.readers[r].calls)])
  }

  function Abort(s: System, r: nat): System
    requires r < |s.readers| && s.readers[r].pc.Reading?
  {
    SetPc(s, r, Reading(s.readers[r].pc.size, true))
  }

  function Step(s: System, a: Action): System
    requires Enabled(s, a)
  {
    match a
    case Supply(data) => s.(input := s.input + data)
    case EndInput => s.(ended := true)
    case StartRead(r, size) => SetPc(s, r, Starting(size))
    case PrecheckAt(r) =>
      var (shared, throws) := Precheck(s.shared, r);
      if throws then Conclude(s.(shared := shared), r, Threw)
      else SetPc(s.(shared := shared), r, Published(s.readers[r].pc.size))
    case EnterRead(r) =>
      var size := s.readers[r].pc.size;
      s.(readers := s.readers[r := s.readers[r].(pc := Reading(size, false), calls := s.readers[r].calls + 1)])
    case LeaveRead(r, count) =>
      var pc := s.readers[r].pc;
      SetPc(s, r, Finished(pc.size, if s.taken + count <= |s.input| then s.input[s.taken..s.taken + count] else [], pc.aborted))
        .(taken := s.taken + count)
    case PostcheckAt(r) =>
      var (shared, throws) := Postcheck(s.shared);
      var pc := s.readers[r].pc;
      Conclude(s.(shared := shared), r, if throws then Threw else Returned(pc.size, pc.data))
    case StartCancel(c) => s.(cancellers := s.cancellers[c := Trying])
    case TryCancelAt(c, ioCancelled) =>
      var (shared, done) := TryCancel(s.shared, ioCancelled);
      var t := s.(shared := shared, cancellers := s.cancellers[c := if done then Cancelled else Trying]);
      if ioCancelled && s.shared.handle.Some? then Abort(t, s.shared.handle.value) else t
  }

  function Exec(s: System, run: seq<Action>): System
    decreases |run|
  {
    if run == [] then s
    else
      var t := Exec(s, run[..|run| - 1]);
      if Enabled(t, run[|run| - 1]) then Step(t, run[|run| - 1]) else t
  }

  predicate Initial(s: System)
  {
    && s.shared == Shared(false, None) && s.taken == 0
    && (forall r :: 0 <= r < |s.readers| ==> s.readers[r] == Reader(Idle, [], 0))
    && forall c :: 0 <= c < |s.cancellers| ==> s.cancellers[c].Resting?
  }

  // Any number of readers and cancellers ----------------------------------------------------------------

  /** The outcomes after a cancel: nothing but throws behind the earlier ones. */
  predicate OnlyThrowsAfter(before: seq<Outcome>, after: seq<Outcome>)
  {
    |before| <= |after| && after[..|before|] == before && forall i :: |before| <= i < |after| ==> after[i].Threw?
  }

  predicate PastPrecheck(pc: Pc)
  {
    pc.Published? || pc.Reading? || pc.Finished?
  }

  /** What the run from `s` to `t` did to a reader, `s` being cancelled. */
  predicate Stopped(before: Reader, after: Reader)
  {
    && OnlyThrowsAfter(before.outcomes, after.outcomes)
    && (after.pc.Published? ==> before.pc.Published?)
    && after.calls + (if after.pc.Published? then 1 else 0) <= before.calls + (if before.pc.Published? then 1 else 0)
    && (!PastPrecheck(before.pc) ==> !PastPrecheck(after.pc))
  }

  lemma ThrowsMore(before: seq<Outcome>, after: seq<Outcome>)
    requires OnlyThrowsAfter(before, after)
    ensures OnlyThrowsAfter(before, after + [Threw])
  {
  }

  lemma StoppedStep(s: System, t: System, a: Action)
    requires t.shared.cancelled && |s.readers| == |t.readers| && Enabled(t, a)
    requires forall r :: 0 <= r < |s.readers| ==> Stopped(s.readers[r], t.readers[r])
    ensures var u := Step(t, a);
      && u.shared.cancelled && |u.readers| == |t.readers|
      && forall r :: 0 <= r < |s.readers| ==> Stopped(s.readers[r], u.readers[r])
  {
    hide OnlyThrowsAfter;
    forall r | 0 <= r < |s.readers|
      ensures Stopped(s.readers[r], Step(t, a).readers[r])
    {
      ThrowsMore(s.readers[r].outcomes, t.readers[r].outcomes);
    }
  }

  /**
   From the moment some `cancel` has held the lock: no read returns bytes any more, and a read that has not passed
   its first check by then never enters the platform's read.
   */
  lemma {:induction false} CancelIsFinal(s: System, run: seq<Action>)
    requires s.shared.cancelled
    ensures var t := Exec(s, run);
      && t.shared.cancelled && |t.readers| == |s.readers|
      && (forall r :: 0 <= r < |s.readers| ==> Stopped(s.readers[r], t.readers[r]))
      && forall r :: 0 <= r < |s.readers| && !PastPrecheck(s.readers[r].pc) ==> t.readers[r].calls == s.readers[r].calls
    decreases |run|
  {
    hide Step, Enabled, OnlyThrowsAfter;
    if run == [] {
      StoppedAtOnce(s);
    } else {
      var t, a := Exec(s, run[..|run| - 1]), run[|run| - 1];
      CancelIsFinal(s, run[..|run| - 1]);
      if Enabled(t, a) {
        StoppedStep(s, t, a);
      }
      CallsGrow(s, run);
    }
  }

  lemma StoppedAtOnce(s: System)
    ensures forall r :: 0 <= r < |s.readers| ==> Stopped(s.readers[r], s.readers[r])
  {
  }

  lemma {:induction false} CallsGrow(s: System, run: seq<Action>)
    ensures |Exec(s, run).readers| == |s.readers|
    ensures forall r :: 0 <= r < |s.readers| ==> Exec(s, run).readers[r].calls >= s.readers[r].calls
    decreases |run|
  {
    if run != [] {
      CallsGrow(s, run[..|run| - 1]);
    }
  }

  /** Some enabled round of a `cancel` is in the run. */
  predicate SomebodyCancels(s: System, run: seq<Action>)
    decreases |run|
  {
    run != [] &&
      var front, a := run[..|run| - 1], run[|run| - 1];
      SomebodyCancels(s, front) || (a.TryCancelAt? && Enabled(Exec(s, front), a))
  }

  lemma StepCancels(s: System, a: Action)
    requires Enabled(s, a)
    ensures Step(s, a).shared.cancelled <==> s.shared.cancelled || a.TryCancelAt?
  {
  }

  /** Nothing but a round of a `cancel` sets the flag, and each does. */
  lemma {:induction false} CancelledBySomebody(s: System, run: seq<Action>)
    ensures Exec(s, run).shared.cancelled <==> s.shared.cancelled || SomebodyCancels(s, run)
    decreases |run|
  {
    hide Step, Enabled;
    if run != [] {
      CancelledBySomebody(s, run[..|run| - 1]);
      if Enabled(Exec(s, run[..|run| - 1]), run[|run| - 1]) {
        StepCancels(Exec(s, run[..|run| - 1]), run[|run| - 1]);
      }
    }
  }

  // One reader at a time --------------------------------------------------------------------------------

  /** A read begins only while no other is under way. */
  predicate Alone(s: System, a: Action)
  {
    a.StartRead? ==> forall r :: 0 <= r < |s.readers| ==> s.readers[r].pc.Idle?
  }

  predicate AllAlone(s: System, run: seq<Action>)
    decreases |run|
  {
    run != [] ==>
      && AllAlone(s, run[..|run| - 1])
      && var t, a := Exec(s, run[..|run| - 1]), run[|run| - 1];
         Enabled(t, a) ==> Alone(t, a)
  }

  /** The published handle is that of the reader between its two checks. */
  ghost predicate HandleOk(s: System)
  {
    && (forall q, r :: 0 <= q < r < |s.readers| ==> s.readers[q].pc.Idle? || s.readers[r].pc.Idle?)
    && (forall r: nat :: r < |s.readers| ==> (PastPrecheck(s.readers[r].pc) <==> s.shared.handle == Some(r)))
    && (s.shared.handle.Some? ==> s.shared.handle.value < |s.readers|)
  }

  /** Somebody's `cancel` has returned. */
  predicate CancelReturned(s: System)
  {
    exists c :: 0 <= c < |s.cancellers| && s.cancellers[c].Cancelled?
  }

  /** No reader is on its way into the platform's read, nor inside one that has not been aborted. */
  predicate NobodyReads(s: System)
  {
    forall r :: 0 <= r < |s.readers| ==> !s.readers[r].pc.Published? && (s.readers[r].pc.Reading? ==> s.readers[r].pc.aborted)
  }

  ghost predicate AloneInv(s: System)
  {
    && HandleOk(s)
    && (CancelReturned(s) ==> s.shared.cancelled && NobodyReads(s))
    && forall r :: 0 <= r < |s.readers| && s.readers[r].pc.Reading? && s.readers[r].pc.aborted ==> s.shared.cancelled
  }

  lemma AloneStep(s: System, a: Action)
    requires AloneInv(s) && Enabled(s, a) && Alone(s, a)
    ensures AloneInv(Step(s, a))
  {
    HandleStep(s, a);
    hide HandleOk;
    var t := Step(s, a);
    if a.TryCancelAt? || a.StartCancel? {
      assert forall c :: 0 <= c < |s.cancellers| && c != a.canceller ==> t.cancellers[c] == s.cancellers[c];
      if a.TryCancelAt? {
        TryCancelStep(s, a.canceller, a.ioCancelled);
      }
    }
  }

  /** A step that moves no reader into a read, out of one, or over a check. */
  lemma HandleKept(s: System, t: System)
    requires HandleOk(s) && t.shared.handle == s.shared.handle && |t.readers| == |s.readers|
    requires forall r :: 0 <= r < |s.readers| ==>
      PastPrecheck(t.readers[r].pc) == PastPrecheck(s.readers[r].pc) && t.readers[r].pc.Idle? == s.readers[r].pc.Idle?
    ensures HandleOk(t)
  {
    hide PastPrecheck;
  }

  lemma StartHandle(s: System, r: nat, size: nat)
    requires HandleOk(s) && Enabled(s, StartRead(r, size)) && Alone(s, StartRead(r, size))
    ensures HandleOk(Step(s, StartRead(r, size)))
  {
  }

  lemma PrecheckHandle(s: System, r: nat)
    requires HandleOk(s) && Enabled(s, PrecheckAt(r))
    ensures HandleOk(Step(s, PrecheckAt(r)))
  {
  }

  lemma PostcheckHandle(s: System, r: nat)
    requires HandleOk(s) && Enabled(s, PostcheckAt(r))
    ensures HandleOk(Step(s, PostcheckAt(r)))
  {
  }

  lemma HandleStep(s: System, a: Action)
    requires HandleOk(s) && Enabled(s, a) && Alone(s, a)
    ensures HandleOk(Step(s, a))
  {
    hide HandleOk;
    match a
    case StartRead(r, size) => StartHandle(s, r, size);
    case PrecheckAt(r) => PrecheckHandle(s, r);
    case PostcheckAt(r) => PostcheckHandle(s, r);
    case _ => HandleKept(s, Step(s, a));
  }

  /** A round that ends the loop found no handle, or aborted the one reader that has one. */
  lemma TryCancelStep(s: System, canceller: nat, ioCancelled: bool)
    requires AloneInv(s) && Enabled(s, TryCancelAt(canceller, ioCancelled))
    ensures var t := Step(s, TryCancelAt(canceller, ioCancelled));
      t.cancellers[canceller].Cancelled? ==> NobodyReads(t)
  {
  }

  /**
   With one reader at a time, when a `cancel` has returned no reader is left inside a platform read that was not
   aborted, and none is about to enter one.
   */
  lemma {:induction false} CancelLeavesNobodyReading(s: System, run: seq<Action>)
    requires AloneInv(s) && AllAlone(s, run)
    ensures AloneInv(Exec(s, run))
    ensures CancelReturned(Exec(s, run)) ==> NobodyReads(Exec(s, run))
    decreases |run|
  {
    hide Step, Enabled, HandleOk, Alone;
    if run != [] {
      var t, a := Exec(s, run[..|run| - 1]), run[|run| - 1];
      CancelLeavesNobodyReading(s, run[..|run| - 1]);
      if Enabled(t, a) {
        AloneStep(t, a);
      }
    }
  }

  lemma InitialAlone(s: System)
    requires Initial(s)
    ensures AloneInv(s)
  {
    hide NobodyReads;
  }

  /** Two readers at once: the second overwrites the first one's handle, and `cancel` returns past the first. */
  lemma TwoReadersEscape(s: System) returns (run: seq<Action>)
    requires Initial(s) && |s.readers| >= 2 && s.cancellers != []
    ensures CancelReturned(Exec(s, run)) && !NobodyReads(Exec(s, run))
  {
    var read0, read1 := [StartRead(0, 1), PrecheckAt(0), EnterRead(0)], [StartRead(1, 1), PrecheckAt(1), EnterRead(1)];
    var cancel := [StartCancel(0), TryCancelAt(0, true)];
    var t, u := Exec(s, read0), Exec(s, read0 + read1);
    ExecAppend(s, read0, read1);
    ExecAppend(s, read0 + read1, cancel);
    ExecRead(s, 0);
    ExecRead(t, 1);
    ExecCancel(u);
    hide Exec;
    run := read0 + read1 + cancel;
    var v := Exec(s, run);
    assert v.cancellers[0].Cancelled? && v.readers[0].pc == Reading(1, false);
  }

  lemma {:induction false} OneReaderIsAlone(s: System, run: seq<Action>)
    requires |s.readers| <= 1
    ensures |Exec(s, run).readers| == |s.readers| && AllAlone(s, run)
    decreases |run|
  {
    hide Step;
    if run != [] {
      OneReaderIsAlone(s, run[..|run| - 1]);
      CallsGrow(s, run);
    }
  }

  /** Some run has a `cancel` return past a reader inside its read exactly when more than one thread may read. */
  lemma CancelEscapedExactly(s: System)
    requires Initial(s) && s.cancellers != []
    ensures (exists run :: CancelReturned(Exec(s, run)) && !NobodyReads(Exec(s, run))) <==> |s.readers| >= 2
  {
    if |s.readers| >= 2 {
      var run := TwoReadersEscape(s);
    } else {
      InitialAlone(s);
      forall run
        ensures CancelReturned(Exec(s, run)) ==> NobodyReads(Exec(s, run))
      {
        OneReaderIsAlone(s, run);
        CancelLeavesNobodyReading(s, run);
      }
    }
    hide Exec, CancelReturned, NobodyReads, Initial;
  }

  lemma {:induction false} ExecAppend(s: System, run: seq<Action>, more: seq<Action>)
    ensures Exec(s, run + more) == Exec(Exec(s, run), more)
    decreases |more|
  {
    hide Step, Enabled;
    if more == [] {
      assert run + more == run;
    } else {
      ExecAppend(s, run, more[..|more| - 1]);
      assert (run + more)[..|run + more| - 1] == run + more[..|more| - 1];
    }
  }

  lemma ExecOne(s: System, a: Action)
    ensures Exec(s, [a]) == if Enabled(s, a) then Step(s, a) else s
  {
    hide Step, Enabled;
    assert [a][..0] == [] && Exec(s, []) == s;
  }

  lemma ExecRead(s: System, r: nat)
    requires r < |s.readers| && s.readers[r] == Reader(Idle, [], 0) && !s.shared.cancelled
    ensures Exec(s, [StartRead(r, 1), PrecheckAt(r), EnterRead(r)])
         == s.(shared := s.shared.(handle := Some(r)), readers := s.readers[r := Reader(Reading(1, false), [], 1)])
  {
    var t := Step(s, StartRead(r, 1));
    var u := Step(t, PrecheckAt(r));
    var v := Step(u, EnterRead(r));
    hide Step, Enabled;
    ExecOne(s, StartRead(r, 1));
    ExecAppend(s, [StartRead(r, 1)], [PrecheckAt(r)]);
    ExecOne(t, PrecheckAt(r));
    ExecAppend(s, [StartRead(r, 1), PrecheckAt(r)], [EnterRead(r)]);
    ExecOne(u, EnterRead(r));
    assert [StartRead(r, 1)] + [PrecheckAt(r)] == [StartRead(r, 1), PrecheckAt(r)];
    assert [StartRead(r, 1), PrecheckAt(r)] + [EnterRead(r)] == [StartRead(r, 1), PrecheckAt(r), EnterRead(r)];
  }

  lemma ExecCancel(s: System)
    requires s.cancellers != [] && s.cancellers[0].Resting?
    requires s.shared.handle.Some? && s.shared.handle.value < |s.readers|
    requires s.readers[s.shared.handle.value].pc.Reading?
    ensures var t := Exec(s, [StartCancel(0), TryCancelAt(0, true)]);
      && |t.cancellers| > 0 && t.cancellers[0].Cancelled? && |t.readers| == |s.readers|
      && forall r :: 0 <= r < |s.readers| && r != s.shared.handle.value ==> t.readers[r] == s.readers[r]
  {
    var t := Step(s, StartCancel(0));
    var u := Step(t, TryCancelAt(0, true));
    ExecOne(s, StartCancel(0));
    ExecAppend(s, [StartCancel(0)], [TryCancelAt(0, true)]);
    ExecOne(t, TryCancelAt(0, true));
    assert [StartCancel(0)] + [TryCancelAt(0, true)] == [StartCancel(0), TryCancelAt(0, true)];
  }

  // The retry loop --------------------------------------------------------------------------------------

  /** The steps left to the thread whose handle is published until it withdraws it. */
  function StepsLeft(s: System): nat
  {
    if s.shared.handle.None? || s.shared.handle.value >= |s.readers| then 0
    else match s.readers[s.shared.handle.value].pc
      case Published(_) => 3
      case Reading(_, _) => 2
      case Finished(_, _, _) => 1
      case _ => 0
  }

  predicate ReaderStep(a: Action)
  {
    a.EnterRead? || a.LeaveRead? || a.PostcheckAt?
  }

  function ReaderSteps(s: System, run: seq<Action>): nat
    decreases |run|
  {
    if run == [] then 0
    else
      var t, a := Exec(s, run[..|run| - 1]), run[|run| - 1];
      ReaderSteps(s, run[..|run| - 1]) + if ReaderStep(a) && Enabled(t, a) then 1 else 0
  }

  lemma SpinStep(s: System, a: Action)
    requires AloneInv(s) && s.shared.cancelled && Enabled(s, a)
    ensures Step(s, a).shared.cancelled
    ensures StepsLeft(Step(s, a)) == StepsLeft(s) - if ReaderStep(a) then 1 else 0
  {
  }

  /**
   Once cancelled, the reader has at most three steps left before it withdraws its handle; a `cancel` that goes
   round its loop again waits for one of them, and leaves the loop at the latest when they are done.
   */
  lemma {:induction false} RetryEnds(s: System, run: seq<Action>, canceller: nat)
    requires AloneInv(s) && s.shared.cancelled && AllAlone(s, run)
    ensures ReaderSteps(s, run) + StepsLeft(Exec(s, run)) == StepsLeft(s) <= 3
    ensures Exec(s, run).shared.cancelled
    ensures var t := Exec(s, run);
      canceller < |t.cancellers| && t.cancellers[canceller].Trying? && StepsLeft(t) == 0 ==>
        Step(t, TryCancelAt(canceller, false)).cancellers[canceller].Cancelled?
    decreases |run|
  {
    hide Step, Enabled, AloneInv, StepsLeft;
    if run != [] {
      var t, a := Exec(s, run[..|run| - 1]), run[|run| - 1];
      RetryEnds(s, run[..|run| - 1], canceller);
      CancelLeavesNobodyReading(s, run[..|run| - 1]);
      if Enabled(t, a) {
        SpinStep(t, a);
      }
    }
    CancelLeavesNobodyReading(s, run);
    LastRound(Exec(s, run), canceller);
  }

  lemma LastRound(s: System, canceller: nat)
    requires AloneInv(s)
    ensures StepsLeft(s) <= 3
    ensures canceller < |s.cancellers| && s.cancellers[canceller].Trying? && StepsLeft(s) == 0 ==>
      Step(s, TryCancelAt(canceller, false)).cancellers[canceller].Cancelled?
  {
  }

  // After the cancel ------------------------------------------------------------------------------------

  /** The step a reader under way takes next; an aborted platform read may return at once, with nothing. */
  function OwnStep(r: nat, pc: Pc): Action
  {
    match pc
    case Idle => StartRead(r, 0)
    case Starting(_) => PrecheckAt(r)
    case Published(_) => EnterRead(r)
    case Reading(_, _) => LeaveRead(r, 0)
    case Finished(_, _, _) => PostcheckAt(r)
  }

  /** The steps left to a reader that finds itself cancelled, or its platform read aborted. */
  function StepsToThrow(pc: Pc): nat
  {
    match pc
    case Idle => 0
    case Starting(_) => 1
    case Published(_) => 3
    case Reading(_, _) => 2
    case Finished(_, _, _) => 1
  }

  predicate Progress(a: Action, r: nat)
  {
    match a
    case PrecheckAt(q) => q == r
    case EnterRead(q) => q == r
    case LeaveRead(q, _) => q == r
    case PostcheckAt(q) => q == r
    case _ => false
  }

  function ProgressOf(s: System, run: seq<Action>, r: nat): nat
    decreases |run|
  {
    if run == [] then 0
    else
      var t, a := Exec(s, run[..|run| - 1]), run[|run| - 1];
      ProgressOf(s, run[..|run| - 1], r) + if Progress(a, r) && Enabled(t, a) then 1 else 0
  }

  /** The read under way has not ended, or it ended with a throw. */
  predicate Concluding(before: Reader, after: Reader, steps: nat)
  {
    if |after.outcomes| > |before.outcomes| then
      after.outcomes[|before.outcomes|].Threw?
    else
      after.outcomes == before.outcomes && !after.pc.Idle? && steps + StepsToThrow(after.pc) == StepsToThrow(before.pc)
  }

  lemma ConcludeStep(s: System, a: Action, r: nat, before: Reader, steps: nat)
    requires s.shared.cancelled && NobodyReads(s) && r < |s.readers| && Enabled(s, a)
    requires Concluding(before, s.readers[r], steps)
    ensures var t := Step(s, a);
      |t.readers| == |s.readers| && Concluding(before, t.readers[r], steps + if Progress(a, r) then 1 else 0)
  {
  }

  lemma OwnStepEnabled(s: System, r: nat)
    requires NobodyReads(s) && r < |s.readers|
    ensures Enabled(s, OwnStep(r, s.readers[r].pc))
  {
  }

  /**
   Once a `cancel` has returned, reads not having overlapped so far: a read under way always has a step of its own to
   take, takes two at most whatever the others do, and ends with a throw. So a join of its thread returns.
   */
  lemma {:induction false} ReaderConcludes(s: System, run: seq<Action>, r: nat)
    requires AloneInv(s) && CancelReturned(s) && r < |s.readers| && !s.readers[r].pc.Idle?
    ensures var t := Exec(s, run);
      && |t.readers| == |s.readers| && t.shared.cancelled && NobodyReads(t)
      && Concluding(s.readers[r], t.readers[r], ProgressOf(s, run, r)) && StepsToThrow(s.readers[r].pc) <= 2
      && Enabled(t, OwnStep(r, t.readers[r].pc))
    decreases |run|
  {
    hide Step, Enabled, AloneInv, CancelReturned, NobodyReads, Concluding, StepsToThrow, OwnStep, Progress;
    StartsCancelled(s, r);
    if run == [] {
      ConcludingAtFirst(s.readers[r]);
    } else {
      var t, a := Exec(s, run[..|run| - 1]), run[|run| - 1];
      ReaderConcludes(s, run[..|run| - 1], r);
      if Enabled(t, a) {
        ConcludeStep(t, a, r, s.readers[r], ProgressOf(s, run[..|run| - 1], r));
        StaysQuiet(t, a);
      }
    }
    OwnStepEnabled(Exec(s, run), r);
  }

  lemma StartsCancelled(s: System, r: nat)
    requires AloneInv(s) && CancelReturned(s) && r < |s.readers|
    ensures s.shared.cancelled && NobodyReads(s) && StepsToThrow(s.readers[r].pc) <= 2
  {
    hide HandleOk;
  }

  lemma ConcludingAtFirst(before: Reader)
    requires !before.pc.Idle?
    ensures Concluding(before, before, 0)
  {
  }

  /** Cancelled, nobody publishes a handle any more, and nobody enters a read. */
  lemma StaysQuiet(s: System, a: Action)
    requires s.shared.cancelled && NobodyReads(s) && Enabled(s, a)
    ensures Step(s, a).shared.cancelled && NobodyReads(Step(s, a))
  {
  }

  // What the reads of one reader return -----------------------------------------------------------------

  /** The bytes taken off the input are those returned, and those the reader is about to return. */
  ghost predicate ReturnsInOrder(s: System)
  {
    && |s.readers| == 1
    && var r := s.readers[0];
       && Honest(r.outcomes, s.input, s.ended)
       && (Threw in r.outcomes ==> s.shared.cancelled)
       && match r.pc
          case Reading(_, aborted) =>
            (aborted ==> s.shared.cancelled) && (!aborted ==> UpToDate(s, []))
          case Finished(size, data, aborted) =>
            && (aborted ==> s.shared.cancelled)
            && (!aborted ==> UpToDate(s, data) && |data| <= size && (|data| < size ==> AtEnd(s, data)))
          case _ => UpToDate(s, [])
  }

  predicate UpToDate(s: System, data: seq<Byte>)
    requires |s.readers| == 1
  {
    var n := Total(s.readers[0].outcomes);
    Threw in s.readers[0].outcomes ||
      (s.taken == n + |data| && s.taken <= |s.input| && s.input[n..s.taken] == data)
  }

  predicate AtEnd(s: System, data: seq<Byte>)
    requires |s.readers| == 1
  {
    Threw in s.readers[0].outcomes || (s.ended && Total(s.readers[0].outcomes) + |data| == |s.input|)
  }

  lemma LeaveInOrder(s: System, count: nat)
    requires ReturnsInOrder(s) && Enabled(s, LeaveRead(0, count))
    ensures ReturnsInOrder(Step(s, LeaveRead(0, count)))
  {
    hide Honest, Total;
  }

  lemma CancelInOrder(s: System, canceller: nat, ioCancelled: bool)
    requires ReturnsInOrder(s) && Enabled(s, TryCancelAt(canceller, ioCancelled))
    ensures ReturnsInOrder(Step(s, TryCancelAt(canceller, ioCancelled)))
  {
    hide Honest, Total;
  }

  lemma InOrderStep(s: System, a: Action)
    requires ReturnsInOrder(s) && Enabled(s, a)
    ensures ReturnsInOrder(Step(s, a))
  {
    hide Honest, Total;
    var r := s.readers[0];
    match a
    case Supply(data) => HonestGrows(r.outcomes, s.input, s.ended, data);
    case EndInput => HonestEnds(r.outcomes, s.input, s.ended);
    case PrecheckAt(_) => HonestMore(r.outcomes, Threw, s.input, s.ended);
    case PostcheckAt(_) =>
      if s.shared.cancelled {
        HonestMore(r.outcomes, Threw, s.input, s.ended);
      } else {
        HonestMore(r.outcomes, Returned(r.pc.size, r.pc.data), s.input, s.ended);
      }
    case LeaveRead(_, count) => LeaveInOrder(s, count);
    case TryCancelAt(c, ioCancelled) => CancelInOrder(s, c, ioCancelled);
    case _ =>
  }

  lemma {:induction false} ReadsAreHonest(s: System, run: seq<Action>)
    requires Initial(s) && |s.readers| == 1
    ensures ReturnsInOrder(Exec(s, run)) && AloneInv(Exec(s, run))
    decreases |run|
  {
    hide Step, Enabled, ReturnsInOrder, AloneInv;
    if run == [] {
      InitialHonest(s);
    } else {
      var t, a := Exec(s, run[..|run| - 1]), run[|run| - 1];
      ReadsAreHonest(s, run[..|run| - 1]);
      if Enabled(t, a) {
        InOrderStep(t, a);
        AloneStep(t, a) by { OneReader(t, a); }
      }
    }
  }

  lemma OneReader(s: System, a: Action)
    requires ReturnsInOrder(s) && Enabled(s, a)
    ensures Alone(s, a)
  {
  }

  lemma InitialHonest(s: System)
    requires Initial(s) && |s.readers| == 1
    ensures ReturnsInOrder(s) && AloneInv(s)
  {
    assert AloneInv(s) by { InitialAlone(s); }
    hide AloneInv;
    assert s.readers[0] == Reader(Idle, [], 0);
    assert Total([]) == 0 && s.input[0..0] == [];
    hide Initial;
  }

  /** The outcomes of the first reader's reads. */
  function OutcomesOf(s: System): seq<Outcome>
  {
    if s.readers == [] then [] else s.readers[0].outcomes
  }

  /**
   The stream endpoint on Windows: the worker is the one reader, the owner cancels at any time. The session gets
   whole frames from the first byte on, and hears of a disconnect only at the end of the input.
   */
  lemma StreamSessionOnWindows(s: System, run: seq<Action>, host: Endian)
    requires Initial(s) && |s.readers| == 1
    requires Asked(OutcomesOf(Exec(s, run)), host)
    ensures var t := Exec(s, run); var w := Served(OutcomesOf(t), host);
      && (w.log <= Framing.Parse(t.input, host).frames || (t.ended && w.log == Framing.Delivered(t.input, [], host)))
      && (w.phase.Closed? ==> t.ended && w.log == Framing.Delivered(t.input, [], host))
      && (w.phase.Closed? <==> exists i: nat :: ShortHeader(OutcomesOf(t), i))
  {
    ReadsAreHonest(s, run);
    ServedPhase(OutcomesOf(Exec(s, run)), host);
    hide Exec, Served, ShortHeader;
    var t := Exec(s, run);
    SessionIsServed(t.readers[0].outcomes, t.input, t.ended, host);
  }

  // The object under the mutex --------------------------------------------------------------------------

  /** A round of `cancel`: whether the reader has withdrawn its handle by then, and what `cancel_io` would say. */
  datatype Round = Round(withdrawn: bool, ioCancelled: bool)

  class Impl {
    var cancelled: bool
    var handle: Option<nat>

    function View(): Shared
      reads this
    {
      Shared(cancelled, handle)
    }

    constructor ()
      ensures View() == Shared(false, None)
    {
      cancelled := false;
      handle := None;
    }

    method EnterCheck(thread: nat) returns (throws: bool)
      modifies this
      ensures (View(), throws) == Precheck(old(View()), thread)
    {
      if cancelled {
        return true;
      }
      handle := Some(thread);
      return false;
    }

    method LeaveCheck() returns (throws: bool)
      modifies this
      ensures (View(), throws) == Postcheck(old(View()))
    {
      handle := None;
      return cancelled;
    }

    /** One round of the loop in `cancel`: whether it is left, and whether it called `cancel_io`. */
    method TryOnce(ioCancelled: bool) returns (left: bool, called: bool)
      modifies this
      ensures (View(), left) == TryCancel(old(View()), ioCancelled)
      ensures called <==> old(handle).Some?
    {
      cancelled := true;
      if handle.None? {
        return true, false;
      }
      return ioCancelled, true;
    }

    /**
     A read: the two checks around the platform's read, which gives `data`, or does not return while no data comes.
     `meanwhile` are the rounds other threads' cancels make during it, with the answers of `cancel_io`.
     */
    method Read(thread: nat, size: nat, data: seq<Byte>, meanwhile: seq<bool>) returns (o: Outcome, called: bool)
      modifies this
      ensures called <==> !old(cancelled)
      ensures o == if old(cancelled) || meanwhile != [] then Threw else Returned(size, data)
      ensures called ==> handle == None && (cancelled <==> meanwhile != [])
      ensures !called ==> View() == old(View())
    {
      var throws := EnterCheck(thread);
      if throws {
        return Threw, false;
      }
      for i := 0 to |meanwhile|
        invariant handle == Some(thread) && (cancelled <==> i > 0)
      {
        var _, _ := TryOnce(meanwhile[i]);
      }
      throws := LeaveCheck();
      return if throws then Threw else Returned(size, data), true;
    }

    /** The retry loop: leaves at the first round without a handle, or whose `cancel_io` succeeds. */
    method Cancel(rounds: seq<Round>) returns (left: bool, calls: nat)
      modifies this
      ensures rounds != [] ==> cancelled
      ensures calls <= |rounds|
      ensures calls > 0 ==> old(handle).Some?
      ensures forall j :: 0 <= j < calls ==> !rounds[j].withdrawn && (j < calls - 1 ==> !rounds[j].ioCancelled)
      ensures left ==> (calls > 0 && rounds[calls - 1].ioCancelled) || handle.None?
      ensures !left ==> calls == |rounds| && forall j :: 0 <= j < calls ==> !rounds[j].ioCancelled
      ensures left && handle.None? ==> calls < |rounds| && (old(handle).None? || rounds[calls].withdrawn)
      ensures handle.Some? ==> handle == old(handle)
    {
      calls := 0;
      for i := 0 to |rounds|
        invariant calls == i && handle == old(handle) && (i > 0 ==> cancelled && handle.Some?)
        invariant forall j :: 0 <= j < i ==> !rounds[j].withdrawn && !rounds[j].ioCancelled
      {
        if rounds[i].withdrawn {
          handle := None;
        }
        var called;
        left, called := TryOnce(rounds[i].ioCancelled);
        calls := if called then calls + 1 else calls;
        if left {
          return;
        }
      }
      left := false;
    }
  }
}
