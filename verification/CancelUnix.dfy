/**
 `cancellable_read` on Unix: a read waits in `select` for the data or for the signal pipe; `cancel` writes one byte
 to that pipe, which nobody reads.
 */
module CancelUnix {
  import opened Bytes
  import Framing
  import opened StreamEndpoint

  /** Where a reading thread is: about to `select`, or past it with the data known to be there. */
  datatype Pc = Idle | Selecting(size: nat) | Reading(size: nat)

  /** `late` counts the reads that returned bytes after the first byte was written to the signal pipe. */
  datatype Reader = Reader(pc: Pc, outcomes: seq<Outcome>, late: nat)

  datatype System = System(signals: nat, readers: seq<Reader>, input: seq<Byte>, taken: nat, ended: bool)

  datatype Action =
    | Supply(data: seq<Byte>)
    | EndInput
    | StartRead(reader: nat, size: nat)
    | Interrupted(reader: nat)
    | SelectAt(reader: nat)
    | LeaveRead(reader: nat, count: nat)
    | Cancel

  function Remaining(s: System): nat
  {
    if s.taken <= |s.input| then |s.input| - s.taken else 0
  }

  predicate DataReady(s: System)
  {
    Remaining(s) > 0 || s.ended
  }

  predicate Enabled(s: System, a: Action)
  {
    match a
    case Supply(_) => !s.ended
    case EndInput => true
    case StartRead(r, _) => r < |s.readers| && s.readers[r].pc.Idle?
    case Interrupted(r) => r < |s.readers| && s.readers[r].pc.Selecting?
    case SelectAt(r) => r < |s.readers| && s.readers[r].pc.Selecting? && (s.signals > 0 || DataReady(s))
    case LeaveRead(r, count) =>
      && r < |s.readers| && s.readers[r].pc.Reading?
      && count <= Min(s.readers[r].pc.size, Remaining(s))
      && (count == s.readers[r].pc.size || (s.ended && count == Remaining(s)))
    case Cancel => true
  }

  function Step(s: System, a: Action): System
    requires Enabled(s, a)
  {
    match a
    case Supply(data) => s.(input := s.input + data)
    case EndInput => s.(ended := true)
    case StartRead(r, size) => s.(readers := s.readers[r := s.readers[r].(pc := Selecting(size))])
    case Interrupted(r) => s
    case SelectAt(r) =>
      var reader := s.readers[r];
      if s.signals > 0 then
        s.(readers := s.readers[r := Reader(Idle, reader.outcomes + [Threw], reader.late)])
      else
        s.(readers := s.readers[r := reader.(pc := Reading(reader.pc.size))])
    case LeaveRead(r, count) =>
      var reader := s.readers[r];
      var data := if s.taken + count <= |s.input| then s.input[s.taken..s.taken + count] else [];
      s.(readers := s.readers[r := Reader(Idle, reader.outcomes + [Returned(reader.pc.size, data)],
           reader.late + if s.signals > 0 then 1 else 0)],
         taken := s.taken + count)
    case Cancel => s.(signals := s.signals + 1)
  }

  function Exec(s: System, run: seq<Action>): System
    decreases |run|
  {
    if run == [] then s
    else
      var t := Exec(s, run[..|run| - 1]);
      if Enabled(t, run[|run| - 1]) then Step(t, run[|run| - 1]) else t
  }

  predicate Initial(s: System)
  {
    s.signals == 0 && s.taken == 0 && forall r :: 0 <= r < |s.readers| ==> s.readers[r] == Reader(Idle, [], 0)
  }

  // Any number of readers -------------------------------------------------------------------------------

  /** What a run from a signalled state did to a reader: the read that was past `select`, and only that, returned bytes. */
  predicate Signalled(before: Reader, after: Reader)
  {
    && |before.outcomes| <= |after.outcomes| && after.outcomes[..|before.outcomes|] == before.outcomes
    && (forall i :: |before.outcomes| <= i < |after.outcomes| ==>
          (after.outcomes[i].Returned? <==> i == |before.outcomes| && before.pc.Reading?))
    && (before.pc.Reading? && |after.outcomes| == |before.outcomes| ==> after.pc == before.pc)
    && (after.pc.Reading? ==> before.pc.Reading? && |after.outcomes| == |before.outcomes|)
  }

  lemma SignalledStep(s: System, t: System, a: Action)
    requires t.signals > 0 && |s.readers| == |t.readers| && Enabled(t, a)
    requires forall r :: 0 <= r < |s.readers| ==> Signalled(s.readers[r], t.readers[r])
    ensures var u := Step(t, a);
      && u.signals >= t.signals && |u.readers| == |t.readers|
      && forall r :: 0 <= r < |s.readers| ==> Signalled(s.readers[r], u.readers[r])
  {
  }

  /**
   The byte of a `cancel` stays in the pipe, so from then on every `select` makes its read throw; a read that ends
   returns bytes exactly if its `select` came before, which each thread can have behind it at most once.
   */
  lemma {:induction false} CancelIsFinal(s: System, run: seq<Action>)
    requires s.signals > 0
    ensures var t := Exec(s, run);
      && t.signals >= s.signals && |t.readers| == |s.readers|
      && forall r :: 0 <= r < |s.readers| ==> Signalled(s.readers[r], t.readers[r])
    decreases |run|
  {
    hide Step, Enabled, Signalled;
    if run == [] {
      assert forall r :: 0 <= r < |s.readers| ==> Signalled(s.readers[r], s.readers[r]) by { SignalledAtOnce(s); }
    } else {
      var t, a := Exec(s, run[..|run| - 1]), run[|run| - 1];
      CancelIsFinal(s, run[..|run| - 1]);
      if Enabled(t, a) {
        SignalledStep(s, t, a);
      }
    }
  }

  lemma SignalledAtOnce(s: System)
    ensures forall r :: 0 <= r < |s.readers| ==> Signalled(s.readers[r], s.readers[r])
  {
  }

  /** The signal pipe holds one byte for each `cancel` of the run, and what it held: nobody else writes, nobody reads. */
  lemma {:induction false} SignalsCounted(s: System, run: seq<Action>)
    ensures Exec(s, run).signals == s.signals + multiset(run)[Cancel]
    decreases |run|
  {
    if run != [] {
      var front, a := run[..|run| - 1], run[|run| - 1];
      SignalsCounted(s, front);
      assert run == front + [a];
    }
  }

  /** Each thread completes at most one read that returns bytes after the first cancel. */
  predicate OneLate(s: System)
  {
    forall r :: 0 <= r < |s.readers| ==>
      && s.readers[r].late + (if s.readers[r].pc.Reading? && s.signals > 0 then 1 else 0) <= 1
      && (s.readers[r].late > 0 ==> s.signals > 0)
  }

  lemma {:induction false} AtMostOneLateRead(s: System, run: seq<Action>)
    requires OneLate(s)
    ensures OneLate(Exec(s, run))
    decreases |run|
  {
    if run != [] {
      AtMostOneLateRead(s, run[..|run| - 1]);
    }
  }

  /** A read of so many bytes, one of them there, that is past its `select` when the cancel comes. */
  function Late(size: nat, n: nat): System
  {
    match n
    case 0 => System(0, [Reader(Idle, [], 0)], [], 0, false)
    case 1 => System(0, [Reader(Idle, [], 0)], [7], 0, false)
    case 2 => System(0, [Reader(Selecting(size), [], 0)], [7], 0, false)
    case 3 => System(0, [Reader(Reading(size), [], 0)], [7], 0, false)
    case _ => System(1, [Reader(Reading(size), [], 0)], [7], 0, false)
  }

  function LateAction(size: nat, n: nat): Action
  {
    match n
    case 0 => Supply([7])
    case 1 => StartRead(0, size)
    case 2 => SelectAt(0)
    case _ => Cancel
  }

  function LateRun(size: nat, n: nat): seq<Action>
  {
    if n == 0 then [] else LateRun(size, n - 1) + [LateAction(size, n - 1)]
  }

  lemma LateStep(size: nat, n: nat)
    requires n < 4
    ensures Enabled(Late(size, n), LateAction(size, n)) && Step(Late(size, n), LateAction(size, n)) == Late(size, n + 1)
  {
    assert [] + [7] == [7];
    assert |Late(size, n).readers| == 1;
  }

  lemma {:induction false} Lates(size: nat, n: nat)
    requires n <= 4
    ensures Exec(Late(size, 0), LateRun(size, n)) == Late(size, n)
  {
    if n == 0 {
      assert Exec(Late(size, 0), []) == Late(size, 0);
    } else {
      hide Exec, Late, LateAction, Step, Enabled;
      Lates(size, n - 1);
      LateStep(size, n - 1);
      ExecMore(Late(size, 0), LateRun(size, n - 1), LateAction(size, n - 1));
    }
  }

  /**
   The documented promise that a read under way exits with the exception does not hold here: a read past its `select`
   when `cancel` is called still returns its bytes.
   */
  lemma LateReadReturns() returns (s: System, before: seq<Action>)
    ensures Initial(s) && Exec(s, before).signals == 1 && OutcomesOf(Exec(s, before)) == []
    ensures OutcomesOf(Exec(s, before + [LeaveRead(0, 1)])) == [Returned(1, [7])]
  {
    s, before := Late(1, 0), LateRun(1, 4);
    hide Exec, LateRun;
    Lates(1, 4);
    ExecMore(s, before, LeaveRead(0, 1));
    assert [7][0..1] == [7] && [] + [Returned(1, [7])] == [Returned(1, [7])];
  }

  lemma ExecMore(s: System, run: seq<Action>, a: Action)
    ensures Exec(s, run + [a]) == if Enabled(Exec(s, run), a) then Step(Exec(s, run), a) else Exec(s, run)
  {
    hide Step, Enabled;
    assert (run + [a])[..|run|] == run;
    assert Exec(s, []) == s;
  }

  // A silent peer ---------------------------------------------------------------------------------------

  /** The peer neither sends nor closes; cancels may come, and any reader may go on. */
  predicate Silent(run: seq<Action>)
  {
    forall i :: 0 <= i < |run| ==> !run[i].Supply? && !run[i].EndInput?
  }

  /** No more bytes come, and those there are do not suffice for the read. */
  predicate Starved(s: System, r: nat)
  {
    r < |s.readers| && s.readers[r].pc.Reading? && !s.ended && Remaining(s) < s.readers[r].pc.size
  }

  lemma {:induction false} StaysStarved(s: System, run: seq<Action>, r: nat)
    requires Starved(s, r) && Silent(run)
    ensures Starved(Exec(s, run), r) && Exec(s, run).readers[r] == s.readers[r]
    decreases |run|
  {
    if run != [] {
      StaysStarved(s, run[..|run| - 1], r);
    }
  }

  /**
   A read past its `select` can end without a word from the peer exactly when what it asked for is there, or the input
   has ended: no `cancel` wakes it, so the owner that joins its thread waits for the peer.
   */
  lemma CancelWakesExactly(s: System, r: nat)
    requires r < |s.readers| && s.readers[r].pc.Reading?
    ensures (exists run :: Silent(run) && |Exec(s, run).readers| == |s.readers| && Exec(s, run).readers[r].pc.Idle?) <==>
      s.ended || Remaining(s) >= s.readers[r].pc.size
  {
    if s.ended || Remaining(s) >= s.readers[r].pc.size {
      var run := [LeaveRead(r, Min(s.readers[r].pc.size, Remaining(s)))];
      LeavesAtOnce(s, r);
      assert Silent(run);
    } else {
      assert Starved(s, r);
      hide Exec, Silent, Starved, Remaining;
      forall run | Silent(run)
        ensures |Exec(s, run).readers| == |s.readers| ==> !Exec(s, run).readers[r].pc.Idle?
      {
        StaysStarved(s, run, r);
      }
    }
    hide Exec, Silent, Remaining;
  }

  /** Such a read comes about: four bytes asked for, one there, and the cancel too late to be seen by its `select`. */
  lemma StarvedReadWaits() returns (s: System, before: seq<Action>)
    ensures Initial(s) && Exec(s, before).signals == 1 && Starved(Exec(s, before), 0)
    ensures forall run :: Silent(run) ==> Starved(Exec(Exec(s, before), run), 0)
  {
    s, before := Late(4, 0), LateRun(4, 4);
    Lates(4, 4);
    var t := Exec(s, before);
    assert t == Late(4, 4) && Starved(t, 0);
    hide Exec, LateRun, Starved, Silent;
    forall run | Silent(run)
      ensures Starved(Exec(t, run), 0)
    {
      StaysStarved(t, run, 0);
    }
  }

  lemma LeavesAtOnce(s: System, r: nat)
    requires r < |s.readers| && s.readers[r].pc.Reading?
    requires s.ended || Remaining(s) >= s.readers[r].pc.size
    ensures var t := Exec(s, [LeaveRead(r, Min(s.readers[r].pc.size, Remaining(s)))]);
      |t.readers| == |s.readers| && t.readers[r].pc.Idle?
  {
    var a := LeaveRead(r, Min(s.readers[r].pc.size, Remaining(s)));
    ExecMore(s, [], a);
    assert [] + [a] == [a] && Exec(s, []) == s;
  }

  // What the reads of one reader return -----------------------------------------------------------------

  ghost predicate ReturnsInOrder(s: System)
  {
    && |s.readers| == 1
    && var r := s.readers[0];
       && Honest(r.outcomes, s.input, s.ended)
       && s.taken == Total(r.outcomes) && s.taken <= |s.input|
       && (Threw in r.outcomes ==> s.signals > 0 && !r.pc.Reading?)
  }

  lemma InOrderStep(s: System, a: Action)
    requires ReturnsInOrder(s) && Enabled(s, a)
    ensures ReturnsInOrder(Step(s, a))
  {
    hide Honest, Total;
    var r := s.readers[0];
    match a
    case Supply(data) => HonestGrows(r.outcomes, s.input, s.ended, data);
    case EndInput => HonestEnds(r.outcomes, s.input, s.ended);
    case SelectAt(_) => HonestMore(r.outcomes, Threw, s.input, s.ended);
    case LeaveRead(_, count) =>
      HonestMore(r.outcomes, Returned(r.pc.size, s.input[s.taken..s.taken + count]), s.input, s.ended);
    case _ =>
  }

  lemma {:induction false} ReadsAreHonest(s: System, run: seq<Action>)
    requires Initial(s) && |s.readers| == 1
    ensures ReturnsInOrder(Exec(s, run))
    decreases |run|
  {
    if run != [] {
      hide Step, Enabled, ReturnsInOrder;
      var t, a := Exec(s, run[..|run| - 1]), run[|run| - 1];
      ReadsAreHonest(s, run[..|run| - 1]);
      if Enabled(t, a) {
        InOrderStep(t, a);
      }
    }
  }

  /** The outcomes of the first reader's reads. */
  function OutcomesOf(s: System): seq<Outcome>
  {
    if s.readers == [] then [] else s.readers[0].outcomes
  }

  /**
   The stream endpoint on Unix: the worker is the one reader, the owner cancels at any time. The session gets whole
   frames from the first byte on, and hears of a disconnect only at the end of the input.
   */
  lemma StreamSessionOnUnix(s: System, run: seq<Action>, host: Endian)
    requires Initial(s) && |s.readers| == 1
    requires Asked(OutcomesOf(Exec(s, run)), host)
    ensures var t := Exec(s, run); var w := Served(OutcomesOf(t), host);
      && (w.log <= Framing.Parse(t.input, host).frames || (t.ended && w.log == Framing.Delivered(t.input, [], host)))
      && (w.phase.Closed? ==> t.ended && w.log == Framing.Delivered(t.input, [], host))
      && (w.phase.Closed? <==> exists i: nat :: ShortHeader(OutcomesOf(t), i))
  {
    ReadsAreHonest(s, run);
    ServedPhase(OutcomesOf(Exec(s, run)), host);
    hide Exec, Served, ShortHeader;
    var t := Exec(s, run);
    SessionIsServed(OutcomesOf(t), t.input, t.ended, host);
  }

  // The object ------------------------------------------------------------------------------------------

  /** A `select`: the cancels before it, whether a signal interrupted it or it failed, and whether there is data. */
  datatype Round = Round(cancels: nat, interrupted: bool, failed: bool, data: bool)

  datatype Result = Waiting | SelectFailed | Cancelled | Entered

  /** The bytes in the signal pipe at the given round. */
  function SignalsAt(signals: nat, rounds: seq<Round>, n: nat): nat
    requires n < |rounds|
  {
    (if n == 0 then signals else SignalsAt(signals, rounds, n - 1)) + rounds[n].cancels
  }

  /** The pipe only fills. */
  lemma {:induction false} SignalsMore(signals: nat, rounds: seq<Round>, n: nat)
    requires n < |rounds|
    ensures SignalsAt(signals, rounds, n) >= signals
    ensures SignalsAt(signals, rounds, n)
         == (if n == 0 then signals else SignalsAt(signals, rounds, n - 1)) + rounds[n].cancels
  {
    if n > 0 {
      SignalsMore(signals, rounds, n - 1);
    }
  }

  /** Whether a round leaves the loop: not when interrupted, nor when neither descriptor is ready. */
  predicate Leaves(signals: nat, round: Round)
  {
    !round.interrupted && (round.failed || signals > 0 || round.data)
  }

  class Impl {
    var signals: nat

    constructor ()
      ensures signals == 0
    {
      signals := 0;
    }

    method Cancel()
      modifies this
      ensures signals == old(signals) + 1
    {
      signals := signals + 1;
    }

    /**
     The loop of `read` up to the platform's read. The first round that leaves it decides, and the signal comes before
     the data: with a byte in the pipe the platform's read is never entered.
     */
    method Read(rounds: seq<Round>) returns (result: Result, used: nat)
      modifies this
      ensures used <= |rounds| && (result.Waiting? ==> used == |rounds|)
      ensures signals == if used == 0 then old(signals) else SignalsAt(old(signals), rounds, used - 1)
      ensures forall j: nat :: j < used && (result.Waiting? || j < used - 1) ==>
        !Leaves(SignalsAt(old(signals), rounds, j), rounds[j])
      ensures !result.Waiting? ==> used > 0 && Leaves(signals, rounds[used - 1])
      ensures result.Cancelled? ==> signals > 0
      ensures result.Entered? ==> signals == 0 && old(signals) == 0 && rounds[used - 1].data
      ensures result.SelectFailed? <==> used > 0 && !rounds[used - 1].interrupted && rounds[used - 1].failed
    {
      hide SignalsAt;
      used := 0;
      while used < |rounds|
        invariant used <= |rounds|
        invariant signals == if used == 0 then old(signals) else SignalsAt(old(signals), rounds, used - 1)
        invariant forall j: nat :: j < used ==> !Leaves(SignalsAt(old(signals), rounds, j), rounds[j])
      {
        var round := rounds[used];
        used := used + 1;
        signals := signals + round.cancels;
        SignalsMore(old(signals), rounds, used - 1);
        if round.interrupted {
          continue;
        }
        if round.failed {
          return SelectFailed, used;
        }
        if signals > 0 {
          return Cancelled, used;
        }
        if round.data {
          return Entered, used;
        }
      }
      result := Waiting;
    }
  }
}
