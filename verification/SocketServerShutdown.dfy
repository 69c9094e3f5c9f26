/**
 How soon the loop of the socket server ends once its owner has sent 0 over the aux connection.
 */
module SocketServerShutdown {
  import opened Bytes
  import opened Framing
  import opened SocketServer
  import opened SocketServerInvariants
  import opened SocketServerRuns

  /** The position of the first 0 at or behind `k`, or the length. */
  function FirstZero(ids: seq<nat>, k: nat): (j: nat)
    requires k <= |ids|
    ensures k <= j <= |ids|
    ensures j < |ids| ==> ids[j] == 0
    ensures forall i :: k <= i < j ==> ids[i] != 0
    decreases |ids| - k
  {
    if k == |ids| || ids[k] == 0 then k else FirstZero(ids, k + 1)
  }

  lemma FirstZeroOf(ids: seq<nat>, k: nat, j: nat)
    requires k <= j < |ids| && ids[j] == 0 && forall i :: k <= i < j ==> ids[i] != 0
    ensures FirstZero(ids, k) == j
  {
  }

  /** The position in the aux queue of the id read next once the handshake is over. */
  function NextId(read: nat): nat
  {
    if read == 0 then 1 else read
  }

  /** The owner's 0 is in the aux queue, and not yet read. */
  predicate StopQueued(s: State)
  {
    && s.aux < |s.conns| && NextId(AuxRead(s)) <= |s.auxIds|
    && FirstZero(s.auxIds, NextId(AuxRead(s))) < |s.auxIds|
  }

  /**
   Passes to go: one for each connection up to the aux one in the backlog, one for the handshake, one for
   each id in front of the 0, and one for the 0.
   */
  function PassesToGo(s: State): nat
    requires StopQueued(s)
  {
    (if s.aux >= s.accepted then s.aux - s.accepted + 1 else 0)
    + (if AuxRead(s) == 0 then 1 else 0)
    + FirstZero(s.auxIds, NextId(AuxRead(s))) - NextId(AuxRead(s)) + 1
  }

  /** The handler whose turn brings the end nearer: the acceptor, then the aux connection's. */
  function Target(accepted: nat, aux: nat): nat
  {
    if aux >= accepted then FIRST_ID else IdOf(aux)
  }

  /** The target is still ahead of the iterator, and ready. */
  ghost predicate Pending(ahead: seq<Handler>, ready: set<nat>, target: nat)
  {
    exists i :: 0 <= i < |ahead| && ahead[i].id == target && ahead[i].fd in ready
  }

  ghost predicate TargetPending(s: State)
  {
    && s.phase.Walking? && s.cursor <= |s.handlers|
    && Pending(s.handlers[s.cursor..], s.phase.ready, Target(s.accepted, s.aux))
  }

  /** A bound on the passes that will end: a pass whose target has had its turn may end without bringing it nearer. */
  ghost function Bound(s: State): nat
    requires StopQueued(s)
  {
    PassesToGo(s) + if s.phase.Walking? && !TargetPending(s) then 1 else 0
  }

  /** The promise: `t` has ended, or the bound has been paid for the passes that ended since `s`. */
  ghost predicate Nearer(s: State, t: State)
    requires StopQueued(s)
  {
    if t.phase.Ended? then t.passes == s.passes
    else StopQueued(t) && t.passes + Bound(t) <= s.passes + Bound(s)
  }

  // Steps outside the thread ----------------------------------------------------------------------------

  lemma FirstZeroAppend(ids: seq<nat>, k: nat, id: nat)
    requires k <= |ids| && FirstZero(ids, k) < |ids|
    ensures FirstZero(ids + [id], k) == FirstZero(ids, k)
  {
    FirstZeroOf(ids + [id], k, FirstZero(ids, k));
  }

  lemma ExternalNearer(s: State, a: Action)
    requires Inv(s) && StopQueued(s) && !s.phase.Ended? && External(a) && Enabled(s, a)
    ensures Nearer(s, Step(s, a))
  {
    hide Inv, FirstZero, Scalar, Pending, StartsWithMagic, Target;
    var t := Step(s, a);
    if a.SessionDisconnects? || a.Shutdown? {
      FirstZeroAppend(s.auxIds, NextId(AuxRead(s)), if a.Shutdown? then 0 else a.id);
    }
    assert AuxRead(t) == AuxRead(s);
    assert TargetPending(t) == TargetPending(s);
  }

  // Passes begin and end --------------------------------------------------------------------------------

  /** When a pass begins, its target is listed and readable. */
  lemma TargetReady(s: State)
    requires Inv(s) && StopQueued(s)
    ensures exists h :: h in s.handlers && h.id == Target(s.accepted, s.aux) && HandlerReadable(s, h)
  {
    hide DescriptorsOk, StreamsOk, WalkOk, Others, FirstZero, GoodId, Scalars;
    var c := s.conns[s.aux];
    if s.aux >= s.accepted {
      assert s.handlers[0] in s.handlers;
    } else {
      var i :| 1 <= i < |s.handlers| && s.handlers[i].conn == s.aux by {
        if BeforeHandshake(s.handlers) {
          assert s.handlers[s.aux + 1].conn == s.aux;
        }
      }
      assert |c.sent| == 4 * |s.auxIds|;
      assert c.Available() != [];
      assert s.handlers[i] in s.handlers;
    }
  }

  lemma BeginNearer(s: State)
    requires Inv(s) && StopQueued(s) && s.phase.Selecting?
    ensures Nearer(s, BeginPass(s))
  {
    TargetReady(s);
    hide Inv, FirstZero, HandlerReadable, Target;
    var t := BeginPass(s);
    var h :| h in s.handlers && h.id == Target(s.accepted, s.aux) && HandlerReadable(s, h);
    assert h.fd in t.phase.ready;
    var i :| 0 <= i < |s.handlers| && s.handlers[i] == h;
    assert t.handlers[t.cursor..][i] == h;
    assert TargetPending(t);
  }

  lemma EndNearer(s: State)
    requires StopQueued(s) && s.phase.Walking? && s.cursor == |s.handlers|
    ensures Nearer(s, s.(phase := Selecting, passes := s.passes + 1))
  {
    hide FirstZero;
    assert s.handlers[s.cursor..] == [];
  }

  // Turns -----------------------------------------------------------------------------------------------

  /** A turn that leaves the aux queue alone, and is not the target's, leaves the bound as it was. */
  lemma Unmoved(s: State, t: State)
    requires StopQueued(s) && s.phase.Walking? && t.phase.Walking? && t.passes == s.passes
    requires t.aux == s.aux && t.auxIds == s.auxIds && s.aux < |t.conns|
    requires if s.aux < s.accepted then s.aux < t.accepted else t.accepted == s.accepted
    requires t.conns[s.aux] == s.conns[s.aux]
    requires TargetPending(s) ==> TargetPending(t)
    ensures Nearer(s, t)
  {
    hide FirstZero, TargetPending, Target;
  }

  lemma StillPending(ahead: seq<Handler>, ready: set<nat>, target: nat)
    requires ahead != [] && Pending(ahead, ready, target) && (ahead[0].id != target || ahead[0].fd !in ready)
    ensures Pending(ahead[1..], ready, target)
  {
    var i :| 0 <= i < |ahead| && ahead[i].id == target && ahead[i].fd in ready;
    assert ahead[1..][i - 1] == ahead[i];
  }

  lemma PendingBehind(s: State)
    requires s.phase.Walking? && s.cursor < |s.handlers| && TargetPending(s)
    requires Current(s).id != Target(s.accepted, s.aux) || Current(s).fd !in s.phase.ready
    ensures Pending(s.handlers[s.cursor + 1..], s.phase.ready, Target(s.accepted, s.aux))
  {
    var ahead := s.handlers[s.cursor..];
    StillPending(ahead, s.phase.ready, Target(s.accepted, s.aux));
    assert ahead[1..] == s.handlers[s.cursor + 1..];
  }

  lemma IdleNearer(s: State, fd: nat, junk: seq<Byte>)
    requires StopQueued(s) && CanTurn(s, fd) && |junk| == 4 && Current(s).fd !in s.phase.ready
    ensures Nearer(s, Turn(s, fd, junk))
  {
    hide Target, Pending;
    if TargetPending(s) {
      PendingBehind(s);
    }
    Unmoved(s, Turn(s, fd, junk));
  }

  /** What the invariant says about the id of a listed handler and the target. */
  lemma TargetIs(s: State, i: nat)
    requires Inv(s) && i < |s.handlers|
    ensures Acceptor(s.handlers[i].kind) <==> i == 0
    ensures s.handlers[i].id == Target(s.accepted, s.aux) <==>
      if i == 0 then s.aux >= s.accepted else s.aux < s.accepted && s.handlers[i].conn == s.aux
  {
    hide DescriptorsOk, StageOk, AuxOk, StreamsOk, WalkOk;
  }

  lemma AcceptNearer(s: State, fd: nat, junk: seq<Byte>)
    requires Inv(s) && StopQueued(s) && CanTurn(s, fd) && |junk| == 4
    requires Current(s).fd in s.phase.ready && Acceptor(Current(s).kind)
    ensures Nearer(s, Turn(s, fd, junk))
  {
    hide Inv, Turn, FirstZero, Pending;
    var h := Handler(s.nextId, fd, s.accepted, if BeforeHandshake(s.handlers) then Preinit else Session);
    AcceptTurn(s, fd, junk, h);
    var t := Turn(s, fd, junk);
    TargetIs(s, s.cursor);
    if s.aux < s.accepted {
      if TargetPending(s) {
        PendingBehind(s);
        PendingMore(s.handlers[1..], h, s.phase.ready, IdOf(s.aux));
        assert t.handlers[1..] == s.handlers[1..] + [h];
      }
      Unmoved(s, t);
    }
  }

  lemma PendingMore(ahead: seq<Handler>, h: Handler, ready: set<nat>, target: nat)
    requires Pending(ahead, ready, target)
    ensures Pending(ahead + [h], ready, target)
  {
    var i :| 0 <= i < |ahead| && ahead[i].id == target && ahead[i].fd in ready;
    assert (ahead + [h])[i] == ahead[i];
  }

  /** Before the handshake the aux connection shows the magic. */
  lemma AuxShowsMagic(s: State)
    requires Inv(s) && BeforeHandshake(s.handlers)
    ensures StartsWithMagic(s.conns[s.aux].Available()) && AuxRead(s) == 0
  {
    hide DescriptorsOk, StreamsOk, WalkOk, StageOk, ListOk, Declared, GoodId;
    var c := s.conns[s.aux];
    ScalarsAt(s.auxIds, 0);
    assert c.Available() == Scalars(s.auxIds);
    assert c.Available()[..4] == Scalar(INIT_MAGIC);
    DeclaredOfHeader(INIT_MAGIC, c.Available()[4..], Big);
    assert c.Available() == Scalar(INIT_MAGIC) + c.Available()[4..];
  }

  lemma PeekNearer(s: State, fd: nat, junk: seq<Byte>)
    requires Inv(s) && StopQueued(s) && CanTurn(s, fd) && |junk| == 4
    requires Current(s).fd in s.phase.ready && Current(s).kind.Preinit?
    requires !StartsWithMagic(s.conns[Current(s).conn].Available())
    ensures Nearer(s, Turn(s, fd, junk))
  {
    hide Inv, Target, Pending, StartsWithMagic;
    MagicIsAux(s);
    AuxShowsMagic(s);
    TargetIs(s, s.cursor);
    if TargetPending(s) {
      PendingBehind(s);
    }
    Unmoved(s, Turn(s, fd, junk));
  }

  lemma HandshakeNearer(s: State, fd: nat, junk: seq<Byte>)
    requires Inv(s) && StopQueued(s) && CanTurn(s, fd) && |junk| == 4
    requires Current(s).fd in s.phase.ready && Current(s).kind.Preinit?
    requires StartsWithMagic(s.conns[Current(s).conn].Available())
    ensures Nearer(s, Turn(s, fd, junk))
  {
    hide Inv, Turn, FirstZero, TargetPending, StartsWithMagic;
    MagicIsAux(s);
    AuxShowsMagic(s);
    HandshakeTurn(s, fd, junk);
    NotConsumed(s);
    var t := Turn(s, fd, junk);
    assert AuxRead(t) == 1;
    assert PassesToGo(t) == PassesToGo(s) - 1;
  }

  lemma NotConsumed(s: State)
    requires Inv(s) && BeforeHandshake(s.handlers)
    ensures s.conns[s.aux].consumed == 0
  {
    hide DescriptorsOk, StreamsOk, WalkOk, StageOk, ListOk;
  }

  lemma SessionNearer(s: State, fd: nat, junk: seq<Byte>)
    requires Inv(s) && StopQueued(s) && CanTurn(s, fd) && |junk| == 4
    requires Current(s).fd in s.phase.ready && Current(s).kind.Session?
    ensures Nearer(s, Turn(s, fd, junk))
  {
    hide Inv, Target, Pending, Turn, FrameComes;
    SessionLive(s);
    TargetIs(s, s.cursor);
    var t := Turn(s, fd, junk);
    if TargetPending(s) {
      PendingBehind(s);
    }
    if s.conns[Current(s).conn].Available() == [] {
      DisconnectTurn(s, fd, junk);
      assert t.handlers[t.cursor..] == s.handlers[s.cursor + 1..];
    } else {
      MessageTurn(s, fd, junk);
    }
    Unmoved(s, t);
  }

  lemma AuxNearer(s: State, fd: nat, junk: seq<Byte>)
    requires Inv(s) && StopQueued(s) && CanTurn(s, fd) && |junk| == 4
    requires Current(s).fd in s.phase.ready && Current(s).kind.Aux?
    ensures Nearer(s, Turn(s, fd, junk))
  {
    hide Inv, Turn, TargetPending, HeaderBytes, Declared, Erased, CanTurn;
    AuxReads(s, fd, junk);
    AuxTurn(s, fd, junk);
    var t, k := Turn(s, fd, junk), AuxRead(s);
    ZeroIsUnknown(s);
    AuxAccepted(s);
    if !t.phase.Ended? {
      assert s.auxIds[k] != 0;
      assert AuxRead(t) == k + 1 by { AuxReadsMore(s); }
      assert PassesToGo(t) == PassesToGo(s) - 1;
    }
  }

  lemma AuxAccepted(s: State)
    requires Inv(s) && !BeforeHandshake(s.handlers)
    ensures s.aux < s.accepted
  {
    hide DescriptorsOk, StreamsOk, WalkOk, AuxOk, ListOk;
  }

  lemma ZeroIsUnknown(s: State)
    requires Inv(s)
    ensures IndexOf(s.handlers, 0) == |s.handlers|
  {
    hide DescriptorsOk, StreamsOk, WalkOk, AuxOk, StageOk;
  }

  lemma TurnNearer(s: State, fd: nat, junk: seq<Byte>)
    requires Inv(s) && StopQueued(s) && CanTurn(s, fd) && |junk| == 4
    ensures Nearer(s, Turn(s, fd, junk))
  {
    hide Inv, Turn, StopQueued, Nearer;
    if Current(s).fd !in s.phase.ready {
      IdleNearer(s, fd, junk);
    } else {
      match Current(s).kind
      case AcceptPreinit => AcceptNearer(s, fd, junk);
      case AcceptRegular => AcceptNearer(s, fd, junk);
      case Preinit =>
        if StartsWithMagic(s.conns[Current(s).conn].Available()) {
          HandshakeNearer(s, fd, junk);
        } else {
          PeekNearer(s, fd, junk);
        }
      case Session => SessionNearer(s, fd, junk);
      case Aux => AuxNearer(s, fd, junk);
    }
  }

  lemma StepNearer(s: State, a: Action)
    requires Inv(s) && StopQueued(s) && !s.phase.Ended? && Enabled(s, a)
    ensures Nearer(s, Step(s, a))
  {
    hide Inv, StopQueued, Turn;
    match a
    case Select => BeginNearer(s);
    case SelectFails =>
    case TurnAt(fd, junk) => TurnNearer(s, fd, junk);
    case EndPass => EndNearer(s);
    case _ => ExternalNearer(s, a);
  }

  // The thread can move ---------------------------------------------------------------------------------

  /** At the head of the list, a ready acceptor still has a connection to accept. */
  predicate AcceptorOk(s: State)
  {
    s.phase.Walking? && s.cursor == 0 && s.handlers != [] && s.handlers[0].fd in s.phase.ready ==> s.accepted < |s.conns|
  }

  lemma BeginAcceptor(s: State)
    requires Inv(s) && Enabled(s, Select)
    ensures AcceptorOk(BeginPass(s))
  {
    hide StageOk, AuxOk, StreamsOk, WalkOk;
    if s.handlers[0].fd in ReadyFds(s) {
      var h :| h in s.handlers && HandlerReadable(s, h) && h.fd == s.handlers[0].fd;
      assert h == s.handlers[0];
    }
  }

  /** A turn leaves the head of the list behind. */
  lemma HeadBehind(s: State, fd: nat, junk: seq<Byte>)
    requires Inv(s) && CanTurn(s, fd) && |junk| == 4
    ensures var t := Turn(s, fd, junk); t.phase.Walking? ==> t.cursor >= 1
  {
    TargetIs(s, s.cursor);
    if Current(s).fd in s.phase.ready {
      hide Inv, Turn, FrameComes, StartsWithMagic, HeaderBytes, Declared;
      match Current(s).kind
      case AcceptPreinit =>
        AcceptTurn(s, fd, junk, Handler(s.nextId, fd, s.accepted, if BeforeHandshake(s.handlers) then Preinit else Session));
      case AcceptRegular =>
        AcceptTurn(s, fd, junk, Handler(s.nextId, fd, s.accepted, if BeforeHandshake(s.handlers) then Preinit else Session));
      case Preinit => PeekBehind(s, fd, junk);
      case Session =>
        SessionLive(s);
        if s.conns[Current(s).conn].Available() == [] {
          DisconnectTurn(s, fd, junk);
        } else {
          MessageTurn(s, fd, junk);
        }
      case Aux =>
        AuxReads(s, fd, junk);
        AuxTurn(s, fd, junk);
    }
  }

  lemma PeekBehind(s: State, fd: nat, junk: seq<Byte>)
    requires CanTurn(s, fd) && |junk| == 4 && Current(s).fd in s.phase.ready && Current(s).kind.Preinit?
    ensures Turn(s, fd, junk).cursor == s.cursor + 1
  {
    hide StartsWithMagic, Installed;
  }

  lemma {:induction false} RunAcceptor(s: State, run: seq<Action>)
    requires Inv(s) && AcceptorOk(s)
    ensures AcceptorOk(Exec(s, run))
    decreases |run|
  {
    hide Inv, Turn, CanTurn, StartsWithMagic, ReadyFds;
    if run != [] {
      var t, a := Exec(s, run[..|run| - 1]), run[|run| - 1];
      RunAcceptor(s, run[..|run| - 1]);
      RunInv(s, run[..|run| - 1]);
      if Enabled(t, a) {
        match a
        case Select => BeginAcceptor(t);
        case TurnAt(fd, junk) => HeadBehind(t, fd, junk);
        case _ =>
      }
    }
  }

  /** The thread waits for the rest of a frame of a session whose client neither sends it nor closes. */
  predicate MidFrame(s: State)
  {
    && s.phase.Walking? && s.cursor < |s.handlers| && Current(s).fd in s.phase.ready && Current(s).kind.Session?
    && Current(s).conn < |s.conns|
    && var c := s.conns[Current(s).conn];
       !c.closed && (|c.Available()| < 4 || |c.Available()| - 4 < Declared(c.Available(), Big))
  }

  /** The aux connection has an id to read. */
  lemma AuxFull(s: State)
    requires Inv(s) && StopQueued(s) && !BeforeHandshake(s.handlers)
    ensures |s.conns[s.aux].Available()| >= 4
  {
    hide ListOk, DescriptorsOk, StageOk, StreamsOk, WalkOk, FirstZero, GoodId;
    assert |s.conns[s.aux].sent| == 4 * |s.auxIds|;
  }

  lemma CanTurnUnlessMidFrame(s: State, fd: nat)
    requires Inv(s) && AcceptorOk(s) && StopQueued(s) && s.phase.Walking? && s.cursor < |s.handlers|
    requires fd !in s.open && s.nextId < U32_LIMIT - 1
    ensures CanTurn(s, fd) <==> !MidFrame(s)
  {
    ConnKnown(s);
    TargetIs(s, s.cursor);
    hide Inv, StopQueued, Declared;
    if Current(s).kind.Aux? {
      AuxFull(s);
    }
  }

  lemma ConnKnown(s: State)
    requires Inv(s) && s.cursor < |s.handlers|
    ensures !Acceptor(Current(s).kind) ==> Current(s).conn < |s.conns|
    ensures Current(s).kind.Aux? ==> Current(s).conn == s.aux && !BeforeHandshake(s.handlers)
  {
    hide DescriptorsOk, AuxOk, StreamsOk, WalkOk, Live, Others;
  }

  /**
   In every reachable state of a running loop with a 0 unread, and while ids and descriptors last, the thread has a step
   to take, unless it waits for the rest of a frame of one client: this alone can keep the bound from being reached.
   */
  lemma ThreadMovesExactly(s: State, run: seq<Action>, fd: nat, junk: seq<Byte>)
    requires Inv(s) && AcceptorOk(s) && |junk| == 4
    requires var t := Exec(s, run);
      StopQueued(t) && !t.phase.Ended? && fd !in t.open && t.nextId < U32_LIMIT - 1
    ensures var t := Exec(s, run);
      Enabled(t, Select) || Enabled(t, TurnAt(fd, junk)) || Enabled(t, EndPass) <==> !MidFrame(t)
  {
    RunInv(s, run);
    RunAcceptor(s, run);
    var t := Exec(s, run);
    hide Exec, AcceptorOk, StopQueued, Inv, Enabled, MidFrame;
    if t.phase.Selecting? {
      SelectMoves(t, fd, junk);
    } else if t.cursor < |t.handlers| {
      CanTurnUnlessMidFrame(t, fd);
      WalkMoves(t, fd, junk);
    } else {
      CursorAtEnd(t);
      EndMoves(t, fd, junk);
    }
  }

  lemma SelectMoves(s: State, fd: nat, junk: seq<Byte>)
    requires Inv(s) && StopQueued(s) && s.phase.Selecting?
    ensures Enabled(s, Select) && !MidFrame(s)
  {
    TargetReady(s);
    hide Inv, StopQueued, HandlerReadable, Target;
    var h :| h in s.handlers && h.id == Target(s.accepted, s.aux) && HandlerReadable(s, h);
    assert h.fd in ReadyFds(s);
  }

  lemma WalkMoves(s: State, fd: nat, junk: seq<Byte>)
    requires s.phase.Walking? && s.cursor < |s.handlers| && |junk| == 4
    ensures !Enabled(s, Select) && !Enabled(s, EndPass) && (Enabled(s, TurnAt(fd, junk)) <==> CanTurn(s, fd))
  {
    hide CanTurn, ReadyFds;
  }

  lemma EndMoves(s: State, fd: nat, junk: seq<Byte>)
    requires s.phase.Walking? && s.cursor == |s.handlers|
    ensures Enabled(s, EndPass) && !MidFrame(s)
  {
    hide Declared;
  }

  lemma CursorAtEnd(s: State)
    requires Inv(s) && s.phase.Walking? && s.cursor >= |s.handlers|
    ensures s.cursor == |s.handlers|
  {
    hide ListOk, DescriptorsOk, StageOk, AuxOk, StreamsOk, AheadOk;
  }

  /** Once the loop has ended, no pass begins or ends. */
  lemma EndedStays(s: State, a: Action)
    requires s.phase.Ended? && Enabled(s, a)
    ensures var t := Step(s, a); t.phase == s.phase && t.passes == s.passes
  {
    hide StartsWithMagic;
  }

  /**
   From any reachable state in which the owner's 0 waits in the aux queue, and for every run that follows: the
   loop ends before `Bound` passes have been completed.
   */
  lemma {:induction false} StopsWithinBound(s: State, run: seq<Action>)
    requires Inv(s) && StopQueued(s) && !s.phase.Ended?
    ensures Exec(s, run).passes < s.passes + Bound(s)
    ensures !Exec(s, run).phase.Ended? ==> Nearer(s, Exec(s, run))
    decreases |run|
  {
    hide Inv, Turn, StopQueued, TargetPending, FirstZero, Step, Enabled;
    if run != [] {
      var t, a := Exec(s, run[..|run| - 1]), run[|run| - 1];
      StopsWithinBound(s, run[..|run| - 1]);
      RunInv(s, run[..|run| - 1]);
      if Enabled(t, a) {
        if t.phase.Ended? {
          EndedStays(t, a);
        } else {
          StepNearer(t, a);
        }
      }
    }
  }

  /**
   The destructor sends 0: from any reachable state of a running loop, whatever the clients and the sessions do
   afterwards, the loop ends before more passes are completed than: the connections up to the aux one in
   the backlog, the handshake, the ids already in the queue, the 0, and the pass under way.
   */
  lemma DestructorStopsTheLoop(s: State, run: seq<Action>)
    requires Inv(s) && !s.phase.Ended?
    ensures Enabled(s, Shutdown)
    ensures NextId(AuxRead(s)) <= |s.auxIds|
    ensures var backlog := if s.aux >= s.accepted then s.aux - s.accepted + 1 else 0;
      var handshake := if BeforeHandshake(s.handlers) then 1 else 0;
      var queued := |s.auxIds| - NextId(AuxRead(s));
      Exec(Step(s, Shutdown), run).passes <= s.passes + backlog + handshake + queued + 1
  {
    hide Inv, Exec, TargetPending, Scalar;
    ShutdownInv(s);
    var t := Step(s, Shutdown);
    assert t.auxIds[|s.auxIds|] == 0;
    assert AuxRead(t) == AuxRead(s);
    StopsWithinBound(t, run);
  }

  lemma ShutdownInv(s: State)
    requires Inv(s)
    ensures Enabled(s, Shutdown) && Inv(Step(s, Shutdown))
    ensures NextId(AuxRead(s)) <= |s.auxIds| && (BeforeHandshake(s.handlers) <==> AuxRead(s) == 0)
  {
    SendAuxInv(s, 0);
    hide ListOk, DescriptorsOk, StageOk, StreamsOk, WalkOk;
  }
}
