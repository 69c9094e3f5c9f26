/**
 What the invariant of the socket server means for whole runs: what sessions receive, which handlers a pass
 visits, how a handler leaves the list, when the loop ends, and how soon after the owner asked it to.
 */
module SocketServerRuns {
  import opened Bytes
  import opened Framing
  import opened SocketServer
  import opened SocketServerInvariants

  // Runs one after the other ----------------------------------------------------------------------------

  lemma ExecOne(s: State, a: Action)
    ensures Exec(s, [a]) == if Enabled(s, a) then Step(s, a) else s
  {
    hide Enabled, Step;
    assert [a][..0] == [];
    assert Exec(s, []) == s;
  }

  lemma {:induction false} ExecAppend(s: State, run: seq<Action>, more: seq<Action>)
    ensures Exec(s, run + more) == Exec(Exec(s, run), more)
    decreases |more|
  {
    hide Enabled, Step;
    if more == [] {
      assert run + more == run;
    } else {
      ExecAppend(s, run, more[..|more| - 1]);
      assert (run + more)[..|run + more| - 1] == run + more[..|more| - 1];
    }
  }

  lemma ExecMore(s: State, run: seq<Action>, a: Action)
    requires Enabled(Exec(s, run), a)
    ensures Exec(s, run + [a]) == Step(Exec(s, run), a)
  {
    hide Enabled, Step;
    ExecAppend(s, run, [a]);
    ExecOne(Exec(s, run), a);
  }

  // What a session receives -----------------------------------------------------------------------------

  /** Whether the server has read beyond the last whole frame of the client's stream. */
  predicate ReadIntoCutFrame(c: Conn)
  {
    c.consumed > |c.sent| - |Parse(c.sent, Big).rest|
  }

  lemma WholeFramesAreFrames(c: Conn, delivered: seq<seq<Byte>>)
    requires WholeFrames(c, delivered)
    ensures delivered <= Parse(c.sent, Big).frames
    ensures !ReadIntoCutFrame(c)
    ensures c.consumed == |c.sent| ==> Parse(c.sent, Big) == Parsed(delivered, [])
  {
    hide Parse, EncodeAll;
    var more := c.sent[c.consumed..];
    assert c.sent == c.sent[..c.consumed] + more;
    FramesOfPrefix(delivered, more, Big);
    EncodedOfParsed(more, Big);
    assert |Parse(more, Big).rest| <= |more|;
    if more == [] {
      ParseOfRest(more, Big);
      assert delivered + [] == delivered;
    }
  }

  /**
   In every reachable state the messages given to a session are a prefix of the frames its client sent, from
   the first byte, exactly when the server has not read into a frame the client never finished. Once the
   session was told of the disconnect they are a prefix exactly when the client closed between two frames,
   and then they are all the frames.
   */
  lemma SessionSeesItsFrames(s: State, run: seq<Action>, conn: nat)
    requires Inv(s) && conn in Exec(s, run).logs
    ensures conn < |Exec(s, run).conns|
    ensures var t := Exec(s, run); var c := t.conns[conn]; var got := Payloads(t.logs[conn]); var p := Parse(c.sent, Big);
      && (got <= p.frames <==> !ReadIntoCutFrame(c))
      && (ReadIntoCutFrame(c) ==> c.closed && p.rest != [])
      && (Gone(t.logs[conn]) ==> c.closed && (got <= p.frames <==> p.rest == []) && (p.rest == [] ==> got == p.frames))
  {
    RunInv(s, run);
    var t := Exec(s, run);
    LoggedStream(t, conn);
    hide Inv, Exec, Parse, Payloads;
    var c, got := t.conns[conn], Payloads(t.logs[conn]);
    if WholeFrames(c, got) {
      WholeFramesAreFrames(c, got);
    } else {
      assert |got| > |Parse(c.sent, Big).frames|;
    }
  }

  lemma LoggedStream(s: State, conn: nat)
    requires Inv(s) && conn in s.logs
    ensures conn < |s.conns| && conn != s.aux && SessionOk(s.conns[conn], s.logs[conn], Live(s.handlers, conn))
  {
    hide ListOk, DescriptorsOk, AuxOk, WalkOk, SessionOk, Live, Others, Declared;
    assert StreamOk(conn, s.conns[conn], s.handlers, s.logs);
  }

  /**
   Encoder and server together: while a client sends the encodings of payloads, and does not close before the last,
   its session has been given a prefix of the payloads; told of the disconnect, it has been given all of them.
   */
  lemma SessionSeesItsPayloads(s: State, run: seq<Action>, conn: nat, payloads: seq<seq<Byte>>)
    requires Inv(s) && Fits(payloads)
    requires var t := Exec(s, run);
      && conn in t.logs && conn < |t.conns| && t.conns[conn].sent <= EncodeAll(payloads, Big)
      && (t.conns[conn].closed ==> t.conns[conn].sent == EncodeAll(payloads, Big))
    ensures var log := Exec(s, run).logs[conn];
      Payloads(log) <= payloads && (Gone(log) ==> Payloads(log) == payloads)
  {
    hide Inv, Exec, Parse, Payloads, EncodeAll, ReadIntoCutFrame, Fits, Gone;
    SessionSeesItsFrames(s, run, conn);
    var t := Exec(s, run);
    PrefixOfEncoded(t.conns[conn].sent, payloads);
    var got, frames := Payloads(t.logs[conn]), Parse(t.conns[conn].sent, Big).frames;
    assert got <= frames <= payloads;
    assert got == frames[..|got|] == payloads[..|got|];
  }

  lemma PrefixOfEncoded(sent: seq<Byte>, payloads: seq<seq<Byte>>)
    requires Fits(payloads) && sent <= EncodeAll(payloads, Big)
    ensures Parse(sent, Big).frames <= payloads
    ensures sent == EncodeAll(payloads, Big) ==> Parse(sent, Big) == Parsed(payloads, [])
  {
    hide Parse, EncodeAll;
    var all := EncodeAll(payloads, Big);
    ParseGrows(sent, all[|sent|..], Big);
    assert sent + all[|sent|..] == all && all + [] == all;
    ParseOfEncoded(payloads, [], Big);
  }

  // A session that has left -----------------------------------------------------------------------------

  /** The session's handler is not listed, and its log is the given one. */
  predicate Left(s: State, conn: nat, log: seq<Event>)
  {
    conn in s.logs && s.logs[conn] == log && !Live(s.handlers, conn)
  }

  lemma AcceptLeaves(s: State, fd: nat, junk: seq<Byte>, conn: nat, log: seq<Event>)
    requires Inv(s) && CanTurn(s, fd) && |junk| == 4 && Left(s, conn, log)
    requires Current(s).fd in s.phase.ready && Acceptor(Current(s).kind)
    ensures Left(Turn(s, fd, junk), conn, log)
  {
    hide Turn, DescriptorsOk, AuxOk, StreamsOk, WalkOk, Live, Others;
    var h := Handler(s.nextId, fd, s.accepted, if BeforeHandshake(s.handlers) then Preinit else Session);
    AcceptTurn(s, fd, junk, h);
    AcceptedLive(s.handlers, h);
  }

  /** Before the handshake no session can have left. */
  lemma NobodyLeftYet(s: State, conn: nat, log: seq<Event>)
    requires Inv(s) && Left(s, conn, log)
    ensures !BeforeHandshake(s.handlers)
  {
    hide ListOk, DescriptorsOk, AuxOk, StreamsOk, WalkOk;
  }

  lemma SessionLeaves(s: State, fd: nat, junk: seq<Byte>, conn: nat, log: seq<Event>)
    requires Inv(s) && CanTurn(s, fd) && |junk| == 4 && Left(s, conn, log)
    requires Current(s).fd in s.phase.ready && Current(s).kind.Session?
    ensures Left(Turn(s, fd, junk), conn, log)
  {
    hide Turn, Live, DescriptorsOk, AuxOk, StreamsOk, WalkOk, StageOk, Erased, FrameComes;
    SessionLive(s);
    if s.conns[Current(s).conn].Available() == [] {
      DisconnectTurn(s, fd, junk);
      ErasedList(s.handlers, s.cursor, s.nextId, s.accepted);
    } else {
      MessageTurn(s, fd, junk);
    }
  }

  lemma AuxLeaves(s: State, fd: nat, junk: seq<Byte>, conn: nat, log: seq<Event>)
    requires Inv(s) && CanTurn(s, fd) && |junk| == 4 && Left(s, conn, log)
    requires Current(s).fd in s.phase.ready && Current(s).kind.Aux?
    ensures Left(Turn(s, fd, junk), conn, log)
  {
    hide Turn, Live, DescriptorsOk, AuxOk, StreamsOk, WalkOk, StageOk, Erased, CanTurn;
    AuxTurn(s, fd, junk);
    var i := IndexOf(s.handlers, s.auxIds[AuxRead(s)]);
    if i < |s.handlers| {
      ErasedList(s.handlers, i, s.nextId, s.accepted);
    }
  }

  lemma TurnLeaves(s: State, fd: nat, junk: seq<Byte>, conn: nat, log: seq<Event>)
    requires Inv(s) && CanTurn(s, fd) && |junk| == 4 && Left(s, conn, log)
    ensures Left(Turn(s, fd, junk), conn, log)
  {
    NobodyLeftYet(s, conn, log);
    hide Inv, Live;
    if Current(s).fd in s.phase.ready {
      hide Turn, Left;
      match Current(s).kind
      case AcceptPreinit => AcceptLeaves(s, fd, junk, conn, log);
      case AcceptRegular => AcceptLeaves(s, fd, junk, conn, log);
      case Preinit => MagicIsAux(s);
      case Session => SessionLeaves(s, fd, junk, conn, log);
      case Aux => AuxLeaves(s, fd, junk, conn, log);
    }
  }

  /**
   Nothing is given to a session after its handler has left the list, whether it was told of a disconnect or erased over
   the aux connection; and the handler does not come back.
   */
  lemma {:induction false} SilentAfterLeaving(s: State, run: seq<Action>, conn: nat, log: seq<Event>)
    requires Inv(s) && Left(s, conn, log)
    ensures Inv(Exec(s, run)) && Left(Exec(s, run), conn, log)
    decreases |run|
  {
    hide Inv, Turn, Live, CanTurn, StartsWithMagic;
    if run != [] {
      var t, a := Exec(s, run[..|run| - 1]), run[|run| - 1];
      SilentAfterLeaving(s, run[..|run| - 1], conn, log);
      if Enabled(t, a) {
        StepInv(t, a);
        if a.TurnAt? {
          TurnLeaves(t, a.fd, a.junk, conn, log);
        }
      }
    }
  }

  // Sessions created ------------------------------------------------------------------------------------

  lemma {:induction false} OthersExactly(n: nat, aux: nat)
    ensures forall c: nat :: c in Others(n, aux) <==> c < n && c != aux
    ensures forall i, j :: 0 <= i < j < |Others(n, aux)| ==> Others(n, aux)[i] < Others(n, aux)[j]
    ensures |Others(n, aux)| == if aux < n then n - 1 else n
  {
    if n > 0 {
      OthersExactly(n - 1, aux);
      var front := Others(n - 1, aux);
      assert forall i :: 0 <= i < |front| ==> front[i] in front;
    }
  }

  /**
   Over every run `create_session` is called once, in the order of their arrival, for each connection accepted
   other than the aux one: for none before the handshake, for all but one of the accepted ones after it.
   */
  lemma OneSessionPerConnection(s: State, run: seq<Action>)
    requires Inv(s)
    ensures Exec(s, run).handlers != []
    ensures var t := Exec(s, run);
      && (forall i, j :: 0 <= i < j < |t.created| ==> t.created[i] < t.created[j])
      && (forall c: nat :: c in t.created <==> !BeforeHandshake(t.handlers) && c < t.accepted && c != t.aux)
      && |t.created| == if BeforeHandshake(t.handlers) then 0 else t.accepted - 1
  {
    RunInv(s, run);
    var t := Exec(s, run);
    hide Exec, DescriptorsOk, AuxOk, StreamsOk, WalkOk, Live, Others;
    OthersExactly(t.accepted, t.aux);
  }

  // One pass --------------------------------------------------------------------------------------------

  function PassMeasure(s: State): int
  {
    |s.handlers| - s.cursor + (if s.cursor == 0 then 1 else 0)
  }

  /** The walk over the list ends, although the list grows and shrinks under it. */
  lemma TurnDecreases(s: State, fd: nat, junk: seq<Byte>)
    requires Inv(s) && CanTurn(s, fd) && |junk| == 4
    ensures var t := Turn(s, fd, junk); t.phase.Walking? ==> 0 <= PassMeasure(t) < PassMeasure(s)
  {
    TurnInv(s, fd, junk);
    hide DescriptorsOk, AuxOk, StreamsOk, StageOk, AheadOk, TakeFrame, Declared, HeaderBytes, Inv, Install;
    assert s.cursor <= |s.handlers|;
    if Current(s).fd in s.phase.ready {
      match Current(s).kind
      case AcceptPreinit => AcceptedAtHead(s);
      case AcceptRegular => AcceptedAtHead(s);
      case Preinit =>
      case Session =>
      case Aux => AuxTurn(s, fd, junk);
    }
  }

  lemma AcceptedAtHead(s: State)
    requires Inv(s) && s.cursor < |s.handlers| && Acceptor(Current(s).kind)
    ensures s.cursor == 0
  {
    hide DescriptorsOk, AuxOk, StreamsOk, StageOk, WalkOk;
  }

  /** What every dispatch leaves alone. */
  predicate Steady(s: State, t: State)
  {
    t.aux == s.aux && t.passes == s.passes && (s.phase.Walking? ==> t.phase.Walking? && t.phase.due == s.phase.due)
  }

  lemma AuxSteady(s: State, conn: nat, junk: seq<Byte>)
    requires conn < |s.conns| && |junk| == 4
    ensures Steady(s, HandleAux(s, conn, junk).0)
  {
    hide Declared, HeaderBytes, IndexOf;
  }

  lemma SessionSteady(s: State, conn: nat, junk: seq<Byte>)
    requires conn < |s.conns| && |junk| == 4
    ensures Steady(s, HandleSession(s, conn, junk).0)
  {
    hide TakeFrame;
  }

  lemma PreinitSteady(s: State, h: Handler)
    requires h.conn < |s.conns|
    ensures Steady(s, HandlePreinit(s, h))
  {
    hide StartsWithMagic, Installed;
  }

  lemma DispatchSteady(s: State, h: Handler, fd: nat, junk: seq<Byte>)
    requires |junk| == 4 && (Acceptor(h.kind) || h.conn < |s.conns|)
    ensures Steady(s, Dispatch(s, h, fd, junk).0)
  {
    hide HandleAux, HandleSession, HandlePreinit;
    match h.kind
    case AcceptPreinit =>
    case AcceptRegular =>
    case Preinit => PreinitSteady(s, h);
    case Session => SessionSteady(s, h.conn, junk);
    case Aux => AuxSteady(s, h.conn, junk);
  }

  lemma TurnSteady(s: State, fd: nat, junk: seq<Byte>)
    requires CanTurn(s, fd) && |junk| == 4
    ensures var t := Turn(s, fd, junk);
      t.aux == s.aux && t.passes == s.passes && (t.phase.Ended? || (t.phase.Walking? && t.phase.due == s.phase.due))
  {
    hide Dispatch, FrameComes;
    if Current(s).fd in s.phase.ready {
      DispatchSteady(Visit(s, Current(s).id), Current(s), fd, junk);
    }
  }

  /** What `Select` makes due stays so until the pass is over. */
  lemma {:induction false} DueStays(s: State, run: seq<Action>)
    requires s.phase.Walking?
    ensures var t := Exec(s, run);
      && t.passes >= s.passes
      && (t.passes == s.passes ==> t.phase.Ended? || (t.phase.Walking? && t.phase.due == s.phase.due))
    decreases |run|
  {
    hide Turn, FrameComes, StartsWithMagic;
    if run != [] {
      var t, a := Exec(s, run[..|run| - 1]), run[|run| - 1];
      DueStays(s, run[..|run| - 1]);
      if Enabled(t, a) && a.TurnAt? {
        TurnSteady(t, a.fd, a.junk);
      }
    }
  }

  /**
   A pass, from `select` to the end of the list, whatever happens around it: it dispatches each handler that was
   listed and ready when it began, once and in the order of the list, except one that the aux handler erased
   before its turn; and no other handler, in particular none accepted meanwhile.
   */
  lemma PassVisitsTheReady(s: State, run: seq<Action>)
    requires Inv(s) && s.phase.Selecting? && ReadyFds(s) != {}
    requires var t := Exec(BeginPass(s), run);
      t.passes == s.passes && t.phase.Walking? && t.cursor == |t.handlers|
    ensures var w := Exec(BeginPass(s), run).phase;
      && (forall i, j :: 0 <= i < j < |w.visited| ==> w.visited[i] < w.visited[j])
      && (forall id :: id in w.visited <==>
            (exists h :: h in s.handlers && h.id == id && HandlerReadable(s, h)) && id !in w.skipped)
      && |w.skipped| <= 1 && (w.skipped != {} ==> IdOf(s.aux) in w.visited)
  {
    hide Exec, Inv, HandlerReadable, ReadyFds;
    var b := BeginPass(s);
    assert b == Step(s, Select);
    BeginPassInv(s);
    RunInv(b, run);
    PassEnd(Exec(b, run));
    DueStays(b, run);
    AuxStays(b, run);
    DueIsReadable(s);
  }

  lemma PassEnd(s: State)
    requires Inv(s) && s.phase.Walking? && s.cursor == |s.handlers|
    ensures var w := s.phase;
      && (forall i, j :: 0 <= i < j < |w.visited| ==> w.visited[i] < w.visited[j])
      && (forall id :: id in w.visited <==> id in w.due && id !in w.skipped)
      && |w.skipped| <= 1 && (w.skipped != {} ==> IdOf(s.aux) in w.visited)
  {
    hide ListOk, DescriptorsOk, StageOk, AuxOk, StreamsOk;
    assert s.handlers[s.cursor..] == [];
  }

  lemma DueIsReadable(s: State)
    requires Inv(s)
    ensures forall id :: id in BeginPass(s).phase.due <==> exists h :: h in s.handlers && h.id == id && HandlerReadable(s, h)
  {
    hide ListOk, StageOk, AuxOk, StreamsOk, WalkOk, HandlerReadable;
    forall h | h in s.handlers && h.fd in ReadyFds(s)
      ensures HandlerReadable(s, h)
    {
      var k :| k in s.handlers && HandlerReadable(s, k) && k.fd == h.fd;
      assert k == h;
    }
  }

  lemma {:induction false} AuxStays(s: State, run: seq<Action>)
    ensures Exec(s, run).aux == s.aux
    decreases |run|
  {
    hide Turn, CanTurn, StartsWithMagic;
    if run != [] {
      var t, a := Exec(s, run[..|run| - 1]), run[|run| - 1];
      AuxStays(s, run[..|run| - 1]);
      if Enabled(t, a) && a.TurnAt? {
        TurnSteady(t, a.fd, a.junk);
      }
    }
  }

  // How handlers leave, and when the loop ends ----------------------------------------------------------

  /** The ids taken off the aux connection behind the magic. */
  function ReadIds(s: State): seq<nat>
  {
    if s.aux < |s.conns| && 1 <= AuxRead(s) <= |s.auxIds| then s.auxIds[1..AuxRead(s)] else []
  }

  /** The id is that of a session whose handler was erased, and which was not told of a disconnect. */
  predicate Removed(handlers: seq<Handler>, logs: map<nat, seq<Event>>, id: nat)
  {
    id >= IdOf(0) && var conn := id - IdOf(0); conn in logs && !Live(handlers, conn) && !Gone(logs[conn])
  }

  /** The id of a session that had left the list before: told of the disconnect, or for an id read earlier. */
  predicate Stale(logs: map<nat, seq<Event>>, earlier: seq<nat>, id: nat)
  {
    id >= IdOf(0) && var conn := id - IdOf(0); conn in logs && (Gone(logs[conn]) || id in earlier)
  }

  ghost predicate AllRemoved(handlers: seq<Handler>, logs: map<nat, seq<Event>>, read: seq<nat>)
  {
    && (forall id :: id in read ==> Removed(handlers, logs, id))
    && forall i, j :: 0 <= i < j < |read| ==> read[i] != read[j]
  }

  /** The loop was left by the aux handler. */
  predicate EndedOnId(phase: Phase)
  {
    phase.Ended? && !phase.reason.SelectFailed?
  }

  /**
   Sessions leave the list told of the disconnect, or erased over the aux connection; while the loop runs never
   both, and never the same twice. The loop ends on a failed `select`, on 0, or on a stale id.
   */
  ghost predicate ExitsOk(handlers: seq<Handler>, logs: map<nat, seq<Event>>, read: seq<nat>, phase: Phase)
  {
    && (forall conn: nat :: conn in logs && !Live(handlers, conn) ==> Gone(logs[conn]) || IdOf(conn) in read)
    && (!EndedOnId(phase) ==> AllRemoved(handlers, logs, read))
    && (EndedOnId(phase) ==>
          && phase.reason.UnknownId? && read != [] && phase.reason.id == read[|read| - 1]
          && (phase.reason.id == 0 || Stale(logs, read[..|read| - 1], phase.reason.id)))
  }

  ghost predicate Exits(s: State)
  {
    ExitsOk(s.handlers, s.logs, ReadIds(s), s.phase)
  }

  lemma InitialExits(s: State)
    requires Initial(s)
    ensures Exits(s)
  {
    assert ReadIds(s) == [];
  }

  lemma ExternalExits(s: State, a: Action)
    requires Inv(s) && Exits(s) && External(a) && Enabled(s, a)
    ensures Exits(Step(s, a))
  {
    hide ListOk, DescriptorsOk, StageOk, StreamsOk, WalkOk, ExitsOk, Scalars, Scalar;
    var t := Step(s, a);
    assert AuxRead(t) == AuxRead(s);
    assert ReadIds(t) == ReadIds(s);
  }

  lemma RemovedStays(
    handlers: seq<Handler>, h: Handler, logs: map<nat, seq<Event>>, logs': map<nat, seq<Event>>, id: nat)
    requires Removed(handlers, logs, id) && handlers != []
    requires h.conn !in logs && (logs' == logs || logs' == logs[h.conn := []])
    ensures Removed(handlers + [h], logs', id)
  {
    AcceptedLive(handlers, h);
    hide Live;
  }

  lemma ExitsAccept(
    handlers: seq<Handler>, h: Handler, logs: map<nat, seq<Event>>, logs': map<nat, seq<Event>>, read: seq<nat>,
    phase: Phase, phase': Phase)
    requires ExitsOk(handlers, logs, read, phase) && handlers != [] && !phase.Ended? && !phase'.Ended?
    requires h.conn !in logs && (logs' == logs || logs' == logs[h.conn := []])
    ensures ExitsOk(handlers + [h], logs', read, phase')
  {
    hide Live, Gone, Removed;
    AcceptedLive(handlers, h);
    assert AllRemoved(handlers, logs, read);
    forall conn: nat | conn in logs' && !Live(handlers + [h], conn)
      ensures Gone(logs'[conn]) || IdOf(conn) in read
    {
      assert conn in logs && !Live(handlers, conn) && logs'[conn] == logs[conn];
    }
    forall id | id in read
      ensures Removed(handlers + [h], logs', id)
    {
      assert Removed(handlers, logs, id);
      RemovedStays(handlers, h, logs, logs', id);
    }
  }

  lemma AcceptExits(s: State, fd: nat, junk: seq<Byte>)
    requires Inv(s) && Exits(s) && CanTurn(s, fd) && |junk| == 4
    requires Current(s).fd in s.phase.ready && Acceptor(Current(s).kind)
    ensures Exits(Turn(s, fd, junk))
  {
    hide Turn, DescriptorsOk, AuxOk, StreamsOk, WalkOk, Live, ReadIds, Others, ExitsOk;
    var h := Handler(s.nextId, fd, s.accepted, if BeforeHandshake(s.handlers) then Preinit else Session);
    AcceptTurn(s, fd, junk, h);
    var t := Turn(s, fd, junk);
    AcceptReads(s, t);
    ExitsAccept(s.handlers, h, s.logs, t.logs, ReadIds(s), s.phase, t.phase);
  }

  lemma AcceptReads(s: State, t: State)
    requires t.conns == s.conns && t.aux == s.aux && t.auxIds == s.auxIds
    ensures ReadIds(t) == ReadIds(s)
  {
  }

  lemma HandshakeExits(s: State, fd: nat, junk: seq<Byte>)
    requires Inv(s) && CanTurn(s, fd) && |junk| == 4
    requires Current(s).fd in s.phase.ready && Current(s).kind.Preinit?
    requires StartsWithMagic(s.conns[Current(s).conn].Available())
    ensures Exits(Turn(s, fd, junk))
  {
    hide Turn, ListOk, DescriptorsOk, StreamsOk, WalkOk, Others, Scalars, Declared, ExitsOk;
    MagicIsAux(s);
    HandshakeTurn(s, fd, junk);
    var t := Turn(s, fd, junk);
    assert AuxRead(t) == 1;
    assert ReadIds(t) == [];
    assert t.phase.Walking?;
    HandshakeLive(s, t);
    ExitsFresh(t.handlers, t.logs, t.phase);
  }

  lemma HandshakeLive(s: State, t: State)
    requires BeforeHandshake(s.handlers) && StageOk(s.handlers, s.accepted, s.aux, s.created, s.logs)
    requires |t.handlers| == |s.handlers|
    requires forall i :: 0 <= i < |s.handlers| ==> t.handlers[i] == Installed(s.handlers[i], i, IdOf(s.aux))
    requires forall c: nat :: c in t.logs ==> c < s.accepted
    ensures forall c: nat :: c in t.logs ==> Live(t.handlers, c)
  {
    forall conn: nat | conn in t.logs
      ensures Live(t.handlers, conn)
    {
      assert t.handlers[conn + 1].conn == conn;
    }
  }

  lemma ExitsFresh(handlers: seq<Handler>, logs: map<nat, seq<Event>>, phase: Phase)
    requires !phase.Ended? && forall c: nat :: c in logs ==> Live(handlers, c)
    ensures ExitsOk(handlers, logs, [], phase)
  {
  }

  lemma MessageExits(s: State, fd: nat, junk: seq<Byte>)
    requires Inv(s) && Exits(s) && CanTurn(s, fd) && |junk| == 4
    requires Current(s).fd in s.phase.ready && Current(s).kind.Session?
    requires s.conns[Current(s).conn].Available() != []
    ensures Exits(Turn(s, fd, junk))
  {
    hide Inv, Turn, Live, ReadIds;
    SessionLive(s);
    MessageTurn(s, fd, junk);
    SessionReads(s, Turn(s, fd, junk));
  }

  lemma SessionReads(s: State, t: State)
    requires t.aux == s.aux && t.auxIds == s.auxIds && |t.conns| == |s.conns|
    requires s.aux < |s.conns| ==> t.conns[s.aux] == s.conns[s.aux]
    ensures ReadIds(t) == ReadIds(s)
  {
  }

  lemma DisconnectExits(s: State, fd: nat, junk: seq<Byte>)
    requires Inv(s) && Exits(s) && CanTurn(s, fd) && |junk| == 4
    requires Current(s).fd in s.phase.ready && Current(s).kind.Session?
    requires s.conns[Current(s).conn].Available() == []
    ensures Exits(Turn(s, fd, junk))
  {
    hide Turn, Live, ReadIds, DescriptorsOk, AuxOk, StreamsOk, WalkOk, StageOk, Erased;
    SessionLive(s);
    DisconnectTurn(s, fd, junk);
    ErasedList(s.handlers, s.cursor, s.nextId, s.accepted);
    SessionReads(s, Turn(s, fd, junk));
  }

  lemma AuxReadsMore(s: State)
    requires Inv(s) && !BeforeHandshake(s.handlers) && AuxRead(s) < |s.auxIds|
    ensures AuxRead(s) >= 1 && AuxRead(Consume(s, s.aux, 4)) == AuxRead(s) + 1
    ensures ReadIds(Consume(s, s.aux, 4)) == ReadIds(s) + [s.auxIds[AuxRead(s)]]
  {
    hide ListOk, DescriptorsOk, StreamsOk, WalkOk, StageOk, Scalars;
  }

  /** The id of a listed handler has not been read before. */
  lemma ListedNotRead(
    handlers: seq<Handler>, i: nat, logs: map<nat, seq<Event>>, read: seq<nat>, nextId: nat, accepted: nat)
    requires ListOk(handlers, nextId, accepted) && 1 <= i < |handlers| && AllRemoved(handlers, logs, read)
    ensures handlers[i].id !in read
  {
    hide Gone;
    assert Live(handlers, handlers[i].conn);
    assert handlers[i].id in read ==> Removed(handlers, logs, handlers[i].id);
  }

  lemma AllRemovedErase(
    handlers: seq<Handler>, i: nat, logs: map<nat, seq<Event>>, read: seq<nat>, nextId: nat, accepted: nat)
    requires AllRemoved(handlers, logs, read) && ListOk(handlers, nextId, accepted) && 1 <= i < |handlers|
    requires var conn := handlers[i].conn; conn in logs && !Gone(logs[conn])
    ensures AllRemoved(Erased(handlers, i), logs, read + [handlers[i].id])
  {
    ErasedList(handlers, i, nextId, accepted);
    ListedNotRead(handlers, i, logs, read, nextId, accepted);
    assert handlers[i].id == IdOf(handlers[i].conn);
    hide ListOk, Live, Erased, Gone;
    forall id | id in read
      ensures Removed(Erased(handlers, i), logs, id)
    {
      assert Removed(handlers, logs, id);
    }
  }

  lemma ExitsErase(
    handlers: seq<Handler>, i: nat, logs: map<nat, seq<Event>>, read: seq<nat>, id: nat, phase: Phase, phase': Phase,
    nextId: nat, accepted: nat)
    requires ExitsOk(handlers, logs, read, phase) && !phase.Ended? && !phase'.Ended?
    requires ListOk(handlers, nextId, accepted) && 1 <= i < |handlers| && handlers[i].id == id
    requires var conn := handlers[i].conn; conn in logs && !Gone(logs[conn])
    ensures ExitsOk(Erased(handlers, i), logs, read + [id], phase')
  {
    ErasedList(handlers, i, nextId, accepted);
    AllRemovedErase(handlers, i, logs, read, nextId, accepted);
    assert id == IdOf(handlers[i].conn);
    hide ListOk, Live, Erased, AllRemoved, Gone;
  }

  lemma ExitsUnknown(handlers: seq<Handler>, logs: map<nat, seq<Event>>, read: seq<nat>, id: nat, phase: Phase)
    requires ExitsOk(handlers, logs, read, phase) && !phase.Ended?
    requires id == 0 || (id >= IdOf(0) && id - IdOf(0) in logs && !Live(handlers, id - IdOf(0)))
    ensures ExitsOk(handlers, logs, read + [id], Ended(UnknownId(id)))
  {
    hide Live, Gone, AllRemoved;
    assert (read + [id])[..|read|] == read;
  }

  lemma AuxExits(s: State, fd: nat, junk: seq<Byte>)
    requires Inv(s) && Exits(s) && CanTurn(s, fd) && |junk| == 4
    requires Current(s).fd in s.phase.ready && Current(s).kind.Aux?
    ensures Exits(Turn(s, fd, junk))
  {
    hide Turn, Live, ReadIds, DescriptorsOk, AuxOk, StreamsOk, WalkOk, Erased, Others, ExitsOk, CanTurn;
    AuxReads(s, fd, junk);
    AuxTurn(s, fd, junk);
    AuxReadsMore(s);
    var t := Turn(s, fd, junk);
    SessionReads(Consume(s, s.aux, 4), t);
    var id := s.auxIds[AuxRead(s)];
    var i := IndexOf(s.handlers, id);
    if i < |s.handlers| {
      LiveNotGone(s, i);
      ExitsErase(s.handlers, i, s.logs, ReadIds(s), id, s.phase, t.phase, s.nextId, s.accepted);
    } else {
      if id != 0 {
        NotListed(s, id - IdOf(0));
      }
      ExitsUnknown(s.handlers, s.logs, ReadIds(s), id, s.phase);
    }
  }

  lemma LiveNotGone(s: State, i: nat)
    requires Inv(s) && !BeforeHandshake(s.handlers) && 1 <= i < |s.handlers| && s.handlers[i].conn != s.aux
    ensures var conn := s.handlers[i].conn; conn in s.logs && !Gone(s.logs[conn])
  {
    hide DescriptorsOk, AuxOk, WalkOk, Others, WholeFrames, CutFrames, Declared, Payloads;
    var conn := s.handlers[i].conn;
    assert StreamOk(conn, s.conns[conn], s.handlers, s.logs);
  }

  lemma NotListed(s: State, conn: nat)
    requires Inv(s) && IndexOf(s.handlers, IdOf(conn)) == |s.handlers|
    ensures !Live(s.handlers, conn)
  {
    hide DescriptorsOk, StageOk, StreamsOk, AuxOk, WalkOk;
  }

  lemma QuietExits(s: State, t: State)
    requires Exits(s) && !s.phase.Ended?
    requires t.handlers == s.handlers && t.logs == s.logs && ReadIds(t) == ReadIds(s)
    requires t.phase.Ended? ==> t.phase.reason.SelectFailed?
    ensures Exits(t)
  {
    hide Live, ReadIds;
  }

  lemma TurnExits(s: State, fd: nat, junk: seq<Byte>)
    requires Inv(s) && Exits(s) && CanTurn(s, fd) && |junk| == 4
    ensures Exits(Turn(s, fd, junk))
  {
    if Current(s).fd !in s.phase.ready {
      QuietTurn(s, fd, junk);
    } else {
      hide Inv, Exits, Turn;
      match Current(s).kind
      case AcceptPreinit => AcceptExits(s, fd, junk);
      case AcceptRegular => AcceptExits(s, fd, junk);
      case Preinit =>
        if StartsWithMagic(s.conns[Current(s).conn].Available()) {
          HandshakeExits(s, fd, junk);
        } else {
          QuietTurn(s, fd, junk);
        }
      case Session =>
        if s.conns[Current(s).conn].Available() == [] {
          DisconnectExits(s, fd, junk);
        } else {
          MessageExits(s, fd, junk);
        }
      case Aux => AuxExits(s, fd, junk);
    }
  }

  lemma QuietTurn(s: State, fd: nat, junk: seq<Byte>)
    requires Exits(s) && CanTurn(s, fd) && |junk| == 4
    requires Current(s).fd !in s.phase.ready ||
      (Current(s).kind.Preinit? && !StartsWithMagic(s.conns[Current(s).conn].Available()))
    ensures Exits(Turn(s, fd, junk))
  {
    hide Exits, StartsWithMagic;
    AcceptReads(s, Turn(s, fd, junk));
    QuietExits(s, Turn(s, fd, junk));
  }

  lemma {:induction false} RunExits(s: State, run: seq<Action>)
    requires Inv(s) && Exits(s)
    ensures Inv(Exec(s, run)) && Exits(Exec(s, run))
    decreases |run|
  {
    hide Inv, Exits, ReadIds, Turn;
    if run != [] {
      var t, a := Exec(s, run[..|run| - 1]), run[|run| - 1];
      RunExits(s, run[..|run| - 1]);
      if Enabled(t, a) {
        StepInv(t, a);
        match a
        case TurnAt(fd, junk) => TurnExits(t, fd, junk);
        case Select => AcceptReads(t, Step(t, a)); QuietExits(t, Step(t, a));
        case SelectFails => AcceptReads(t, Step(t, a)); QuietExits(t, Step(t, a));
        case EndPass => AcceptReads(t, Step(t, a)); QuietExits(t, Step(t, a));
        case _ => ExternalExits(t, a);
      }
    }
  }

  /**
   While the loop runs, a session whose handler has left the list was told of the disconnect exactly when its
   id has not been taken off the aux connection: the handler left for one of the two reasons, never for both.
   */
  lemma SessionsLeaveOneWay(s: State, run: seq<Action>, conn: nat)
    requires Inv(s) && Exits(s)
    requires var t := Exec(s, run); !t.phase.Ended? && conn in t.logs && !Live(t.handlers, conn)
    ensures var t := Exec(s, run); Gone(t.logs[conn]) <==> IdOf(conn) !in ReadIds(t)
  {
    hide Inv, Exec, ReadIds, Live;
    RunExits(s, run);
    assert IdOf(conn) >= IdOf(0) && IdOf(conn) - IdOf(0) == conn;
  }

  /** What the `k`-th id read finds no handler for: 0, an id read before, or one whose session was told of a disconnect. */
  predicate NamesNobody(logs: map<nat, seq<Event>>, read: seq<nat>, k: nat)
    requires k < |read|
  {
    || read[k] == 0
    || read[k] in read[..k]
    || (read[k] >= IdOf(0) && read[k] - IdOf(0) in logs && Gone(logs[read[k] - IdOf(0)]))
  }

  /**
   The loop is left by the aux handler exactly when an id was read that is 0, had been read before, or belongs to a
   session told of its disconnect; it is then the last one read. Otherwise it ends on a failed `select` only.
   */
  lemma LoopEndsExactly(s: State, run: seq<Action>)
    requires Inv(s) && Exits(s)
    ensures var t := Exec(s, run); var read := ReadIds(t);
      && (t.phase.Ended? && t.phase.reason.UnknownId? <==> exists k: nat :: k < |read| && NamesNobody(t.logs, read, k))
      && (t.phase.Ended? ==> !t.phase.reason.AuxClosed?)
      && (t.phase.Ended? && t.phase.reason.UnknownId? ==>
            && read != [] && t.phase.reason.id == read[|read| - 1]
            && (t.phase.reason.id == 0 || Stale(t.logs, read[..|read| - 1], t.phase.reason.id)))
  {
    RunExits(s, run);
    var t := Exec(s, run);
    hide Inv, Exec, ReadIds, NamesNobody, ExitsOk, Stale;
    if EndedOnId(t.phase) {
      LastNamesNobody(t.handlers, t.logs, ReadIds(t), t.phase);
    } else {
      RemovedHadHandlers(t.handlers, t.logs, ReadIds(t), t.phase);
    }
  }

  lemma LastNamesNobody(handlers: seq<Handler>, logs: map<nat, seq<Event>>, read: seq<nat>, phase: Phase)
    requires ExitsOk(handlers, logs, read, phase) && EndedOnId(phase)
    ensures phase.reason.UnknownId? && read != [] && phase.reason.id == read[|read| - 1]
    ensures phase.reason.id == 0 || Stale(logs, read[..|read| - 1], phase.reason.id)
    ensures NamesNobody(logs, read, |read| - 1)
  {
    hide Live, Gone;
  }

  lemma RemovedHadHandlers(handlers: seq<Handler>, logs: map<nat, seq<Event>>, read: seq<nat>, phase: Phase)
    requires ExitsOk(handlers, logs, read, phase) && !EndedOnId(phase)
    ensures forall k: nat :: k < |read| ==> !NamesNobody(logs, read, k)
  {
    hide Live, Gone;
    forall k: nat | k < |read|
      ensures !NamesNobody(logs, read, k)
    {
      assert Removed(handlers, logs, read[k]);
    }
  }

  // Who asked -------------------------------------------------------------------------------------------

  /** What the run's steps send over the aux connection: the id of each session that asks, 0 for the owner. */
  function AskedIds(s: State, run: seq<Action>): seq<nat>
    decreases |run|
  {
    if run == [] then []
    else
      var front, a := run[..|run| - 1], run[|run| - 1];
      AskedIds(s, front)
      + if !Enabled(Exec(s, front), a) then []
        else match a case SessionDisconnects(id) => [id] case Shutdown => [0] case _ => []
  }

  lemma StepAsks(s: State, a: Action)
    requires Enabled(s, a)
    ensures Step(s, a).auxIds
         == s.auxIds + match a case SessionDisconnects(id) => [id] case Shutdown => [0] case _ => []
  {
    hide StartsWithMagic, Scalar;
    if a.TurnAt? {
      TurnAsksNothing(s, a.fd, a.junk);
    }
  }

  lemma TurnAsksNothing(s: State, fd: nat, junk: seq<Byte>)
    requires CanTurn(s, fd) && |junk| == 4
    ensures Turn(s, fd, junk).auxIds == s.auxIds
  {
    hide TakeFrame, Declared, HeaderBytes, IndexOf, StartsWithMagic, Installed;
  }

  /** The aux queue holds what it held, and what the run's steps asked for, in the order of the asking. */
  lemma {:induction false} QueueIsWhatWasAsked(s: State, run: seq<Action>)
    ensures Exec(s, run).auxIds == s.auxIds + AskedIds(s, run)
    decreases |run|
  {
    hide Step, Enabled;
    if run == [] {
      assert s.auxIds + [] == s.auxIds;
    } else {
      QueueIsWhatWasAsked(s, run[..|run| - 1]);
      if Enabled(Exec(s, run[..|run| - 1]), run[|run| - 1]) {
        StepAsks(Exec(s, run[..|run| - 1]), run[|run| - 1]);
      }
    }
  }

  lemma {:induction false} AskedByItself(s: State, run: seq<Action>, id: nat)
    requires id in AskedIds(s, run) && id != 0
    ensures SessionDisconnects(id) in run
    decreases |run|
  {
    hide Step, Enabled;
    var front := run[..|run| - 1];
    if id in AskedIds(s, front) {
      AskedByItself(s, front, id);
    }
  }

  /**
   From the constructor's state on: a session whose handler was erased without its being told of a disconnect had asked
   for it itself.
   */
  lemma ErasedHadAsked(s: State, run: seq<Action>, conn: nat)
    requires Initial(s)
    requires var t := Exec(s, run); conn in t.logs && !Live(t.handlers, conn) && !Gone(t.logs[conn])
    ensures SessionDisconnects(IdOf(conn)) in run
  {
    InitialInv(s);
    InitialExits(s);
    RunExits(s, run);
    var t := Exec(s, run);
    hide Inv, Exec, Live, Gone, Initial;
    assert IdOf(conn) in ReadIds(t);
    assert IdOf(conn) in t.auxIds[1..];
    QueueIsWhatWasAsked(s, run);
    assert t.auxIds[1..] == AskedIds(s, run) by { assert s.auxIds == [INIT_MAGIC] by { InitialQueue(s); } }
    AskedByItself(s, run, IdOf(conn));
  }

  lemma InitialQueue(s: State)
    requires Initial(s)
    ensures s.auxIds == [INIT_MAGIC]
  {
  }

  // What clients did ------------------------------------------------------------------------------------

  /** The bytes the run's steps send on a connection. */
  function SentBy(s: State, run: seq<Action>, conn: nat): seq<Byte>
    decreases |run|
  {
    if run == [] then []
    else
      var front, a := run[..|run| - 1], run[|run| - 1];
      SentBy(s, front, conn)
      + if a.ClientSends? && a.conn == conn && Enabled(Exec(s, front), a) then a.data else []
  }

  /** The thread reads the connections, and neither writes to one nor closes it. */
  predicate OnlyRead(before: seq<Conn>, after: seq<Conn>)
  {
    && |after| == |before|
    && forall c :: 0 <= c < |before| ==>
         after[c].sent == before[c].sent && after[c].closed == before[c].closed && after[c].consumed >= before[c].consumed
  }

  lemma AuxOnlyReads(s: State, conn: nat, junk: seq<Byte>)
    requires conn < |s.conns| && |junk| == 4
    ensures OnlyRead(s.conns, HandleAux(s, conn, junk).0.conns)
  {
    hide Declared, HeaderBytes, IndexOf;
  }

  lemma SessionOnlyReads(s: State, conn: nat, junk: seq<Byte>)
    requires conn < |s.conns| && |junk| == 4
    ensures OnlyRead(s.conns, HandleSession(s, conn, junk).0.conns)
  {
    hide Declared, HeaderBytes, Overwritten, Resized;
  }

  lemma PreinitOnlyReads(s: State, h: Handler)
    requires h.conn < |s.conns|
    ensures OnlyRead(s.conns, HandlePreinit(s, h).conns)
  {
    hide StartsWithMagic, Installed;
  }

  lemma DispatchReads(s: State, h: Handler, fd: nat, junk: seq<Byte>)
    requires |junk| == 4 && (Acceptor(h.kind) || h.conn < |s.conns|)
    ensures OnlyRead(s.conns, Dispatch(s, h, fd, junk).0.conns)
  {
    hide HandleAux, HandleSession, HandlePreinit;
    match h.kind
    case AcceptPreinit =>
    case AcceptRegular =>
    case Preinit => PreinitOnlyReads(s, h);
    case Session => SessionOnlyReads(s, h.conn, junk);
    case Aux => AuxOnlyReads(s, h.conn, junk);
  }

  lemma TurnReads(s: State, fd: nat, junk: seq<Byte>)
    requires CanTurn(s, fd) && |junk| == 4
    ensures OnlyRead(s.conns, Turn(s, fd, junk).conns)
  {
    hide Dispatch, FrameComes;
    if Current(s).fd in s.phase.ready {
      DispatchReads(Visit(s, Current(s).id), Current(s), fd, junk);
    }
  }

  lemma StepSends(s: State, a: Action, conn: nat)
    requires conn < |s.conns| && conn != s.aux && Enabled(s, a)
    ensures var t := Step(s, a);
      && conn < |t.conns| && t.aux == s.aux
      && t.conns[conn].sent == s.conns[conn].sent + (if a.ClientSends? && a.conn == conn then a.data else [])
      && (t.conns[conn].closed <==> s.conns[conn].closed || a == ClientCloses(conn))
  {
    hide Turn, StartsWithMagic, Scalar, CanTurn;
    assert s.conns[conn].sent + [] == s.conns[conn].sent;
    if a.TurnAt? {
      TurnReads(s, a.fd, a.junk);
      TurnSteady(s, a.fd, a.junk);
    }
  }

  /** A client's stream is what its steps have sent, in order, and it is closed exactly if one of them closed it. */
  lemma {:induction false} StreamIsWhatWasSent(s: State, run: seq<Action>, conn: nat)
    requires conn < |s.conns| && conn != s.aux
    ensures var t := Exec(s, run);
      && conn < |t.conns| && t.aux == s.aux
      && t.conns[conn].sent == s.conns[conn].sent + SentBy(s, run, conn)
      && (t.conns[conn].closed <==> s.conns[conn].closed || ClientCloses(conn) in run)
    decreases |run|
  {
    hide Step, Enabled;
    if run == [] {
      assert s.conns[conn].sent + [] == s.conns[conn].sent;
    } else {
      var front, a := run[..|run| - 1], run[|run| - 1];
      StreamIsWhatWasSent(s, front, conn);
      assert run == front + [a];
      var t := Exec(s, front);
      if Enabled(t, a) {
        StepSends(t, a, conn);
      } else {
        ClosingIsPossible(t, conn);
        assert t.conns[conn].sent + [] == t.conns[conn].sent;
      }
    }
  }

  lemma ClosingIsPossible(s: State, conn: nat)
    requires conn < |s.conns| && conn != s.aux
    ensures Enabled(s, ClientCloses(conn))
  {
  }
}
