/**
 What one pass of the socket server gives to each session: one event, if there was anything to read when it began.
 */
module SocketServerPasses {
  import opened Bytes
  import opened Framing
  import opened SocketServer
  import opened SocketServerInvariants
  import opened SocketServerRuns

  /** One event more: a message if there were bytes to read, else the disconnect. */
  ghost predicate OneMore(before: seq<Event>, after: seq<Event>, message: bool)
  {
    |after| == |before| + 1 && after[..|before|] == before && (after[|before|].Message? <==> message)
  }

  /** What a pass that began with the connection `first` in the log `before` has done to a session so far. */
  ghost predicate Serving(first: Conn, before: seq<Event>, now: Conn, log: seq<Event>, visited: bool)
  {
    if visited then
      OneMore(before, log, first.Available() != [])
    else
      && log == before
      && (first.Available() != [] ==> now.Available() != [])
      && (first.Available() == [] && first.closed ==> now.Available() == [] && now.closed)
  }

  ghost predicate ServedSoFar(first: Conn, before: seq<Event>, t: State, conn: nat)
  {
    t.phase.Walking? ==>
      && conn in t.logs && conn < |t.conns|
      && Serving(first, before, t.conns[conn], t.logs[conn], IdOf(conn) in t.phase.visited)
  }

  lemma BeginsServed(s: State, conn: nat)
    requires Inv(s) && conn in s.logs
    ensures conn < |s.conns| && ServedSoFar(s.conns[conn], s.logs[conn], BeginPass(s), conn)
  {
    LoggedStream(s, conn);
    hide Inv;
  }

  /** While a session waits for its turn, its client may send, unless it has closed, and may close. */
  lemma ExternalServes(first: Conn, before: seq<Event>, s: State, a: Action, conn: nat)
    requires Inv(s) && External(a) && Enabled(s, a) && ServedSoFar(first, before, s, conn)
    ensures ServedSoFar(first, before, Step(s, a), conn)
  {
    if s.phase.Walking? {
      LoggedStream(s, conn);
      hide Inv, OneMore, StartsWithMagic, SessionOk, Scalar;
      if a.ClientSends? && a.conn == conn {
        MoreAvailable(s.conns[conn], a.data);
      }
    }
  }

  lemma MoreAvailable(c: Conn, data: seq<Byte>)
    ensures var d := c.(sent := c.sent + data); c.Available() != [] ==> d.Available() != []
  {
  }

  lemma IdleServes(first: Conn, before: seq<Event>, s: State, fd: nat, junk: seq<Byte>, conn: nat)
    requires CanTurn(s, fd) && |junk| == 4 && Current(s).fd !in s.phase.ready && ServedSoFar(first, before, s, conn)
    ensures ServedSoFar(first, before, Turn(s, fd, junk), conn)
  {
    hide Serving;
  }

  lemma AcceptServes(first: Conn, before: seq<Event>, s: State, fd: nat, junk: seq<Byte>, conn: nat)
    requires Inv(s) && CanTurn(s, fd) && |junk| == 4 && ServedSoFar(first, before, s, conn)
    requires Current(s).fd in s.phase.ready && Acceptor(Current(s).kind)
    ensures ServedSoFar(first, before, Turn(s, fd, junk), conn)
  {
    AcceptTurn(s, fd, junk, Handler(s.nextId, fd, s.accepted, if BeforeHandshake(s.handlers) then Preinit else Session));
    LoggedAccepted(s, conn);
    hide Inv, Turn, Serving, CanTurn;
  }

  lemma LoggedAccepted(s: State, conn: nat)
    requires Inv(s) && conn in s.logs
    ensures conn < s.accepted && conn != s.aux && !BeforeHandshake(s.handlers)
  {
    hide ListOk, DescriptorsOk, AuxOk, StreamsOk, WalkOk;
  }

  lemma AuxServes(first: Conn, before: seq<Event>, s: State, fd: nat, junk: seq<Byte>, conn: nat)
    requires Inv(s) && CanTurn(s, fd) && |junk| == 4 && ServedSoFar(first, before, s, conn)
    requires Current(s).fd in s.phase.ready && Current(s).kind.Aux?
    ensures ServedSoFar(first, before, Turn(s, fd, junk), conn)
  {
    AuxReads(s, fd, junk);
    AuxTurn(s, fd, junk);
    LoggedAccepted(s, conn);
    hide Inv, Turn, Serving, CanTurn, Erased, HeaderBytes, Declared;
  }

  /** A handler whose turn it is has the id of its connection, and was not visited before in this pass. */
  lemma NotVisitedYet(s: State)
    requires Inv(s) && s.phase.Walking? && 1 <= s.cursor < |s.handlers|
    ensures Current(s).id == IdOf(Current(s).conn) && Current(s).id !in s.phase.visited
    ensures Current(s).fd in s.phase.ready ==> Current(s).id in s.phase.due
  {
    hide DescriptorsOk, StageOk, AuxOk, StreamsOk;
    assert s.handlers[s.cursor..][0] == Current(s);
  }

  lemma SessionServes(first: Conn, before: seq<Event>, s: State, fd: nat, junk: seq<Byte>, conn: nat)
    requires Inv(s) && CanTurn(s, fd) && |junk| == 4 && ServedSoFar(first, before, s, conn)
    requires Current(s).fd in s.phase.ready && Current(s).kind.Session?
    requires IdOf(conn) in s.phase.due ==> first.Readable()
    ensures ServedSoFar(first, before, Turn(s, fd, junk), conn)
  {
    hide Inv, FrameComes, SessionOk, TakeFrame, Erased, Turn;
    SessionLive(s);
    NotVisitedYet(s);
    hide CanTurn;
    if s.conns[Current(s).conn].Available() == [] {
      DisconnectTurn(s, fd, junk);
    } else {
      MessageTurn(s, fd, junk);
    }
  }

  lemma TurnServes(first: Conn, before: seq<Event>, s: State, fd: nat, junk: seq<Byte>, conn: nat)
    requires Inv(s) && CanTurn(s, fd) && |junk| == 4 && ServedSoFar(first, before, s, conn)
    requires IdOf(conn) in s.phase.due ==> first.Readable()
    ensures ServedSoFar(first, before, Turn(s, fd, junk), conn)
  {
    LoggedAccepted(s, conn);
    hide Inv, Turn, ServedSoFar;
    if Current(s).fd !in s.phase.ready {
      IdleServes(first, before, s, fd, junk, conn);
    } else {
      match Current(s).kind
      case AcceptPreinit => AcceptServes(first, before, s, fd, junk, conn);
      case AcceptRegular => AcceptServes(first, before, s, fd, junk, conn);
      case Preinit => MagicIsAux(s);
      case Session => SessionServes(first, before, s, fd, junk, conn);
      case Aux => AuxServes(first, before, s, fd, junk, conn);
    }
  }

  lemma {:induction false} RunServes(s: State, run: seq<Action>, first: Conn, before: seq<Event>, conn: nat)
    requires Inv(s) && s.phase.Walking? && ServedSoFar(first, before, s, conn)
    requires IdOf(conn) in s.phase.due ==> first.Readable()
    ensures var t := Exec(s, run); t.passes == s.passes ==> ServedSoFar(first, before, t, conn)
    decreases |run|
  {
    hide Inv, Turn, ServedSoFar, CanTurn, StartsWithMagic;
    if run != [] {
      var t, a := Exec(s, run[..|run| - 1]), run[|run| - 1];
      RunServes(s, run[..|run| - 1], first, before, conn);
      RunInv(s, run[..|run| - 1]);
      DueStays(s, run[..|run| - 1]);
      if Enabled(t, a) && t.passes == s.passes {
        PassStep(t, a, first, before, conn);
      } else if Enabled(t, a) {
        PassesGrow(t, a);
      }
    }
  }

  lemma PassesGrow(s: State, a: Action)
    requires Enabled(s, a)
    ensures Step(s, a).passes >= s.passes
  {
    hide StartsWithMagic, Turn;
    if a.TurnAt? {
      TurnSteady(s, a.fd, a.junk);
    }
  }

  lemma PassStep(s: State, a: Action, first: Conn, before: seq<Event>, conn: nat)
    requires Inv(s) && Enabled(s, a) && ServedSoFar(first, before, s, conn)
    requires s.phase.Ended? || (s.phase.Walking? && (IdOf(conn) in s.phase.due ==> first.Readable()))
    ensures Step(s, a).passes == s.passes ==> ServedSoFar(first, before, Step(s, a), conn)
  {
    hide Inv, Turn, StartsWithMagic;
    match a
    case TurnAt(fd, junk) =>
      hide ServedSoFar;
      TurnServes(first, before, s, fd, junk, conn);
    case Select =>
    case SelectFails =>
    case EndPass =>
    case _ => ExternalServes(first, before, s, a, conn);
  }

  lemma DueWasReadable(s: State, conn: nat)
    requires Inv(s) && conn in s.logs && conn < |s.conns|
    ensures IdOf(conn) in BeginPass(s).phase.due <==> Live(s.handlers, conn) && s.conns[conn].Readable()
  {
    DueIsReadable(s);
    LoggedAccepted(s, conn);
    hide DescriptorsOk, StageOk, AuxOk, StreamsOk, WalkOk, BeginPass;
    if Live(s.handlers, conn) {
      var i :| 1 <= i < |s.handlers| && s.handlers[i].conn == conn;
      assert s.handlers[i] in s.handlers && s.handlers[i].id == IdOf(conn);
      if s.conns[conn].Readable() {
        assert HandlerReadable(s, s.handlers[i]);
      }
    }
    if IdOf(conn) in BeginPass(s).phase.due {
      var h :| h in s.handlers && h.id == IdOf(conn) && HandlerReadable(s, h);
      var j :| 0 <= j < |s.handlers| && s.handlers[j] == h;
      assert j >= 1 && h.conn == conn;
    }
  }

  /**
   A whole pass, whatever happens around it, gives each session listed and readable when it began one event more, unless
   it was erased before its turn: a message if there were bytes to read, the disconnect if the client had closed with all
   of them read. No other session is given anything.
   */
  lemma PassServesEach(s: State, run: seq<Action>, conn: nat)
    requires Inv(s) && s.phase.Selecting? && ReadyFds(s) != {} && conn in s.logs
    requires var t := Exec(BeginPass(s), run);
      t.passes == s.passes && t.phase.Walking? && t.cursor == |t.handlers|
    ensures conn < |s.conns|
    ensures var t := Exec(BeginPass(s), run); var c := s.conns[conn];
      && conn in t.logs
      && if Live(s.handlers, conn) && (c.Available() != [] || c.closed) && IdOf(conn) !in t.phase.skipped
         then OneMore(s.logs[conn], t.logs[conn], c.Available() != [])
         else t.logs[conn] == s.logs[conn]
  {
    hide Inv, Exec, Live, OneMore, ReadyFds, BeginPass;
    BeginsServed(s, conn);
    DueWasReadable(s, conn);
    BeginPassInv(s);
    BeginIsSelect(s);
    PassBegun(s);
    VisitedExactly(s, run, conn);
    RunServes(BeginPass(s), run, s.conns[conn], s.logs[conn], conn);
  }

  lemma PassBegun(s: State)
    ensures BeginPass(s).phase.Walking? && BeginPass(s).passes == s.passes
  {
    hide ReadyFds;
  }

  lemma VisitedExactly(s: State, run: seq<Action>, conn: nat)
    requires Inv(s) && s.phase.Selecting? && ReadyFds(s) != {} && conn in s.logs && conn < |s.conns|
    requires var t := Exec(BeginPass(s), run);
      t.passes == s.passes && t.phase.Walking? && t.cursor == |t.handlers|
    ensures var w := Exec(BeginPass(s), run).phase;
      IdOf(conn) in w.visited <==> Live(s.handlers, conn) && s.conns[conn].Readable() && IdOf(conn) !in w.skipped
  {
    hide Inv, Exec, Live, ReadyFds, BeginPass, HandlerReadable;
    PassVisitsTheReady(s, run);
    DueWasReadable(s, conn);
    DueIsReadable(s);
  }

  lemma BeginIsSelect(s: State)
    requires s.phase.Selecting? && ReadyFds(s) != {}
    ensures Step(s, Select) == BeginPass(s)
  {
    hide ReadyFds, BeginPass;
  }

  /** There is something for the handler: a connection to accept, or bytes or the end of the stream to read. */
  predicate Waits(s: State, h: Handler)
  {
    if h.kind.AcceptPreinit? || h.kind.AcceptRegular? then s.accepted < |s.conns|
    else h.conn < |s.conns| && (s.conns[h.conn].Available() != [] || s.conns[h.conn].closed)
  }

  /** `select` returns exactly when there is something for a listed handler. */
  lemma SelectReturnsExactly(s: State)
    ensures Enabled(s, Select) <==> s.phase.Selecting? && exists h :: h in s.handlers && Waits(s, h)
  {
    assert forall h :: h in s.handlers ==> (Waits(s, h) <==> HandlerReadable(s, h));
    hide Waits, HandlerReadable;
    if exists h :: h in s.handlers && Waits(s, h) {
      var h :| h in s.handlers && Waits(s, h);
      assert h.fd in ReadyFds(s);
    }
    if ReadyFds(s) != {} {
      var fd :| fd in ReadyFds(s);
      var h :| h in s.handlers && HandlerReadable(s, h) && h.fd == fd;
      assert Waits(s, h);
    }
  }
}
