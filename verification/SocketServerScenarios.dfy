/**
 Two runs of the socket server, from the state its constructor leaves: one in which a session asks twice to be
 disconnected and ends the loop for everybody, and one in which a client closes within a length and its session is
 given a message.

 The aux connection is the first of the backlog, one client the second. The listening socket is descriptor 3, the aux
 client 4; the accepted connections get 5 and 6, and the ids 101 and 102.
 */
module SocketServerScenarios {
  import opened Bytes
  import opened Framing
  import opened SocketServer
  import opened SocketServerInvariants
  import opened SocketServerRuns
  import opened SocketServerShutdown

  const MAGIC: Conn := Conn(Scalar(INIT_MAGIC), 0, false)
  const QUIET: Conn := Conn([], 0, false)
  const JUNK: seq<Byte> := [0, 0, 0, 0]

  const FIRST: Handler := Handler(FIRST_ID, 3, 0, Kind.AcceptPreinit)
  const AUX_PEEKED: Handler := Handler(101, 5, 0, Preinit)
  const CLIENT_PEEKED: Handler := Handler(102, 6, 1, Preinit)
  const ACCEPTOR: Handler := Handler(FIRST_ID, 3, 0, Kind.AcceptRegular)
  const AUX: Handler := Handler(101, 5, 0, Kind.Aux)
  const CLIENT: Handler := Handler(102, 6, 1, Kind.Session)

  /** Until the handshake nothing has been sent but the magic, and nobody has a session. */
  function Young(handlers: seq<Handler>, phase: Phase, cursor: nat, passes: nat, accepted: nat, open: set<nat>): State
  {
    State(handlers, IdOf(accepted), [], phase, cursor, passes, [MAGIC, QUIET], accepted, 0, 4, open, [INIT_MAGIC], [], map[])
  }

  /** The accept of the aux connection in a first pass, that of the client and the handshake in a second. */
  function Opening(n: nat): State
  {
    match n
    case 0 => Young([FIRST], Selecting, 0, 0, 0, {4, 3})
    case 1 => Young([FIRST], Walking({3}, {100}, [], {}), 0, 0, 0, {4, 3})
    case 2 => Young([FIRST, AUX_PEEKED], Walking({3}, {100}, [100], {}), 1, 0, 1, {4, 3, 5})
    case 3 => Young([FIRST, AUX_PEEKED], Walking({3}, {100}, [100], {}), 2, 0, 1, {4, 3, 5})
    case 4 => Young([FIRST, AUX_PEEKED], Selecting, 2, 1, 1, {4, 3, 5})
    case 5 => Young([FIRST, AUX_PEEKED], Walking({3, 5}, {100, 101}, [], {}), 0, 1, 1, {4, 3, 5})
    case 6 =>
      Young([FIRST, AUX_PEEKED, CLIENT_PEEKED], Walking({3, 5}, {100, 101}, [100], {}), 1, 1, 2, {4, 3, 5, 6})
    case 7 => Served(Walking({3, 5}, {100, 101}, [100, 101], {}), 2, 1)
    case 8 => Served(Walking({3, 5}, {100, 101}, [100, 101], {}), 3, 1)
    case _ => OPENED
  }

  /** Behind the handshake the client has a session. */
  function Served(phase: Phase, cursor: nat, passes: nat): State
  {
    State([ACCEPTOR, AUX, CLIENT], IdOf(2), [], phase, cursor, passes, [MAGIC.(consumed := 4), QUIET], 2, 0, 4,
      {4, 3, 5, 6}, [INIT_MAGIC], [1], map[1 := []])
  }

  const OPENED: State := Served(Selecting, 3, 2)

  function Opener(n: nat): Action
  {
    match n
    case 0 => Select
    case 1 => TurnAt(5, JUNK)
    case 3 => EndPass
    case 4 => Select
    case 5 => TurnAt(6, JUNK)
    case 8 => EndPass
    case _ => TurnAt(0, JUNK)
  }

  function OpeningRun(n: nat): seq<Action>
  {
    if n == 0 then [] else OpeningRun(n - 1) + [Opener(n - 1)]
  }

  lemma OpeningIsInitial()
    ensures Initial(Opening(0))
  {
  }

  /** Which handlers are ready, and which are due. */
  predicate Told(s: State, ready: set<nat>, due: set<nat>)
  {
    && (forall i :: 0 <= i < |s.handlers| ==> (HandlerReadable(s, s.handlers[i]) <==> s.handlers[i].fd in ready))
    && (forall i :: 0 <= i < |s.handlers| ==> (s.handlers[i].fd in ready <==> s.handlers[i].id in due))
  }

  lemma ReadySet(s: State, ready: set<nat>, due: set<nat>)
    requires Told(s, ready, due) && ready <= Fds(s.handlers)
    ensures ReadyFds(s) == ready
  {
    hide HandlerReadable;
    forall fd | fd in ready
      ensures fd in ReadyFds(s)
    {
      var h :| h in s.handlers && h.fd == fd;
      var i :| 0 <= i < |s.handlers| && s.handlers[i] == h;
    }
    forall fd | fd in ReadyFds(s)
      ensures fd in ready
    {
      var h :| h in s.handlers && HandlerReadable(s, h) && h.fd == fd;
      var i :| 0 <= i < |s.handlers| && s.handlers[i] == h;
    }
  }

  lemma DueSet(s: State, ready: set<nat>, due: set<nat>)
    requires Told(s, ready, due) && due <= Ids(s.handlers)
    ensures (set h | h in s.handlers && h.fd in ready :: h.id) == due
  {
    hide HandlerReadable;
    var named := set h | h in s.handlers && h.fd in ready :: h.id;
    forall id | id in due
      ensures id in named
    {
      var h :| h in s.handlers && h.id == id;
      var i :| 0 <= i < |s.handlers| && s.handlers[i] == h;
    }
    forall id | id in named
      ensures id in due
    {
      var h :| h in s.handlers && h.fd in ready && h.id == id;
      var i :| 0 <= i < |s.handlers| && s.handlers[i] == h;
    }
  }

  /** What a pass begins with, the ready descriptors and the ids of their handlers being the given ones. */
  lemma Begins(s: State, ready: set<nat>, due: set<nat>)
    requires s.phase.Selecting? && ready != {} && Told(s, ready, due)
    requires ready <= Fds(s.handlers) && due <= Ids(s.handlers)
    ensures Enabled(s, Select) && Step(s, Select) == s.(phase := Walking(ready, due, [], {}), cursor := 0)
  {
    hide Told, Fds, Ids, Step, Enabled;
    ReadySet(s, ready, due);
    DueSet(s, ready, due);
    hide ReadyFds;
    Selects(s);
  }

  lemma Selects(s: State)
    requires s.phase.Selecting? && ReadyFds(s) != {}
    ensures Enabled(s, Select) && Step(s, Select) == BeginPass(s)
  {
    hide ReadyFds, BeginPass;
  }

  /** The turn of a handler that is not ready. */
  lemma Idles(s: State)
    requires s.phase.Walking? && s.cursor < |s.handlers| && Current(s).fd !in s.phase.ready
    requires Acceptor(Current(s).kind) || Current(s).conn < |s.conns|
    ensures Enabled(s, TurnAt(0, JUNK)) && Step(s, TurnAt(0, JUNK)) == s.(cursor := s.cursor + 1)
  {
  }

  lemma Opens0()
    ensures Enabled(Opening(0), Select) && Step(Opening(0), Select) == Opening(1)
  {
    assert FIRST in Opening(0).handlers;
    Begins(Opening(0), {3}, {100});
  }

  /** The acceptor's turn before the handshake. */
  lemma Accepts(
    handlers: seq<Handler>, ready: set<nat>, due: set<nat>, passes: nat, accepted: nat, open: set<nat>, h: Handler)
    requires handlers != [] && handlers[0] == FIRST && 3 in ready && accepted < 2 && h.fd !in open
    requires h == Handler(IdOf(accepted), h.fd, accepted, Preinit)
    requires Inv(Young(handlers, Walking(ready, due, [], {}), 0, passes, accepted, open))
    ensures var s := Young(handlers, Walking(ready, due, [], {}), 0, passes, accepted, open);
      && Enabled(s, TurnAt(h.fd, JUNK))
      && Step(s, TurnAt(h.fd, JUNK))
           == Young(handlers + [h], Walking(ready, due, [FIRST_ID], {}), 1, passes, accepted + 1, open + {h.fd})
  {
    hide Inv, Turn, Scalar;
    var s := Young(handlers, Walking(ready, due, [], {}), 0, passes, accepted, open);
    AcceptTurn(s, h.fd, JUNK, h);
    assert Turn(s, h.fd, JUNK).phase == Walking(ready, due, [FIRST_ID], {});
  }

  lemma Opens1()
    requires Inv(Opening(1))
    ensures Enabled(Opening(1), TurnAt(5, JUNK)) && Step(Opening(1), TurnAt(5, JUNK)) == Opening(2)
  {
    hide Inv, Step, Enabled, Scalar;
    Accepts([FIRST], {3}, {100}, 0, 0, {4, 3}, AUX_PEEKED);
    assert [FIRST] + [AUX_PEEKED] == [FIRST, AUX_PEEKED] && {4, 3} + {5} == {4, 3, 5};
  }

  lemma Opens4()
    ensures Enabled(Opening(4), Select) && Step(Opening(4), Select) == Opening(5)
  {
    var s := Opening(4);
    assert |Scalar(INIT_MAGIC)| == 4;
    hide Scalar, Enabled, Step;
    assert FIRST in s.handlers && AUX_PEEKED in s.handlers;
    assert s.conns[0].Readable();
    Begins(s, {3, 5}, {100, 101});
  }

  lemma Opens5()
    requires Inv(Opening(5))
    ensures Enabled(Opening(5), TurnAt(6, JUNK)) && Step(Opening(5), TurnAt(6, JUNK)) == Opening(6)
  {
    hide Inv, Step, Enabled, Scalar;
    Accepts([FIRST, AUX_PEEKED], {3, 5}, {100, 101}, 1, 1, {4, 3, 5}, CLIENT_PEEKED);
    assert [FIRST, AUX_PEEKED] + [CLIENT_PEEKED] == [FIRST, AUX_PEEKED, CLIENT_PEEKED];
    assert {4, 3, 5} + {6} == {4, 3, 5, 6};
  }

  lemma Installs(handlers: seq<Handler>, logs: map<nat, seq<Event>>)
    requires |handlers| == 3
    requires var peeked := [FIRST, AUX_PEEKED, CLIENT_PEEKED];
      forall i :: 0 <= i < 3 ==> handlers[i] == Installed(peeked[i], i, IdOf(0))
    requires forall c: nat :: c in logs <==> c < 2 && c != 0
    requires forall c: nat :: c in logs ==> logs[c] == []
    ensures handlers == [ACCEPTOR, AUX, CLIENT] && logs == map[1 := []] && Others(2, 0) == [1]
  {
    assert Others(2, 0) == Others(1, 0) + [1] && Others(1, 0) == Others(0, 0) + [];
    assert 1 in logs;
  }

  lemma Opens6()
    requires Inv(Opening(6))
    ensures Enabled(Opening(6), TurnAt(0, JUNK)) && Step(Opening(6), TurnAt(0, JUNK)) == Opening(7)
  {
    hide Inv, Turn, StartsWithMagic, Scalar, Installed, Others;
    var s := Opening(6);
    AuxShowsMagic(s);
    HandshakeTurn(s, 0, JUNK);
    var t := Turn(s, 0, JUNK);
    Installs(t.handlers, t.logs);
    assert t.conns == [MAGIC.(consumed := 4), QUIET];
    assert t.phase == Walking({3, 5}, {100, 101}, [100, 101], {});
  }

  lemma OpeningStep(n: nat)
    requires n < 9 && Inv(Opening(n))
    ensures Enabled(Opening(n), Opener(n)) && Step(Opening(n), Opener(n)) == Opening(n + 1)
  {
    hide Inv, Turn;
    match n
    case 0 => Opens0();
    case 1 => Opens1();
    case 2 => Idles(Opening(2));
    case 3 =>
    case 4 => Opens4();
    case 5 => Opens5();
    case 6 => Opens6();
    case 7 => Idles(Opening(7));
    case _ =>
  }

  /** From the constructor's state the server gets to serve the client. */
  lemma {:induction false} Opens(n: nat)
    requires n <= 9
    ensures Exec(Opening(0), OpeningRun(n)) == Opening(n) && Inv(Opening(n))
  {
    hide Opening, Opener, Inv, Initial, Exec;
    if n == 0 {
      OpeningIsInitial();
      InitialInv(Opening(0));
      ExecNothing(Opening(0));
    } else {
      Opens(n - 1);
      OpeningStep(n - 1);
      ExecMore(Opening(0), OpeningRun(n - 1), Opener(n - 1));
      StepInv(Opening(n - 1), Opener(n - 1));
    }
  }

  lemma ExecNothing(s: State)
    ensures Exec(s, []) == s
  {
  }

  // Twice the same id -----------------------------------------------------------------------------------

  /** The session has asked twice; the given bytes of the aux connection have been read. */
  function Asked(clients: seq<Handler>, phase: Phase, cursor: nat, passes: nat, consumed: nat, open: set<nat>): State
  {
    Served(phase, cursor, passes).(
      handlers := [ACCEPTOR, AUX] + clients, open := open, auxIds := [INIT_MAGIC, 102, 102],
      conns := [Conn(Scalar(INIT_MAGIC) + Scalar(102) + Scalar(102), consumed, false), QUIET])
  }

  function Asking(n: nat): State
  {
    match n
    case 0 => OPENED
    case 1 => OPENED.(auxIds := [INIT_MAGIC, 102], conns := [Conn(Scalar(INIT_MAGIC) + Scalar(102), 4, false), QUIET])
    case 2 => Asked([CLIENT], Selecting, 3, 2, 4, {4, 3, 5, 6})
    case 3 => Asked([CLIENT], Walking({5}, {101}, [], {}), 0, 2, 4, {4, 3, 5, 6})
    case 4 => Asked([CLIENT], Walking({5}, {101}, [], {}), 1, 2, 4, {4, 3, 5, 6})
    case 5 => Asked([], Walking({5}, {101}, [101], {102}), 2, 2, 8, {4, 3, 5})
    case 6 => Asked([], Selecting, 2, 3, 8, {4, 3, 5})
    case 7 => Asked([], Walking({5}, {101}, [], {}), 0, 3, 8, {4, 3, 5})
    case 8 => Asked([], Walking({5}, {101}, [], {}), 1, 3, 8, {4, 3, 5})
    case _ => Asked([], Ended(UnknownId(102)), 1, 3, 12, {4, 3, 5})
  }

  function Asker(n: nat): Action
  {
    match n
    case 0 => SessionDisconnects(102)
    case 1 => SessionDisconnects(102)
    case 2 => Select
    case 5 => EndPass
    case 6 => Select
    case _ => TurnAt(0, JUNK)
  }

  function AskingRun(n: nat): seq<Action>
  {
    if n == 0 then [] else AskingRun(n - 1) + [Asker(n - 1)]
  }

  lemma AsksTwice(n: nat)
    requires n < 2
    ensures Enabled(Asking(n), Asker(n)) && Step(Asking(n), Asker(n)) == Asking(n + 1)
  {
    hide Scalar;
    var s := Asking(n);
    assert s.handlers[2] == CLIENT && s.handlers[2].id == 102;
    assert [ACCEPTOR, AUX] + [CLIENT] == [ACCEPTOR, AUX, CLIENT];
  }

  /** With ids unread on the aux connection, and nothing else to read, a pass begins for its handler alone. */
  lemma AskedBegins(clients: seq<Handler>, cursor: nat, passes: nat, consumed: nat, open: set<nat>)
    requires clients == [] || clients == [CLIENT]
    requires consumed < 12
    ensures var s := Asked(clients, Selecting, cursor, passes, consumed, open);
      Enabled(s, Select) && Step(s, Select) == Asked(clients, Walking({5}, {101}, [], {}), 0, passes, consumed, open)
  {
    assert |Scalar(INIT_MAGIC) + Scalar(102) + Scalar(102)| == 12;
    hide Scalar, Enabled, Step;
    var s := Asked(clients, Selecting, cursor, passes, consumed, open);
    assert s.handlers[1] == AUX && AUX in s.handlers;
    assert s.conns[0].Readable() && !s.conns[1].Readable();
    Begins(s, {5}, {101});
  }

  lemma Turns(s: State, fd: nat)
    requires CanTurn(s, fd)
    ensures Enabled(s, TurnAt(fd, JUNK)) && Step(s, TurnAt(fd, JUNK)) == Turn(s, fd, JUNK)
  {
    hide Turn, CanTurn;
  }

  /** The aux handler's turn in a pass that began for it alone, the id in the queue being the client's. */
  predicate AtAux(s: State)
  {
    && CanTurn(s, 0) && s.cursor == 1 && s.aux == 0 < |s.conns| && s.phase == Walking({5}, {101}, [], {})
    && Current(s) == AUX && AuxRead(s) < |s.auxIds| && s.auxIds[AuxRead(s)] == 102
  }

  lemma AuxErases(s: State)
    requires Inv(s) && AtAux(s) && s.handlers == [ACCEPTOR, AUX, CLIENT]
    ensures Turn(s, 0, JUNK) == s.(
      handlers := [ACCEPTOR, AUX], open := s.open - {6}, cursor := 2, phase := Walking({5}, {101}, [101], {102}),
      conns := Consume(s, 0, 4).conns)
  {
    hide Inv, Turn, CanTurn, HeaderBytes, Scalar;
    AuxTurn(s, 0, JUNK);
    assert s.handlers[0].id == 100 && s.handlers[1].id == 101 && s.handlers[2].id == 102;
    hide IndexOf;
    assert Erased(s.handlers, 2) == [ACCEPTOR, AUX];
    var u := Consume(Visit(s, 101), 0, 4);
    assert u.phase == Walking({5}, {101}, [101], {}) && Skip(u, 102).phase == Walking({5}, {101}, [101], {102});
  }

  lemma AuxExits(s: State)
    requires Inv(s) && AtAux(s) && s.handlers == [ACCEPTOR, AUX]
    ensures Turn(s, 0, JUNK) == s.(phase := Ended(UnknownId(102)), conns := Consume(s, 0, 4).conns)
  {
    hide Inv, Turn, CanTurn, HeaderBytes, Scalar;
    AuxTurn(s, 0, JUNK);
    assert s.handlers[0].id == 100 && s.handlers[1].id == 101;
    hide IndexOf;
  }

  lemma AtAuxThen(clients: seq<Handler>, passes: nat, consumed: nat, open: set<nat>)
    requires consumed == 4 || consumed == 8
    ensures AtAux(Asked(clients, Walking({5}, {101}, [], {}), 1, passes, consumed, open))
  {
    assert |Scalar(INIT_MAGIC) + Scalar(102) + Scalar(102)| == 12;
    hide Scalar, FrameComes;
    var s := Asked(clients, Walking({5}, {101}, [], {}), 1, passes, consumed, open);
    assert s.handlers[1] == AUX;
    assert |s.conns[0].Available()| == 12 - consumed;
  }

  lemma Asks4()
    requires Inv(Asking(4))
    ensures Enabled(Asking(4), TurnAt(0, JUNK)) && Step(Asking(4), TurnAt(0, JUNK)) == Asking(5)
  {
    hide Inv, Turn, Scalar, CanTurn, Enabled, Step;
    var s := Asking(4);
    AtAuxThen([CLIENT], 2, 4, {4, 3, 5, 6});
    assert s.handlers == [ACCEPTOR, AUX, CLIENT];
    AuxErases(s);
    Turns(s, 0);
    assert [ACCEPTOR, AUX] + [] == [ACCEPTOR, AUX] && {4, 3, 5, 6} - {6} == {4, 3, 5};
    assert Consume(s, 0, 4).conns == Asking(5).conns;
  }

  lemma Asks8()
    requires Inv(Asking(8))
    ensures Enabled(Asking(8), TurnAt(0, JUNK)) && Step(Asking(8), TurnAt(0, JUNK)) == Asking(9)
  {
    hide Inv, Turn, Scalar, CanTurn, Enabled, Step;
    var s := Asking(8);
    AtAuxThen([], 3, 8, {4, 3, 5});
    assert s.handlers == [ACCEPTOR, AUX];
    AuxExits(s);
    Turns(s, 0);
    assert Consume(s, 0, 4).conns == Asking(9).conns;
  }

  lemma AskingStep(n: nat)
    requires n < 9 && Inv(Asking(n))
    ensures Enabled(Asking(n), Asker(n)) && Step(Asking(n), Asker(n)) == Asking(n + 1)
  {
    hide Inv, Turn, Scalar;
    match n
    case 0 => AsksTwice(0);
    case 1 => AsksTwice(1);
    case 2 => AskedBegins([CLIENT], 3, 2, 4, {4, 3, 5, 6});
    case 3 => Idles(Asking(3));
    case 4 => Asks4();
    case 5 =>
    case 6 => AskedBegins([], 2, 3, 8, {4, 3, 5});
    case 7 => Idles(Asking(7));
    case _ => Asks8();
  }

  lemma {:induction false} Asks(n: nat)
    requires n <= 9
    ensures Exec(Opening(0), OpeningRun(9) + AskingRun(n)) == Asking(n) && Inv(Asking(n))
    ensures Shutdown !in AskingRun(n) && SelectFails !in AskingRun(n)
  {
    hide Opening, Asking, Asker, Inv, Exec;
    AskersAreSessions(n);
    if n == 0 {
      Opens(9);
      assert OpeningRun(9) + [] == OpeningRun(9);
      assert Asking(0) == Opening(9) by { OpeningEnds(); }
    } else {
      Asks(n - 1);
      AskingStep(n - 1);
      ExecMore(Opening(0), OpeningRun(9) + AskingRun(n - 1), Asker(n - 1));
      assert OpeningRun(9) + AskingRun(n) == OpeningRun(9) + AskingRun(n - 1) + [Asker(n - 1)];
      StepInv(Asking(n - 1), Asker(n - 1));
    }
  }

  lemma {:induction false} AskersAreSessions(n: nat)
    ensures Shutdown !in AskingRun(n) && SelectFails !in AskingRun(n)
  {
    if n > 0 {
      AskersAreSessions(n - 1);
    }
  }

  /**
   The loop ends although the owner has not stopped it and `select` has not failed: a session asked twice to be
   disconnected, and its id was found the first time only.
   */
  lemma StaleIdEndsTheLoop() returns (s: State, run: seq<Action>)
    ensures Initial(s) && Shutdown !in run && SelectFails !in run
    ensures var t := Exec(s, run);
      t.phase == Ended(UnknownId(102)) && t.auxIds == [INIT_MAGIC, 102, 102] && 1 in t.logs && t.logs[1] == []
  {
    s, run := Opening(0), OpeningRun(9) + AskingRun(9);
    OpeningIsInitial();
    Asks(9);
    AskingEnds();
    hide Exec, Initial, Opening, Asking, Inv, AskingRun;
    OpeningIsQuiet(9);
    hide OpeningRun;
  }

  lemma AskingEnds()
    ensures var t := Asking(9);
      t.phase == Ended(UnknownId(102)) && t.auxIds == [INIT_MAGIC, 102, 102] && 1 in t.logs && t.logs[1] == []
  {
  }

  lemma {:induction false} OpeningIsQuiet(n: nat)
    ensures Shutdown !in OpeningRun(n) && SelectFails !in OpeningRun(n)
  {
    if n > 0 {
      OpeningIsQuiet(n - 1);
    }
  }

  lemma OpeningEnds()
    ensures Opening(9) == OPENED == Asking(0) == Cutting(0)
  {
  }

  // A length cut short ----------------------------------------------------------------------------------

  /** The client has sent one byte, and perhaps closed. */
  function Cut(phase: Phase, cursor: nat, closed: bool): State
  {
    Served(phase, cursor, 2).(conns := [MAGIC.(consumed := 4), Conn([0], 0, closed)])
  }

  function Cutting(n: nat): State
  {
    match n
    case 0 => OPENED
    case 1 => Cut(Selecting, 3, false)
    case 2 => Cut(Selecting, 3, true)
    case 3 => Cut(Walking({6}, {102}, [], {}), 0, true)
    case 4 => Cut(Walking({6}, {102}, [], {}), 1, true)
    case _ => Cut(Walking({6}, {102}, [], {}), 2, true)
  }

  function Cutter(n: nat): Action
  {
    match n
    case 0 => ClientSends(1, [0])
    case 1 => ClientCloses(1)
    case 2 => Select
    case _ => TurnAt(0, JUNK)
  }

  function CuttingRun(n: nat): seq<Action>
  {
    if n == 0 then [] else CuttingRun(n - 1) + [Cutter(n - 1)]
  }

  lemma CutBegins()
    ensures Enabled(Cutting(2), Select) && Step(Cutting(2), Select) == Cutting(3)
  {
    hide Scalar, Enabled, Step;
    assert |Scalar(INIT_MAGIC)| == 4;
    var s := Cutting(2);
    assert s.handlers[2] == CLIENT && CLIENT in s.handlers;
    assert s.conns[1].Readable() && !s.conns[0].Readable();
    Begins(s, {6}, {102});
  }

  lemma CuttingStep(n: nat)
    requires n < 5
    ensures Enabled(Cutting(n), Cutter(n)) && Step(Cutting(n), Cutter(n)) == Cutting(n + 1)
  {
    hide Turn, Scalar;
    match n
    case 0 => assert [] + [0] == [0];
    case 1 =>
    case 2 => CutBegins();
    case 3 => Idles(Cutting(3));
    case _ => Idles(Cutting(4));
  }

  lemma {:induction false} Cuts(n: nat)
    requires n <= 5
    ensures Exec(Opening(0), OpeningRun(9) + CuttingRun(n)) == Cutting(n)
  {
    hide Opening, Cutting, Exec, Cutter;
    if n == 0 {
      Opens(9);
      assert OpeningRun(9) + [] == OpeningRun(9);
      assert Cutting(0) == Opening(9) by { OpeningEnds(); }
    } else {
      Cuts(n - 1);
      CuttingStep(n - 1);
      ExecMore(Opening(0), OpeningRun(9) + CuttingRun(n - 1), Cutter(n - 1));
      assert OpeningRun(9) + CuttingRun(n) == OpeningRun(9) + CuttingRun(n - 1) + [Cutter(n - 1)];
    }
  }

  lemma CutIsDelivered()
    ensures Enabled(Cutting(5), TurnAt(0, JUNK))
    ensures var t := Step(Cutting(5), TurnAt(0, JUNK));
      && |t.conns| == 2 && t.conns[1].sent == [0] && 1 in t.logs && |t.logs[1]| == 1 && t.logs[1][0].Message?
  {
    var s := Cutting(5);
    assert s.conns[1].Available() == [0] && Current(s) == CLIENT;
    hide Turn, TakeFrame, Scalar;
    MessageTurn(s, 0, JUNK);
  }

  /** A client closes after one byte of a length: it has sent no frame, and its session is given a message. */
  lemma CutLengthIsDelivered() returns (s: State, run: seq<Action>)
    ensures Initial(s)
    ensures var t := Exec(s, run);
      && 1 < |t.conns| && Parse(t.conns[1].sent, Big).frames == []
      && 1 in t.logs && |t.logs[1]| == 1 && t.logs[1][0].Message?
  {
    s, run := Opening(0), OpeningRun(9) + CuttingRun(5);
    OpeningIsInitial();
    Cuts(5);
    CutIsDelivered();
    hide Exec, Initial, Opening, Cutting, Step, Enabled;
    ExecMore(s, run, TurnAt(0, JUNK));
    run := run + [TurnAt(0, JUNK)];
    ParseOfRest([0], Big);
  }
}
