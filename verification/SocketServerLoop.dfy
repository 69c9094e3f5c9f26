/**
 The socket server as the program it is: an object whose methods update the handler list, the connections and
 the sessions in place, and a thread that loops over the list. Each method does what the transition system says;
 the loop as a whole is one of its runs, so what is proved about runs holds of it.
 */
module SocketServerLoop {
  import opened Bytes
  import opened Framing
  import opened SocketServer
  import opened SocketServerInvariants
  import opened SocketServerRuns

  /**
   One moment of the thread: what the others do before its next call, whether that call would be a failing
   `select`, the descriptor an `accept` would return, and the bytes an uninitialised variable holds.
   */
  datatype Tick = Tick(external: seq<Action>, selectFails: bool, fd: nat, junk: seq<Byte>)

  /** What the others do before the thread's next call, an action nobody can take counting as none. */
  function Elapsed(s: State, external: seq<Action>): State
  {
    if external == [] then
      s
    else
      var t := Elapsed(s, external[..|external| - 1]);
      var a := external[|external| - 1];
      if External(a) && Enabled(t, a) then Step(t, a) else t
  }

  /** The others reach the connections and the aux queue only. */
  lemma ExternalFrame(s: State, a: Action)
    requires External(a) && Enabled(s, a)
    ensures Step(s, a) == s.(conns := Step(s, a).conns, auxIds := Step(s, a).auxIds)
  {
    hide StartsWithMagic, Scalar;
  }

  /** At the end of the list the pass is over. */
  function Closed(s: State): State
  {
    if s.phase.Walking? && s.cursor >= |s.handlers| then s.(phase := Selecting, passes := s.passes + 1) else s
  }

  /** One tick: the others act, and the thread's next call is made, unless it would block. */
  function Move(s: State, tick: Tick): State
  {
    if Closed(s).phase.Ended? then
      s
    else
      var t := Elapsed(Closed(s), tick.external);
      if t.phase.Selecting? then
        if tick.selectFails then t.(phase := Ended(SelectFailed))
        else if ReadyFds(t) != {} then BeginPass(t)
        else t
      else if |tick.junk| == 4 && CanTurn(t, tick.fd) then
        Turn(t, tick.fd, tick.junk)
      else
        t
  }

  function Play(s: State, script: seq<Tick>): State
  {
    if script == [] then s else Move(Play(s, script[..|script| - 1]), script[|script| - 1])
  }

  lemma PlayMore(s: State, script: seq<Tick>, now: nat)
    requires now < |script|
    ensures Play(s, script[..now + 1]) == Move(Play(s, script[..now]), script[now])
  {
    hide Move;
    assert script[..now + 1][..now] == script[..now];
  }

  lemma {:induction false} PlayEnded(s: State, script: seq<Tick>, now: nat)
    requires now <= |script| && Play(s, script[..now]).phase.Ended?
    ensures Play(s, script) == Play(s, script[..now])
    decreases |script| - now
  {
    if now < |script| {
      PlayMore(s, script, now);
      PlayEnded(s, script, now + 1);
    } else {
      assert script[..now] == script;
    }
  }

  lemma {:induction false} ElapsedIsARun(s: State, external: seq<Action>) returns (run: seq<Action>)
    ensures Elapsed(s, external) == Exec(s, run)
    ensures Elapsed(s, external).phase == s.phase && Elapsed(s, external).cursor == s.cursor
    ensures Elapsed(s, external).handlers == s.handlers
  {
    hide Enabled, Exec, StartsWithMagic;
    if external == [] {
      run := [];
      ExecNone(s);
    } else {
      run := ElapsedIsARun(s, external[..|external| - 1]);
      var t, a := Exec(s, run), external[|external| - 1];
      if External(a) && Enabled(t, a) {
        ExecMore(s, run, a);
        run := run + [a];
      }
    }
  }

  lemma ClosedIsARun(s: State) returns (run: seq<Action>)
    requires s.phase.Walking? ==> s.cursor <= |s.handlers|
    ensures Closed(s) == Exec(s, run)
  {
    if s.phase.Walking? && s.cursor == |s.handlers| {
      ExecOne(s, EndPass);
      run := [EndPass];
    } else {
      run := [];
    }
  }

  lemma MoveIsARun(s: State, tick: Tick) returns (run: seq<Action>)
    requires Inv(s)
    ensures Move(s, tick) == Exec(s, run)
  {
    hide Inv, Exec, Turn, CanTurn, ReadyFds, BeginPass;
    if s.phase.Walking? {
      CursorInside(s);
    }
    if Closed(s).phase.Ended? {
      run := [];
      ExecNone(s);
    } else {
      var close := ClosedIsARun(s);
      var others := ElapsedIsARun(Closed(s), tick.external);
      ExecAppend(s, close, others);
      run := close + others;
      var t := Elapsed(Closed(s), tick.external);
      var more := if !t.phase.Selecting? then TurnAt(tick.fd, tick.junk) else if tick.selectFails then SelectFails else Select;
      if t.phase.Selecting? || |tick.junk| == 4 {
        ExecOne(t, more);
        ExecAppend(s, run, [more]);
        run := run + [more];
      }
    }
  }

  /** Whatever the script, playing it is a run of the transition system: all that holds of runs holds of the loop. */
  lemma {:induction false} PlayIsARun(s: State, script: seq<Tick>) returns (run: seq<Action>)
    requires Inv(s)
    ensures Play(s, script) == Exec(s, run)
  {
    hide Inv, Exec, Move;
    if script == [] {
      run := [];
      ExecNone(s);
    } else {
      run := PlayIsARun(s, script[..|script| - 1]);
      RunInv(s, run);
      var more := MoveIsARun(Exec(s, run), script[|script| - 1]);
      ExecAppend(s, run, more);
      run := run + more;
    }
  }

  /** Received bytes, reordered and read on any host, have the value of their big-endian form. */
  lemma ScalarRead(header: seq<Byte>, host: Endian)
    requires |header| == 4
    ensures HostValue(Reordered(header, host), host) == Declared(header, Big)
    ensures Scalar(Declared(header, Big)) == header
  {
    assert header[..4] == header;
    HostBytesOfValue(header, Big);
  }

  /** A frame is taken by two reads, the second behind the first. */
  lemma TwoReads(c: Conn, buffer: seq<Byte>, junk: seq<Byte>)
    requires |junk| == 4
    ensures var size := Declared(HeaderBytes(c.Available(), junk), Big);
      var d := c.(consumed := c.consumed + Min(4, |c.Available()|));
      var got := Min(size, |d.Available()|);
      TakeFrame(c, buffer, junk)
        == (d.(consumed := d.consumed + got), Overwritten(Resized(buffer, size), d.Available()[..got]))
  {
    hide Declared, HeaderBytes, Resized, Overwritten;
    var head := Min(4, |c.Available()|);
    var d := c.(consumed := c.consumed + head);
    if c.consumed <= |c.sent| {
      assert c.sent[c.consumed..][head..] == c.sent[c.consumed + head..];
    }
    assert d.Available() == c.Available()[head..];
    var got := Min(Declared(HeaderBytes(c.Available(), junk), Big), |d.Available()|);
    assert d.Available()[..got] == c.Available()[head..head + got];
  }

  /** Whatever the script, the loop keeps the invariant and the account of exits. */
  lemma PlayKeeps(s: State, script: seq<Tick>)
    requires Inv(s) && Exits(s)
    ensures Inv(Closed(Play(s, script))) && Exits(Closed(Play(s, script)))
  {
    var run := PlayIsARun(s, script);
    RunExits(s, run);
    var t := Play(s, script);
    if t.phase.Walking? {
      CursorInside(t);
    }
    hide Inv, Exits, Play, Exec;
    var more := ClosedIsARun(t);
    RunExits(t, more);
  }

  class Server {
    const host: Endian
    var handlers: seq<Handler>
    var nextId: nat
    var buffer: seq<Byte>
    var phase: Phase
    var cursor: nat
    var passes: nat
    var conns: seq<Conn>
    var accepted: nat
    var aux: nat
    var auxFd: nat
    var open: set<nat>
    var auxIds: seq<nat>
    var created: seq<nat>
    var logs: map<nat, seq<Event>>

    function View(): State
      reads this
    {
      State(handlers, nextId, buffer, phase, cursor, passes, conns, accepted, aux, auxFd, open, auxIds, created, logs)
    }

    /** The constructor: the listening socket first in the list, the aux client connected and its magic sent. */
    constructor (host: Endian, listener: nat, auxClient: nat, ahead: seq<seq<Byte>>)
      requires listener != auxClient
      requires forall i :: 0 <= i < |ahead| ==> !StartsWithMagic(ahead[i])
      ensures Initial(View()) && Inv(View()) && Exits(View())
      ensures aux == |ahead| && forall i :: 0 <= i < |ahead| ==> conns[i] == Conn(ahead[i], 0, false)
    {
      this.host := host;
      handlers := [Handler(FIRST_ID, listener, 0, Kind.AcceptPreinit)];
      nextId := FIRST_ID + 1;
      buffer := [];
      phase := Selecting;
      cursor := 0;
      passes := 0;
      conns := seq(|ahead|, i requires 0 <= i < |ahead| => Conn(ahead[i], 0, false)) + [Conn(Scalar(INIT_MAGIC), 0, false)];
      accepted := 0;
      aux := |ahead|;
      auxFd := auxClient;
      open := {auxClient, listener};
      auxIds := [INIT_MAGIC];
      created := [];
      logs := map[];
      new;
      hide StartsWithMagic, Scalar;
      assert Initial(View());
      InitialInv(View());
      InitialExits(View());
    }

    method CreateSession(conn: nat)
      modifies this`created, this`logs
      ensures View() == SocketServer.CreateSession(old(View()), conn)
    {
      created := created + [conn];
      logs := logs[conn := []];
    }

    /**
     `recv_scalar`: receives over the bytes of a representation, reorders them, and reads the value. What it reads
     depends on the bytes alone, not on the host: four received bytes are the big-endian form of the value.
     */
    method ReceiveScalar(conn: nat, junk: seq<Byte>, peek: bool) returns (count: nat, value: nat)
      requires conn < |conns| && |junk| == 4
      modifies this`conns
      ensures count == Min(4, |old(conns)[conn].Available()|)
      ensures value == Declared(HeaderBytes(old(conns)[conn].Available(), junk), Big)
      ensures count == 4 ==> old(conns)[conn].Available()[..4] == Scalar(value)
      ensures View() == if peek then old(View()) else Consume(old(View()), conn, count)
    {
      hide HostValue, Reordered, Declared;
      var available := conns[conn].Available();
      count := Min(4, |available|);
      var data := new ByteRepresentation(host, 4);
      data.Receive(junk);
      data.Receive(available[..count]);
      assert data.bytes[..] == HeaderBytes(available, junk);
      data.Reorder();
      value := HostValue(data.bytes[..], host);
      ScalarRead(HeaderBytes(available, junk), host);
      if !peek {
        conns := conns[conn := conns[conn].(consumed := conns[conn].consumed + count)];
      }
    }

    method HandlePreinit(h: Handler)
      requires h.conn < |conns|
      modifies this`handlers, this`conns, this`created, this`logs
      ensures View() == SocketServer.HandlePreinit(old(View()), h)
    {
      hide Declared;
      ghost var available := conns[h.conn].Available();
      var count, magic := ReceiveScalar(h.conn, [0, 0, 0, 0], true);
      if count == 4 {
        DeclaredOfFirst4(available);
      }
      if count == 4 && magic == INIT_MAGIC {
        var _, _ := ReceiveScalar(h.conn, [0, 0, 0, 0], false);
        ghost var s := View();
        for i := 0 to |handlers|
          invariant |handlers| == |s.handlers| && View() == Install(s, h.id, i)
        {
          if i == 0 {
            handlers := handlers[i := handlers[i].(kind := Kind.AcceptRegular)];
          } else if handlers[i].id == h.id {
            handlers := handlers[i := handlers[i].(kind := Aux)];
          } else {
            handlers := handlers[i := handlers[i].(kind := Session)];
            CreateSession(handlers[i].conn);
          }
        }
      }
    }

    method AcceptPreinit(fd: nat)
      modifies this`handlers, this`nextId, this`accepted, this`open
      ensures View() == SocketServer.Accept(old(View()), fd, Preinit)
    {
      handlers := handlers + [Handler(nextId, fd, accepted, Preinit)];
      nextId := nextId + 1;
      accepted := accepted + 1;
      open := open + {fd};
    }

    method AcceptRegular(fd: nat)
      modifies this`handlers, this`nextId, this`accepted, this`open, this`created, this`logs
      ensures View()
           == SocketServer.CreateSession(SocketServer.Accept(old(View()), fd, Session), old(accepted))
    {
      var h := Handler(nextId, fd, accepted, Session);
      nextId := nextId + 1;
      CreateSession(accepted);
      accepted := accepted + 1;
      open := open + {fd};
      handlers := handlers + [h];
    }

    method Deliver(conn: nat, event: Event)
      modifies this`logs
      ensures View() == Log(old(View()), conn, event)
    {
      logs := logs[conn := (if conn in logs then logs[conn] else []) + [event]];
    }

    /** The second read of a frame, over the beginning of the resized buffer. */
    method ReceivePayload(conn: nat, size: nat)
      requires conn < |conns|
      modifies this`conns, this`buffer
      ensures var available := old(conns[conn].Available()); var got := Min(size, |available|);
        View() == Consume(old(View()), conn, got).(
          buffer := Overwritten(Resized(old(buffer), size), available[..got]))
    {
      hide Resized;
      buffer := Resized(buffer, size);
      var available := conns[conn].Available();
      var got := Min(size, |available|);
      buffer := Overwritten(buffer, available[..got]);
      conns := conns[conn := conns[conn].(consumed := conns[conn].consumed + got)];
    }

    method HandleSession(conn: nat, junk: seq<Byte>) returns (status: Status)
      requires conn < |conns| && |junk| == 4
      modifies this`conns, this`buffer, this`logs
      ensures (View(), status) == SocketServer.HandleSession(old(View()), conn, junk)
    {
      hide Declared, HeaderBytes, TakeFrame, Resized, Overwritten;
      TwoReads(conns[conn], buffer, junk);
      var count, size := ReceiveScalar(conn, junk, false);
      if count > 0 {
        ReceivePayload(conn, size);
        assert conns == old(conns)[conn := TakeFrame(old(conns[conn]), old(buffer), junk).0];
        Deliver(conn, Message(buffer));
        status := Proceed;
      } else {
        assert conns == old(conns);
        Deliver(conn, Disconnected);
        status := RemoveThis;
      }
    }

    method EraseAt(i: nat)
      requires i < |handlers|
      modifies this`handlers, this`open, this`cursor
      ensures View() == Erase(old(View()), i)
      ensures i != old(cursor) < old(|handlers|) ==> cursor < |handlers| && handlers[cursor] == old(handlers[cursor])
      ensures i == old(cursor) ==> handlers[cursor..] == old(handlers[cursor + 1..])
      ensures old(handlers[i].fd) !in open
    {
      open := open - {handlers[i].fd};
      handlers := handlers[..i] + handlers[i + 1..];
      if i < cursor {
        cursor := cursor - 1;
      }
    }

    method HandleAux(conn: nat, junk: seq<Byte>) returns (status: Status)
      requires conn < |conns| && |junk| == 4
      modifies this`conns, this`handlers, this`open, this`cursor, this`phase
      ensures (View(), status) == SocketServer.HandleAux(old(View()), conn, junk)
    {
      hide Declared, HeaderBytes;
      var count, id := ReceiveScalar(conn, junk, false);
      if count > 0 {
        for i := 0 to |handlers|
          invariant View() == Consume(old(View()), conn, count)
          invariant forall j :: 0 <= j < i ==> handlers[j].id != id
        {
          if handlers[i].id == id {
            assert IndexOf(handlers, id) == i;
            if i > cursor && phase.Walking? {
              phase := phase.(skipped := phase.skipped + {id});
            }
            EraseAt(i);
            return Proceed;
          }
        }
        assert IndexOf(handlers, id) == |handlers|;
        return Exit(UnknownId(id));
      }
      assert conns == old(conns);
      return Exit(AuxClosed);
    }

    /** One handler's turn in a pass. */
    method TakeTurn(fd: nat, junk: seq<Byte>)
      requires CanTurn(View(), fd) && |junk| == 4
      modifies this
      ensures View() == Turn(old(View()), fd, junk)
    {
      hide TakeFrame, Install, IndexOf, FrameComes, Declared, HeaderBytes;
      var h := handlers[cursor];
      var status := Proceed;
      if h.fd in phase.ready {
        phase := phase.(visited := phase.visited + [h.id]);
        match h.kind
        case AcceptPreinit => AcceptPreinit(fd);
        case AcceptRegular => AcceptRegular(fd);
        case Preinit => HandlePreinit(h);
        case Session => status := HandleSession(h.conn, junk);
        case Aux => status := HandleAux(h.conn, junk);
      }
      match status
      case Proceed =>
        cursor := cursor + 1;
      case RemoveThis =>
        if cursor < |handlers| {
          EraseAt(cursor);
        }
      case Exit(reason) =>
        phase := Ended(reason);
    }

    /** What clients, sessions and the owner do while the thread is not looking. */
    method Elapse(external: seq<Action>)
      modifies this`conns, this`auxIds
      ensures View() == Elapsed(old(View()), external)
    {
      hide Enabled, Step;
      for i := 0 to |external|
        invariant View() == Elapsed(old(View()), external[..i])
      {
        var a := external[i];
        assert external[..i + 1][..i] == external[..i];
        if External(a) && Enabled(View(), a) {
          ExternalFrame(View(), a);
          var t := Step(View(), a);
          conns, auxIds := t.conns, t.auxIds;
        }
      }
      assert external[..|external|] == external;
    }

    /** `select` returns: the descriptors that are ready, and the iterator at the head of the list. */
    method Watch()
      modifies this`phase, this`cursor
      ensures View() == BeginPass(old(View()))
      ensures phase.Walking?
    {
      var ready := ReadyFds(View());
      phase := Walking(ready, set h | h in handlers && h.fd in ready :: h.id, [], {});
      cursor := 0;
    }

    /** The walk of one pass. A call that would block waits for the next tick. */
    method Walk(script: seq<Tick>, from: nat, ghost start: State) returns (now: nat)
      requires from <= |script| && phase.Walking? && View() == Play(start, script[..from])
      modifies this
      ensures from <= now <= |script| && View() == Play(start, script[..now])
      ensures !phase.Selecting? && (now == |script| || phase.Ended? || cursor >= |handlers|)
    {
      hide Turn, CanTurn, Elapsed;
      now := from;
      while cursor < |handlers| && now < |script|
        invariant from <= now <= |script| && View() == Play(start, script[..now]) && phase.Walking?
        decreases |script| - now
      {
        PlayMore(start, script, now);
        Elapse(script[now].external);
        if |script[now].junk| == 4 && CanTurn(View(), script[now].fd) {
          TurnSteady(View(), script[now].fd, script[now].junk);
          TakeTurn(script[now].fd, script[now].junk);
        }
        now := now + 1;
        if phase.Ended? {
          return;
        }
      }
    }

    /**
     `run`: `select`, then the walk over the list, until a handler asks to exit, `select` fails, or nothing more
     happens that the thread waits for.
     */
    method Run(script: seq<Tick>)
      requires phase.Selecting?
      modifies this
      ensures View() == Closed(Play(old(View()), script))
      ensures old(Inv(View()) && Exits(View())) ==> Inv(View()) && Exits(View())
    {
      hide Elapsed, ReadyFds, BeginPass, Play, Inv, Exits;
      ghost var start := View();
      if Inv(start) && Exits(start) {
        PlayKeeps(start, script);
      }
      PlayNone(start, script);
      var now := 0;
      while now < |script|
        invariant now <= |script| && phase.Selecting? && View() == Closed(Play(start, script[..now]))
      {
        PlayMore(start, script, now);
        Elapse(script[now].external);
        var failed := script[now].selectFails;
        now := now + 1;
        if failed {
          phase := Ended(SelectFailed);
          PlayEnded(start, script, now);
          return;
        }
        if ReadyFds(View()) != {} {
          Watch();
          now := Walk(script, now, start);
          if phase.Ended? {
            PlayEnded(start, script, now);
            return;
          }
          if cursor >= |handlers| {
            phase := Selecting;
            passes := passes + 1;
          } else {
            assert script[..now] == script;
            return;
          }
        }
      }
      assert script[..now] == script;
    }
  }

  lemma PlayNone(s: State, script: seq<Tick>)
    ensures Play(s, script[..0]) == s
  {
  }

  lemma ExecNone(s: State)
    ensures Exec(s, []) == s
  {
  }

  lemma CursorInside(s: State)
    requires Inv(s) && s.phase.Walking?
    ensures s.cursor <= |s.handlers|
  {
  }
}
