/**
 What every reachable state of the socket server keeps, and what follows from it over whole runs.
 */
module SocketServerInvariants {
  import opened Bytes
  import opened Framing
  import opened SocketServer

  // The invariant ---------------------------------------------------------------------------------------

  predicate Live(handlers: seq<Handler>, conn: nat)
  {
    exists i :: 1 <= i < |handlers| && handlers[i].conn == conn
  }

  function IdOf(conn: nat): nat
  {
    FIRST_ID + 1 + conn
  }

  /** The acceptor is first; the others come in the order of their connections and have the matching ids. */
  ghost predicate ListOk(handlers: seq<Handler>, nextId: nat, accepted: nat)
  {
    && handlers != [] && handlers[0].id == FIRST_ID && Acceptor(handlers[0].kind)
    && nextId == IdOf(accepted) && nextId < U32_LIMIT
    && (forall i :: 1 <= i < |handlers| ==>
          handlers[i].conn < accepted && handlers[i].id == IdOf(handlers[i].conn) && !Acceptor(handlers[i].kind))
    && forall i, j :: 0 <= i < j < |handlers| ==> handlers[i].id < handlers[j].id
  }

  /** The open descriptors: the aux client's and one for each listed handler. */
  ghost predicate DescriptorsOk(handlers: seq<Handler>, auxFd: nat, open: set<nat>)
  {
    && (forall i, j :: 0 <= i < j < |handlers| ==> handlers[i].fd != handlers[j].fd)
    && auxFd !in Fds(handlers)
    && open == {auxFd} + Fds(handlers)
  }

  /** The connections `0 .. n` without the aux one, in order. */
  function Others(n: nat, aux: nat): seq<nat>
  {
    if n == 0 then [] else Others(n - 1, aux) + (if n - 1 == aux then [] else [n - 1])
  }

  /**
   Before the handshake there are no sessions and nothing has left the list; after it there is the aux
   handler, and one session was created, once, for every other connection accepted.
   */
  ghost predicate StageOk(
    handlers: seq<Handler>, accepted: nat, aux: nat, created: seq<nat>, logs: map<nat, seq<Event>>)
  {
    if BeforeHandshake(handlers) then
      && |handlers| == 1 + accepted && created == [] && logs == map[]
      && forall i :: 1 <= i < |handlers| ==> handlers[i].kind.Preinit? && handlers[i].conn == i - 1
    else
      && aux < accepted && Live(handlers, aux) && created == Others(accepted, aux)
      && (forall c: nat :: c in logs <==> c < accepted && c != aux)
      && forall i :: 1 <= i < |handlers| ==>
           handlers[i].kind == if handlers[i].conn == aux then Aux else Session
  }

  /** What may be behind the magic on the aux connection: 0, or the id given to a session's handler. */
  predicate GoodId(before: bool, nextId: nat, aux: nat, id: nat)
  {
    id == 0 || (!before && IdOf(0) <= id < nextId && id != IdOf(aux))
  }

  ghost predicate AuxOk(before: bool, nextId: nat, aux: nat, auxIds: seq<nat>, c: Conn)
  {
    && auxIds != [] && auxIds[0] == INIT_MAGIC
    && (forall k :: 1 <= k < |auxIds| ==> GoodId(before, nextId, aux, auxIds[k]))
    && c.sent == Scalars(auxIds) && !c.closed
    && c.consumed % 4 == 0 && c.consumed / 4 <= |auxIds|
    && (before <==> c.consumed == 0)
  }

  /** The payloads among a session's events. */
  function Payloads(log: seq<Event>): seq<seq<Byte>>
  {
    if log == [] then []
    else Payloads(log[..|log| - 1]) + match log[|log| - 1] case Message(p) => [p] case Disconnected => []
  }

  predicate Gone(log: seq<Event>)
  {
    log != [] && log[|log| - 1].Disconnected?
  }

  /** The server has read whole frames only: those it delivered. */
  ghost predicate WholeFrames(c: Conn, delivered: seq<seq<Byte>>)
  {
    Fits(delivered) && c.consumed <= |c.sent| && c.sent[..c.consumed] == EncodeAll(delivered, Big)
  }

  /** The server has read into a frame its client never finished. */
  predicate CutFrames(c: Conn, delivered: seq<seq<Byte>>)
  {
    var p := Parse(c.sent, Big);
    c.closed && c.consumed == |c.sent| && p.rest != [] && |delivered| == |p.frames| + 1 && p.frames <= delivered
  }

  /** A session's log: messages, then at most one `disconnect`, after which its handler is not listed. */
  ghost predicate SessionOk(c: Conn, log: seq<Event>, live: bool)
  {
    && (forall i :: 0 <= i < |log| - 1 ==> log[i].Message?)
    && (WholeFrames(c, Payloads(log)) || CutFrames(c, Payloads(log)))
    && (Gone(log) ==> c.closed && c.consumed == |c.sent| && !live)
  }

  ghost predicate StreamOk(c: nat, conn: Conn, handlers: seq<Handler>, logs: map<nat, seq<Event>>)
  {
    && (BeforeHandshake(handlers) ==> !StartsWithMagic(conn.sent))
    && (c !in logs ==> conn.consumed == 0)
    && (c in logs ==> SessionOk(conn, logs[c], Live(handlers, c)))
  }

  ghost predicate StreamsOk(conns: seq<Conn>, aux: nat, handlers: seq<Handler>, logs: map<nat, seq<Event>>)
  {
    forall c: nat :: c < |conns| && c != aux ==> StreamOk(c, conns[c], handlers, logs)
  }

  /**
   A pass with the handlers `ahead` of its iterator: each due handler has been visited, is still ahead, or
   was erased before its turn; only due ones are visited, in the order of the list, and so at most once.
   */
  ghost predicate AheadOk(w: Phase, ahead: seq<Handler>, nextId: nat)
    requires w.Walking?
  {
    && (forall i :: 0 <= i < |ahead| ==> (ahead[i].fd in w.ready <==> ahead[i].id in w.due))
    && (forall i, j :: 0 <= i < j < |w.visited| ==> w.visited[i] < w.visited[j])
    && (forall v, i :: v in w.visited && 0 <= i < |ahead| ==> v < ahead[i].id)
    && (forall id :: id in w.due ==> id < nextId && (id in w.visited || id in w.skipped || id in Ids(ahead)))
    && (forall id :: id in w.visited ==> id in w.due && id !in w.skipped)
    && (forall id :: id in w.skipped ==> id < nextId && id !in Ids(ahead))
  }

  ghost predicate WalkOk(phase: Phase, cursor: nat, handlers: seq<Handler>, open: set<nat>, nextId: nat, aux: nat)
  {
    phase.Walking? ==>
      && cursor <= |handlers|
      && (cursor == 0 ==> phase.ready <= open && phase.skipped == {})
      && AheadOk(phase, handlers[cursor..], nextId)
      && |phase.skipped| <= 1
      && (phase.skipped != {} ==> IdOf(aux) in phase.visited)
  }

  ghost predicate Inv(s: State)
  {
    && s.accepted <= |s.conns| && s.aux < |s.conns|
    && ListOk(s.handlers, s.nextId, s.accepted)
    && DescriptorsOk(s.handlers, s.auxFd, s.open)
    && StageOk(s.handlers, s.accepted, s.aux, s.created, s.logs)
    && AuxOk(BeforeHandshake(s.handlers), s.nextId, s.aux, s.auxIds, s.conns[s.aux])
    && StreamsOk(s.conns, s.aux, s.handlers, s.logs)
    && WalkOk(s.phase, s.cursor, s.handlers, s.open, s.nextId, s.aux)
  }

  lemma InitialInv(s: State)
    requires Initial(s)
    ensures Inv(s)
  {
    assert s.handlers == [s.handlers[0]];
    assert Scalars([INIT_MAGIC]) == Scalars([]) + Scalar(INIT_MAGIC);
    assert Fds(s.handlers) == {s.handlers[0].fd};
  }

  // The world outside the thread ------------------------------------------------------------------------

  lemma ConnectInv(s: State)
    requires Inv(s)
    ensures Inv(Step(s, Connect))
  {
    hide ListOk, DescriptorsOk, AuxOk, WalkOk, SessionOk;
    assert |s.conns| !in s.logs;
  }

  lemma PrefixStays(sent: seq<Byte>, data: seq<Byte>, n: nat)
    requires n <= |sent|
    ensures (sent + data)[..n] == sent[..n]
  {
  }

  lemma ClientSendsInv(s: State, conn: nat, data: seq<Byte>)
    requires Inv(s) && Enabled(s, ClientSends(conn, data))
    ensures Inv(Step(s, ClientSends(conn, data)))
  {
    hide ListOk, DescriptorsOk, StageOk, AuxOk, WalkOk, Live, Payloads, Declared, Parse, EncodeAll, Fits;
    var c := s.conns[conn];
    assert StreamOk(conn, c, s.handlers, s.logs);
    if conn in s.logs {
      PrefixStays(c.sent, data, c.consumed);
    }
  }

  lemma ClientClosesInv(s: State, conn: nat)
    requires Inv(s) && Enabled(s, ClientCloses(conn))
    ensures Inv(Step(s, ClientCloses(conn)))
  {
    hide ListOk, DescriptorsOk, StageOk, AuxOk, WalkOk, Live, Payloads, Declared, Parse, EncodeAll, Fits;
    assert StreamOk(conn, s.conns[conn], s.handlers, s.logs);
  }

  lemma SendAuxInv(s: State, id: nat)
    requires Inv(s) && GoodId(BeforeHandshake(s.handlers), s.nextId, s.aux, id)
    ensures Inv(SendAux(s, id))
  {
    hide ListOk, DescriptorsOk, StageOk, WalkOk, StreamOk, Scalar;
    var t := SendAux(s, id);
    assert t.auxIds[..|t.auxIds| - 1] == s.auxIds;
  }

  lemma SessionDisconnectsInv(s: State, id: nat)
    requires Inv(s) && Enabled(s, SessionDisconnects(id))
    ensures Inv(Step(s, SessionDisconnects(id)))
  {
    hide DescriptorsOk, AuxOk, WalkOk, StreamsOk, SendAux;
    SendAuxInv(s, id);
  }

  lemma BeginPassInv(s: State)
    requires Inv(s) && Enabled(s, Select)
    ensures Inv(Step(s, Select))
  {
    hide ListOk, DescriptorsOk, AuxOk, StageOk, StreamsOk, WalkOk, ReadyFds, StartsWithMagic, CanTurn;
    BeginWalk(s);
  }

  /** A pass begins with nothing visited, and every listed handler ahead. */
  lemma BeginWalk(s: State)
    requires ListOk(s.handlers, s.nextId, s.accepted) && DescriptorsOk(s.handlers, s.auxFd, s.open)
    ensures var w := BeginPass(s).phase; WalkOk(w, 0, s.handlers, s.open, s.nextId, s.aux)
  {
    hide HandlerReadable;
    var w := BeginPass(s).phase;
    assert s.handlers[0..] == s.handlers;
    forall h | h in s.handlers
      ensures h.id < s.nextId && (h.id in w.due ==> h.fd in w.ready)
    {
      if h.id in w.due {
        var k :| k in s.handlers && k.fd in w.ready && k.id == h.id;
        assert k == h;
      }
    }
  }

  // The list and the pass -------------------------------------------------------------------------------

  lemma AdvanceIdle(w: Phase, ahead: seq<Handler>, nextId: nat)
    requires w.Walking? && ahead != [] && AheadOk(w, ahead, nextId) && ahead[0].fd !in w.ready
    ensures AheadOk(w, ahead[1..], nextId)
  {
    assert ahead == [ahead[0]] + ahead[1..];
    assert Ids(ahead) == {ahead[0].id} + Ids(ahead[1..]);
  }

  lemma AdvanceVisit(w: Phase, ahead: seq<Handler>, nextId: nat)
    requires w.Walking? && ahead != [] && AheadOk(w, ahead, nextId) && ahead[0].fd in w.ready
    requires forall j :: 1 <= j < |ahead| ==> ahead[0].id < ahead[j].id
    ensures AheadOk(w.(visited := w.visited + [ahead[0].id]), ahead[1..], nextId)
  {
    assert ahead == [ahead[0]] + ahead[1..];
    assert Ids(ahead) == {ahead[0].id} + Ids(ahead[1..]);
    assert forall k :: 0 <= k < |w.visited| ==> w.visited[k] in w.visited;
    assert ahead[0].id in w.due;
  }

  /** The handshake changes kinds only. */
  lemma AheadKinds(w: Phase, ahead: seq<Handler>, other: seq<Handler>, nextId: nat)
    requires w.Walking? && AheadOk(w, ahead, nextId) && |ahead| == |other|
    requires forall i :: 0 <= i < |ahead| ==> ahead[i].id == other[i].id && ahead[i].fd == other[i].fd
    ensures AheadOk(w, other, nextId)
  {
    SameIds(ahead, other);
    SameIds(other, ahead);
  }

  lemma SameIds(a: seq<Handler>, b: seq<Handler>)
    requires |a| == |b| && forall i :: 0 <= i < |a| ==> a[i].id == b[i].id
    ensures Ids(a) <= Ids(b)
  {
    forall h | h in a
      ensures h.id in Ids(b)
    {
      var i :| 0 <= i < |a| && a[i] == h;
      assert b[i] in b;
    }
  }

  /** A connection accepted during the pass is not among the due ones. */
  lemma AheadAccept(w: Phase, ahead: seq<Handler>, h: Handler, nextId: nat)
    requires w.Walking? && AheadOk(w, ahead, nextId) && h.fd !in w.ready && h.id == nextId
    ensures AheadOk(w, ahead + [h], nextId + 1)
  {
    assert Ids(ahead + [h]) == Ids(ahead) + {h.id};
  }

  /** A handler erased before its turn is skipped. */
  lemma AheadSkip(w: Phase, ahead: seq<Handler>, j: nat, nextId: nat)
    requires w.Walking? && AheadOk(w, ahead, nextId) && j < |ahead| && ahead[j].id < nextId
    requires forall a, b :: 0 <= a < b < |ahead| ==> ahead[a].id < ahead[b].id
    ensures AheadOk(w.(skipped := w.skipped + {ahead[j].id}), Erased(ahead, j), nextId)
  {
    var rest := Erased(ahead, j);
    assert ahead == ahead[..j] + [ahead[j]] + ahead[j + 1..];
    assert Ids(ahead) == Ids(rest) + {ahead[j].id};
    assert ahead[j].id !in Ids(rest);
  }

  function Erased<T>(list: seq<T>, i: nat): (r: seq<T>)
    requires i < |list|
    ensures |r| == |list| - 1
  {
    list[..i] + list[i + 1..]
  }

  lemma ErasedList(handlers: seq<Handler>, i: nat, nextId: nat, accepted: nat)
    requires ListOk(handlers, nextId, accepted) && 1 <= i < |handlers|
    ensures ListOk(Erased(handlers, i), nextId, accepted)
    ensures forall c: nat :: Live(Erased(handlers, i), c) ==> Live(handlers, c)
    ensures forall c: nat :: Live(handlers, c) && c != handlers[i].conn ==> Live(Erased(handlers, i), c)
    ensures !Live(Erased(handlers, i), handlers[i].conn)
  {
    var list := Erased(handlers, i);
    assert forall k :: 0 <= k < |list| ==> list[k] == handlers[if k < i then k else k + 1];
    forall c: nat | Live(handlers, c) && c != handlers[i].conn
      ensures Live(list, c)
    {
      var k :| 1 <= k < |handlers| && handlers[k].conn == c;
      assert list[if k < i then k else k - 1].conn == c;
    }
  }

  lemma ErasedDescriptors(handlers: seq<Handler>, i: nat, auxFd: nat, open: set<nat>)
    requires DescriptorsOk(handlers, auxFd, open) && i < |handlers|
    ensures DescriptorsOk(Erased(handlers, i), auxFd, open - {handlers[i].fd})
  {
    var list := Erased(handlers, i);
    assert forall k :: 0 <= k < |list| ==> list[k] == handlers[if k < i then k else k + 1];
    assert handlers == handlers[..i] + [handlers[i]] + handlers[i + 1..];
    assert handlers[i] in handlers;
    assert Fds(list) == Fds(handlers) - {handlers[i].fd};
  }

  lemma AcceptedDescriptors(handlers: seq<Handler>, h: Handler, auxFd: nat, open: set<nat>)
    requires DescriptorsOk(handlers, auxFd, open) && h.fd !in open
    ensures DescriptorsOk(handlers + [h], auxFd, open + {h.fd})
  {
    assert Fds(handlers + [h]) == Fds(handlers) + {h.fd};
    assert forall k :: 0 <= k < |handlers| ==> handlers[k].fd in Fds(handlers);
  }

  lemma AcceptedLive(handlers: seq<Handler>, h: Handler)
    requires handlers != []
    ensures forall c: nat :: Live(handlers + [h], c) <==> Live(handlers, c) || c == h.conn
  {
    assert (handlers + [h])[|handlers|] == h;
    forall c: nat | Live(handlers, c)
      ensures Live(handlers + [h], c)
    {
      var k :| 1 <= k < |handlers| && handlers[k].conn == c;
      assert (handlers + [h])[k].conn == c;
    }
  }

  // Turns -----------------------------------------------------------------------------------------------

  lemma IdleInv(s: State, fd: nat, junk: seq<Byte>)
    requires Inv(s) && CanTurn(s, fd) && |junk| == 4 && Current(s).fd !in s.phase.ready
    ensures Inv(Turn(s, fd, junk))
  {
    hide ListOk, DescriptorsOk, StageOk, AuxOk, StreamsOk, AheadOk;
    AdvanceIdle(s.phase, s.handlers[s.cursor..], s.nextId);
    assert s.handlers[s.cursor..][1..] == s.handlers[s.cursor + 1..];
  }

  /** The pass after a visit that leaves the ids and descriptors of the list as they were. */
  lemma VisitedWalk(s: State)
    requires Inv(s) && s.phase.Walking? && s.cursor < |s.handlers| && Current(s).fd in s.phase.ready
    ensures var w := Visit(s, Current(s).id).phase;
      && AheadOk(w, s.handlers[s.cursor + 1..], s.nextId)
      && (Current(s).kind.Aux? ==> w.skipped == {})
  {
    hide DescriptorsOk, AuxOk, StreamsOk;
    var ahead := s.handlers[s.cursor..];
    AdvanceVisit(s.phase, ahead, s.nextId);
    assert ahead[1..] == s.handlers[s.cursor + 1..];
    assert ahead[0] == Current(s);
    assert Current(s).kind.Aux? ==> ahead[0].id == IdOf(s.aux);
    if Current(s).kind.Aux? && s.phase.skipped != {} {
      assert false;
    }
  }

  lemma ListBasics(s: State)
    requires Inv(s)
    ensures s.handlers != [] && s.nextId == IdOf(s.accepted) && s.handlers[0].id == FIRST_ID
    ensures s.cursor < |s.handlers| && Acceptor(Current(s).kind) ==> s.cursor == 0
  {
    hide DescriptorsOk, StageOk, AuxOk, StreamsOk, WalkOk;
  }

  lemma AcceptInv(s: State, fd: nat, junk: seq<Byte>)
    requires Inv(s) && CanTurn(s, fd) && |junk| == 4
    requires Current(s).fd in s.phase.ready && Acceptor(Current(s).kind)
    ensures Inv(Turn(s, fd, junk))
  {
    hide AheadOk, StreamsOk, Turn, DescriptorsOk, StageOk, ListOk;
    VisitedWalk(s);
    var kind := if BeforeHandshake(s.handlers) then Preinit else Session;
    var h := Handler(s.nextId, fd, s.accepted, kind);
    var t := Turn(s, fd, junk);
    ListBasics(s);
    AcceptTurn(s, fd, junk, h);
    AheadAccept(t.phase, s.handlers[1..], h, s.nextId);
    assert t.handlers[1..] == s.handlers[1..] + [h];
    AcceptedList(s.handlers, h, s.nextId, s.accepted);
    AcceptedDescriptors(s.handlers, h, s.auxFd, s.open);
    AcceptedStage(s.handlers, h, s.accepted, s.aux, s.created, s.logs);
    AcceptedStreams(s, h, t.logs);
  }

  lemma AcceptedStage(
    handlers: seq<Handler>, h: Handler, accepted: nat, aux: nat, created: seq<nat>, logs: map<nat, seq<Event>>)
    requires handlers != [] && StageOk(handlers, accepted, aux, created, logs) && h.conn == accepted
    requires h.kind == if BeforeHandshake(handlers) then Preinit else Session
    ensures BeforeHandshake(handlers + [h]) == BeforeHandshake(handlers)
    ensures if BeforeHandshake(handlers) then StageOk(handlers + [h], accepted + 1, aux, created, logs)
      else StageOk(handlers + [h], accepted + 1, aux, created + [accepted], logs[accepted := []])
  {
    AcceptedLive(handlers, h);
    hide Live;
  }

  lemma AcceptTurn(s: State, fd: nat, junk: seq<Byte>, h: Handler)
    requires Inv(s) && CanTurn(s, fd) && |junk| == 4
    requires Current(s).fd in s.phase.ready && Acceptor(Current(s).kind)
    requires h == Handler(s.nextId, fd, s.accepted, if BeforeHandshake(s.handlers) then Preinit else Session)
    ensures s.cursor == 0 && h.fd !in s.phase.ready
    ensures Turn(s, fd, junk) == s.(
      handlers := s.handlers + [h], nextId := s.nextId + 1, accepted := s.accepted + 1, open := s.open + {fd},
      cursor := 1, phase := Visit(s, FIRST_ID).phase,
      created := if h.kind.Session? then s.created + [s.accepted] else s.created,
      logs := if h.kind.Session? then s.logs[s.accepted := []] else s.logs)
  {
    hide AheadOk, StreamsOk, StageOk, AuxOk, DescriptorsOk;
  }

  lemma AcceptedList(handlers: seq<Handler>, h: Handler, nextId: nat, accepted: nat)
    requires ListOk(handlers, nextId, accepted) && nextId < U32_LIMIT - 1
    requires h.id == nextId && h.conn == accepted && !Acceptor(h.kind)
    ensures ListOk(handlers + [h], nextId + 1, accepted + 1)
  {
    assert forall i :: 0 <= i < |handlers| ==> handlers[i].id < nextId;
  }

  lemma AcceptedStreams(s: State, h: Handler, logs: map<nat, seq<Event>>)
    requires Inv(s) && h.conn == s.accepted < |s.conns|
    requires logs == s.logs || (!BeforeHandshake(s.handlers) && logs == s.logs[s.accepted := []])
    ensures StreamsOk(s.conns, s.aux, s.handlers + [h], logs)
  {
    hide DescriptorsOk, AuxOk, WalkOk, Live, Declared, Parse;
    AcceptedLive(s.handlers, h);
    assert s.accepted !in s.logs;
    forall c: nat | c < |s.conns| && c != s.aux
      ensures StreamOk(c, s.conns[c], s.handlers + [h], logs)
    {
      assert StreamOk(c, s.conns[c], s.handlers, s.logs);
      if c == s.accepted {
        assert Payloads([]) == [];
      }
    }
  }

  // The handshake

  /** One more round of the handshake's loop: the handler at its position, and a session unless it is one of the two. */
  lemma InstallStep(s: State, auxId: nat, n: nat)
    requires 0 < n <= |s.handlers|
    ensures var t, r := Install(s, auxId, n - 1), Install(s, auxId, n); var h := t.handlers[n - 1];
      && r.handlers == t.handlers[n - 1 := Installed(h, n - 1, auxId)]
      && r.created == t.created + (if n > 1 && h.id != auxId then [h.conn] else [])
      && r.logs == if n > 1 && h.id != auxId then t.logs[h.conn := []] else t.logs
  {
    hide Installed;
  }

  lemma {:induction false} InstallHandlers(s: State, auxId: nat, n: nat)
    requires n <= |s.handlers|
    ensures forall i :: 0 <= i < |s.handlers| ==>
      Install(s, auxId, n).handlers[i] == if i < n then Installed(s.handlers[i], i, auxId) else s.handlers[i]
  {
    hide Installed;
    if n > 0 {
      InstallHandlers(s, auxId, n - 1);
      InstallStep(s, auxId, n);
      hide Install;
    }
  }

  /** Empty logs for the first `n` connections without the aux one. */
  ghost predicate FreshLogs(logs: map<nat, seq<Event>>, n: nat, aux: nat)
  {
    (forall c: nat :: c in logs <==> c < n && c != aux) && forall c: nat :: c in logs ==> logs[c] == []
  }

  lemma FreshLogsMore(logs: map<nat, seq<Event>>, n: nat, aux: nat)
    requires FreshLogs(logs, n, aux)
    ensures FreshLogs(if n == aux then logs else logs[n := []], n + 1, aux)
  {
  }

  lemma {:induction false} InstallSpec(s: State, auxId: nat, n: nat)
    requires n <= |s.handlers| && s.created == [] && s.logs == map[] && auxId == IdOf(s.aux)
    requires forall i :: 1 <= i < |s.handlers| ==> s.handlers[i].conn == i - 1 && s.handlers[i].id == IdOf(i - 1)
    ensures var r := Install(s, auxId, n);
      && (forall i :: 0 <= i < |s.handlers| ==>
            r.handlers[i] == if i < n then Installed(s.handlers[i], i, auxId) else s.handlers[i])
      && r.created == (if n == 0 then [] else Others(n - 1, s.aux))
      && FreshLogs(r.logs, if n == 0 then 0 else n - 1, s.aux)
  {
    hide Installed, FreshLogs;
    InstallHandlers(s, auxId, n);
    if n > 0 {
      InstallSpec(s, auxId, n - 1);
      InstallStep(s, auxId, n);
      hide Install;
      if n > 1 {
        FreshLogsMore(Install(s, auxId, n - 1).logs, n - 2, s.aux);
      }
    } else {
      assert FreshLogs(map[], 0, s.aux) by { NoLogs(s.aux); }
    }
  }

  lemma NoLogs(aux: nat)
    ensures FreshLogs(map[], 0, aux)
  {
  }

  /** Only the aux connection shows the magic, and peeking has taken nothing off any socket before. */
  lemma MagicIsAux(s: State)
    requires Inv(s) && s.phase.Walking? && s.cursor < |s.handlers| && Current(s).kind.Preinit?
    ensures BeforeHandshake(s.handlers) && Current(s).conn < |s.conns|
    ensures StartsWithMagic(s.conns[Current(s).conn].Available()) ==> Current(s).conn == s.aux
  {
    hide DescriptorsOk, WalkOk, Declared, SessionOk;
    var c := Current(s).conn;
    if c != s.aux {
      assert StreamOk(c, s.conns[c], s.handlers, s.logs);
      assert s.conns[c].Available() == s.conns[c].sent;
    }
  }

  lemma PeekInv(s: State, fd: nat, junk: seq<Byte>)
    requires Inv(s) && CanTurn(s, fd) && |junk| == 4
    requires Current(s).fd in s.phase.ready && Current(s).kind.Preinit?
    requires !StartsWithMagic(s.conns[Current(s).conn].Available())
    ensures Inv(Turn(s, fd, junk))
  {
    hide AheadOk, ListOk, DescriptorsOk, StageOk, AuxOk, StreamsOk, StartsWithMagic;
    VisitedWalk(s);
  }

  lemma HandshakeTurn(s: State, fd: nat, junk: seq<Byte>)
    requires Inv(s) && CanTurn(s, fd) && |junk| == 4
    requires Current(s).fd in s.phase.ready && Current(s).kind.Preinit?
    requires StartsWithMagic(s.conns[Current(s).conn].Available())
    ensures var t := Turn(s, fd, junk); var h := Current(s);
      && h.conn == s.aux < s.accepted && |t.handlers| == |s.handlers|
      && t == s.(handlers := t.handlers, created := t.created, logs := t.logs, cursor := s.cursor + 1,
           phase := Visit(s, h.id).phase, conns := Consume(s, s.aux, 4).conns)
      && (forall i :: 0 <= i < |s.handlers| ==> t.handlers[i] == Installed(s.handlers[i], i, IdOf(s.aux)))
      && t.created == Others(s.accepted, s.aux)
      && (forall c: nat :: c in t.logs <==> c < s.accepted && c != s.aux)
      && (forall c: nat :: c in t.logs ==> t.logs[c] == [])
  {
    hide DescriptorsOk, WalkOk, StreamsOk, AuxOk, Declared, Others, Install;
    MagicIsAux(s);
    InstallSpec(Consume(Visit(s, Current(s).id), s.aux, 4), IdOf(s.aux), |s.handlers|);
  }

  lemma HandshakeInv(s: State, fd: nat, junk: seq<Byte>)
    requires Inv(s) && CanTurn(s, fd) && |junk| == 4
    requires Current(s).fd in s.phase.ready && Current(s).kind.Preinit?
    requires StartsWithMagic(s.conns[Current(s).conn].Available())
    ensures Inv(Turn(s, fd, junk))
  {
    hide Turn, ListOk, DescriptorsOk, StageOk, AuxOk, AheadOk, StreamsOk, StartsWithMagic;
    MagicIsAux(s);
    HandshakeTurn(s, fd, junk);
    VisitedWalk(s);
    var t := Turn(s, fd, junk);
    AheadKinds(t.phase, s.handlers[s.cursor + 1..], t.handlers[t.cursor..], s.nextId);
    InstalledDescriptors(s.handlers, t.handlers, s.auxFd, s.open);
    InstalledList(s.handlers, t.handlers, s.nextId, s.accepted, s.aux);
    InstalledStage(s, t);
    HandshakeAux(s);
    HandshakeStreams(s, t);
  }

  lemma InstalledList(handlers: seq<Handler>, other: seq<Handler>, nextId: nat, accepted: nat, aux: nat)
    requires ListOk(handlers, nextId, accepted) && |handlers| == |other|
    requires forall i :: 0 <= i < |handlers| ==> other[i] == Installed(handlers[i], i, IdOf(aux))
    ensures ListOk(other, nextId, accepted) && !BeforeHandshake(other)
  {
  }

  lemma InstalledStage(s: State, t: State)
    requires Inv(s) && BeforeHandshake(s.handlers) && s.aux < s.accepted
    requires |t.handlers| == |s.handlers|
    requires forall i :: 0 <= i < |s.handlers| ==> t.handlers[i] == Installed(s.handlers[i], i, IdOf(s.aux))
    requires t.created == Others(s.accepted, s.aux)
    requires forall c: nat :: c in t.logs <==> c < s.accepted && c != s.aux
    ensures StageOk(t.handlers, s.accepted, s.aux, t.created, t.logs)
  {
    hide DescriptorsOk, AuxOk, StreamsOk, WalkOk, Others;
    assert t.handlers[s.aux + 1].conn == s.aux;
  }

  lemma HandshakeAux(s: State)
    requires Inv(s) && BeforeHandshake(s.handlers)
    ensures AuxOk(false, s.nextId, s.aux, s.auxIds, Consume(s, s.aux, 4).conns[s.aux])
  {
    hide DescriptorsOk, StreamsOk, WalkOk, ListOk, StageOk, Scalars;
  }

  lemma InstalledDescriptors(handlers: seq<Handler>, other: seq<Handler>, auxFd: nat, open: set<nat>)
    requires DescriptorsOk(handlers, auxFd, open) && |handlers| == |other|
    requires forall i :: 0 <= i < |handlers| ==> handlers[i].fd == other[i].fd
    ensures DescriptorsOk(other, auxFd, open)
  {
    SameFds(handlers, other);
    SameFds(other, handlers);
  }

  lemma SameFds(a: seq<Handler>, b: seq<Handler>)
    requires |a| == |b| && forall i :: 0 <= i < |a| ==> a[i].fd == b[i].fd
    ensures Fds(a) <= Fds(b)
  {
    forall h | h in a
      ensures h.fd in Fds(b)
    {
      var i :| 0 <= i < |a| && a[i] == h;
      assert b[i] in b;
    }
  }

  lemma HandshakeStreams(s: State, t: State)
    requires Inv(s) && BeforeHandshake(s.handlers)
    requires t.aux == s.aux && |t.conns| == |s.conns|
    requires forall c: nat :: c < |s.conns| && c != s.aux ==> t.conns[c] == s.conns[c]
    requires forall c: nat :: c in t.logs ==> t.logs[c] == []
    ensures StreamsOk(t.conns, t.aux, t.handlers, t.logs)
  {
    hide ListOk, DescriptorsOk, AuxOk, WalkOk, Live, Declared, Parse;
    forall c: nat | c < |s.conns| && c != s.aux
      ensures StreamOk(c, t.conns[c], t.handlers, t.logs)
    {
      assert StreamOk(c, s.conns[c], s.handlers, s.logs);
      assert Payloads([]) == [];
    }
  }

  // A session's turn

  lemma PayloadsOfMore(log: seq<Event>, e: Event)
    ensures Payloads(log + [e]) == Payloads(log) + match e case Message(p) => [p] case Disconnected => []
  {
    assert (log + [e])[..|log|] == log;
  }

  lemma TakeWholeFrame(c: Conn, delivered: seq<seq<Byte>>, buffer: seq<Byte>, junk: seq<Byte>)
    requires WholeFrames(c, delivered) && HasFrame(c.Available(), Big) && |junk| == 4
    ensures var (d, payload) := TakeFrame(c, buffer, junk);
      d.sent == c.sent && d.closed == c.closed && WholeFrames(d, delivered + [payload])
  {
    hide EncodeAll, Encode, Declared;
    var available := c.Available();
    var (d, payload) := TakeFrame(c, buffer, junk);
    DeclaredOfFirst4(available);
    var n := Declared(available, Big);
    EncodeOfFrame(available, Big);
    assert payload == available[4..4 + n];
    EncodeAllAppend(delivered, [payload], Big);
    EncodeAllOne(payload, Big);
    assert c.sent[..d.consumed] == c.sent[..c.consumed] + available[..4 + n];
  }

  lemma TakeCutFrame(c: Conn, delivered: seq<seq<Byte>>, buffer: seq<Byte>, junk: seq<Byte>)
    requires WholeFrames(c, delivered) && !HasFrame(c.Available(), Big) && c.closed && c.Available() != [] && |junk| == 4
    ensures var (d, payload) := TakeFrame(c, buffer, junk);
      d.sent == c.sent && d.closed && CutFrames(d, delivered + [payload])
  {
    hide EncodeAll, Parse, Declared;
    var available := c.Available();
    if |available| >= 4 {
      DeclaredOfFirst4(available);
    }
    FramesOfPrefix(delivered, available, Big);
    ParseOfRest(available, Big);
    assert c.sent == c.sent[..c.consumed] + available;
    assert delivered + [] == delivered;
  }

  /** A frame taken whole continues the whole frames; one taken from a closed connection may be cut. */
  lemma TakeFrameOk(c: Conn, delivered: seq<seq<Byte>>, buffer: seq<Byte>, junk: seq<Byte>)
    requires WholeFrames(c, delivered) && FrameComes(c) && c.Available() != [] && |junk| == 4
    ensures var (d, payload) := TakeFrame(c, buffer, junk);
      && d.sent == c.sent && d.closed == c.closed
      && if HasFrame(c.Available(), Big) then WholeFrames(d, delivered + [payload])
         else CutFrames(d, delivered + [payload])
  {
    hide TakeFrame, WholeFrames, CutFrames, HasFrame;
    if HasFrame(c.Available(), Big) {
      TakeWholeFrame(c, delivered, buffer, junk);
    } else {
      TakeCutFrame(c, delivered, buffer, junk);
    }
  }

  /** The message of any frame, whole or cut, byte by byte: what was received, what the buffer held, then zeros. */
  lemma TakenBytes(c: Conn, buffer: seq<Byte>, junk: seq<Byte>)
    requires |junk| == 4
    ensures var got := c.Available(); var (d, message) := TakeFrame(c, buffer, junk);
      && (|got| >= 4 ==> |message| == Number(got[3], got[2], got[1], got[0]))
      && d == c.(consumed := c.consumed + Min(4 + |message|, |got|))
      && forall i :: 0 <= i < |message| ==>
           message[i] == if 4 + i < |got| then got[4 + i] else if i < |buffer| then buffer[i] else 0
  {
    var got, size := c.Available(), Declared(HeaderBytes(c.Available(), junk), Big);
    if |got| >= 4 {
      DeclaredValue(got[..4]);
    }
    hide Declared, HeaderBytes, Resized;
    forall i | 0 <= i < size
      ensures Resized(buffer, size)[i] == if i < |buffer| then buffer[i] else 0
    {
      ResizedAt(buffer, size, i);
    }
  }

  lemma DeclaredOfFirst4(s: seq<Byte>)
    requires |s| >= 4
    ensures Declared(s[..4], Big) == Declared(s, Big)
  {
    assert s[..4][..4] == s[..4];
  }

  lemma MessageOk(c: Conn, log: seq<Event>, buffer: seq<Byte>, junk: seq<Byte>)
    requires SessionOk(c, log, true) && FrameComes(c) && c.Available() != [] && |junk| == 4
    ensures var (d, payload) := TakeFrame(c, buffer, junk);
      d.sent == c.sent && SessionOk(d, log + [Message(payload)], true)
  {
    hide WholeFrames, TakeFrame, Payloads, FrameComes;
    var (d, payload) := TakeFrame(c, buffer, junk);
    PayloadsOfMore(log, Message(payload));
    TakeFrameOk(c, Payloads(log), buffer, junk);
  }

  lemma DisconnectOk(c: Conn, log: seq<Event>)
    requires SessionOk(c, log, true) && FrameComes(c) && c.Available() == []
    ensures SessionOk(c, log + [Disconnected], false)
  {
    hide Payloads, EncodeAll, Parse, Declared;
    PayloadsOfMore(log, Disconnected);
    assert Payloads(log) + [] == Payloads(log);
    assert !HasFrame([], Big);
  }

  lemma SessionLive(s: State)
    requires Inv(s) && s.phase.Walking? && s.cursor < |s.handlers| && Current(s).kind.Session?
    ensures var h := Current(s);
      && s.cursor >= 1 && !BeforeHandshake(s.handlers) && h.conn != s.aux && h.conn < s.accepted
      && h.conn in s.logs && Live(s.handlers, h.conn) && SessionOk(s.conns[h.conn], s.logs[h.conn], true)
  {
    hide DescriptorsOk, AuxOk, WalkOk, SessionOk, Others;
    var c := Current(s).conn;
    assert s.handlers[s.cursor].conn == c;
    assert StreamOk(c, s.conns[c], s.handlers, s.logs);
  }

  lemma MessageTurn(s: State, fd: nat, junk: seq<Byte>)
    requires CanTurn(s, fd) && |junk| == 4 && Current(s).fd in s.phase.ready && Current(s).kind.Session?
    requires s.conns[Current(s).conn].Available() != [] && Current(s).conn in s.logs
    ensures var c := Current(s).conn; var (d, payload) := TakeFrame(s.conns[c], s.buffer, junk);
      Turn(s, fd, junk) == s.(conns := s.conns[c := d], buffer := payload, cursor := s.cursor + 1,
        logs := s.logs[c := s.logs[c] + [Message(payload)]], phase := Visit(s, Current(s).id).phase)
  {
    hide TakeFrame, FrameComes;
  }

  lemma MessageInv(s: State, fd: nat, junk: seq<Byte>)
    requires Inv(s) && CanTurn(s, fd) && |junk| == 4
    requires Current(s).fd in s.phase.ready && Current(s).kind.Session?
    requires s.conns[Current(s).conn].Available() != []
    ensures Inv(Turn(s, fd, junk))
  {
    hide AheadOk, ListOk, DescriptorsOk, StageOk, AuxOk, SessionOk, StreamsOk, TakeFrame, FrameComes, Turn;
    SessionLive(s);
    VisitedWalk(s);
    var c := Current(s).conn;
    MessageOk(s.conns[c], s.logs[c], s.buffer, junk);
    var t := Turn(s, fd, junk);
    MessageTurn(s, fd, junk);
    StreamsUpdate(s.conns, s.aux, s.handlers, s.logs, c, t.conns[c], t.logs[c]);
    LogsUpdate(s, c, t.logs[c]);
  }

  lemma StreamsUpdate(
    conns: seq<Conn>, aux: nat, handlers: seq<Handler>, logs: map<nat, seq<Event>>, c: nat, d: Conn, log: seq<Event>)
    requires StreamsOk(conns, aux, handlers, logs)
    requires c < |conns| && c != aux && c in logs && d.sent == conns[c].sent
    requires SessionOk(d, log, Live(handlers, c))
    ensures StreamsOk(conns[c := d], aux, handlers, logs[c := log])
  {
    hide SessionOk, Live, Declared;
    assert StreamOk(c, conns[c], handlers, logs);
    var updated := conns[c := d];
    forall k: nat | k < |updated| && k != aux
      ensures StreamOk(k, updated[k], handlers, logs[c := log])
    {
      if k != c {
        assert StreamOk(k, conns[k], handlers, logs);
      }
    }
  }

  lemma LogsUpdate(s: State, c: nat, log: seq<Event>)
    requires c in s.logs && !BeforeHandshake(s.handlers)
    requires StageOk(s.handlers, s.accepted, s.aux, s.created, s.logs)
    ensures StageOk(s.handlers, s.accepted, s.aux, s.created, s.logs[c := log])
  {
    hide Live, Others;
  }

  lemma ErasedStage(
    handlers: seq<Handler>, i: nat, accepted: nat, aux: nat, created: seq<nat>,
    logs: map<nat, seq<Event>>, logs': map<nat, seq<Event>>)
    requires handlers != [] && !BeforeHandshake(handlers) && StageOk(handlers, accepted, aux, created, logs)
    requires 1 <= i < |handlers| && handlers[i].conn != aux && logs.Keys == logs'.Keys
    ensures !BeforeHandshake(Erased(handlers, i))
    ensures StageOk(Erased(handlers, i), accepted, aux, created, logs')
  {
    hide Others;
    var list := Erased(handlers, i);
    assert forall k :: 0 <= k < |list| ==> list[k] == handlers[if k < i then k else k + 1];
    var k :| 1 <= k < |handlers| && handlers[k].conn == aux;
    assert list[if k < i then k else k - 1].conn == aux;
    assert forall c: nat :: c in logs' <==> c in logs;
  }

  /** Erasing a session's handler: what is left of the invariant apart from the pass. */
  lemma ErasedSession(s: State, i: nat, logs: map<nat, seq<Event>>)
    requires Inv(s) && !BeforeHandshake(s.handlers) && 1 <= i < |s.handlers| && s.handlers[i].conn != s.aux
    requires logs.Keys == s.logs.Keys
    requires forall c: nat :: c in s.logs && c != s.handlers[i].conn ==> logs[c] == s.logs[c]
    requires var c := s.handlers[i].conn; c in s.logs ==> SessionOk(s.conns[c], logs[c], false)
    ensures var list := Erased(s.handlers, i);
      && ListOk(list, s.nextId, s.accepted) && !BeforeHandshake(list)
      && DescriptorsOk(list, s.auxFd, s.open - {s.handlers[i].fd})
      && StageOk(list, s.accepted, s.aux, s.created, logs)
      && StreamsOk(s.conns, s.aux, list, logs)
  {
    hide ListOk, DescriptorsOk, StageOk, AuxOk, WalkOk, Live, Others, Payloads, WholeFrames, CutFrames, Declared,
      Erased, BeforeHandshake;
    var list := Erased(s.handlers, i);
    ErasedList(s.handlers, i, s.nextId, s.accepted);
    ErasedDescriptors(s.handlers, i, s.auxFd, s.open);
    ErasedStage(s.handlers, i, s.accepted, s.aux, s.created, s.logs, logs);
    forall c: nat | c < |s.conns| && c != s.aux
      ensures StreamOk(c, s.conns[c], list, logs)
    {
      assert StreamOk(c, s.conns[c], s.handlers, s.logs);
    }
  }

  lemma DisconnectInv(s: State, fd: nat, junk: seq<Byte>)
    requires Inv(s) && CanTurn(s, fd) && |junk| == 4
    requires Current(s).fd in s.phase.ready && Current(s).kind.Session?
    requires s.conns[Current(s).conn].Available() == []
    ensures Inv(Turn(s, fd, junk))
  {
    hide AheadOk, ListOk, DescriptorsOk, AuxOk, SessionOk, StageOk, StreamsOk, FrameComes, Turn, Erased;
    SessionLive(s);
    VisitedWalk(s);
    var c := Current(s).conn;
    DisconnectOk(s.conns[c], s.logs[c]);
    DisconnectTurn(s, fd, junk);
    var t := Turn(s, fd, junk);
    ErasedSession(s, s.cursor, t.logs);
    ErasedAhead(s.handlers, s.cursor, s.cursor + 1);
  }

  lemma ErasedAhead<T>(list: seq<T>, i: nat, k: nat)
    requires i < |list| && k <= |list|
    ensures if k <= i then Erased(list, i)[k..] == Erased(list[k..], i - k) else Erased(list, i)[k - 1..] == list[k..]
  {
  }

  lemma DisconnectTurn(s: State, fd: nat, junk: seq<Byte>)
    requires CanTurn(s, fd) && |junk| == 4 && Current(s).fd in s.phase.ready && Current(s).kind.Session?
    requires s.conns[Current(s).conn].Available() == [] && Current(s).conn in s.logs
    ensures var c := Current(s).conn;
      Turn(s, fd, junk) == s.(handlers := Erased(s.handlers, s.cursor), open := s.open - {Current(s).fd},
        logs := s.logs[c := s.logs[c] + [Disconnected]], phase := Visit(s, Current(s).id).phase)
  {
    hide FrameComes;
  }

  // The aux handler's turn

  lemma {:induction false} ScalarsAt(ids: seq<nat>, k: nat)
    requires k < |ids|
    ensures Scalars(ids)[4 * k..4 * k + 4] == Scalar(ids[k])
  {
    hide Scalar;
    var front := ids[..|ids| - 1];
    if k == |ids| - 1 {
      assert Scalars(ids)[4 * k..4 * k + 4] == Scalar(ids[k]);
    } else {
      ScalarsAt(front, k);
      assert Scalars(ids)[4 * k..4 * k + 4] == Scalars(front)[4 * k..4 * k + 4];
    }
  }

  /** The number of ids, the magic included, taken off the aux connection. */
  function AuxRead(s: State): nat
    requires s.aux < |s.conns|
  {
    s.conns[s.aux].consumed / 4
  }

  /** The aux handler reads the id next in the queue. */
  lemma AuxReads(s: State, fd: nat, junk: seq<Byte>)
    requires Inv(s) && CanTurn(s, fd) && |junk| == 4
    requires Current(s).fd in s.phase.ready && Current(s).kind.Aux?
    ensures s.phase.Walking? && 1 <= s.cursor < |s.handlers| && !BeforeHandshake(s.handlers)
    ensures Current(s).conn == s.aux && Current(s).id == IdOf(s.aux)
    ensures var c := s.conns[s.aux]; var k := AuxRead(s);
      && 1 <= k < |s.auxIds| && |c.Available()| >= 4
      && Declared(HeaderBytes(c.Available(), junk), Big) == s.auxIds[k]
      && GoodId(false, s.nextId, s.aux, s.auxIds[k])
  {
    hide DescriptorsOk, WalkOk, StreamsOk, Others, Live, Declared;
    var c := s.conns[s.aux];
    var k := c.consumed / 4;
    assert |c.sent| == 4 * |s.auxIds|;
    ScalarsAt(s.auxIds, k);
    assert c.Available()[..4] == Scalar(s.auxIds[k]);
    DeclaredOfHeader(s.auxIds[k], [], Big);
    assert Scalar(s.auxIds[k]) + [] == Scalar(s.auxIds[k]);
  }

  /** The aux handler's turn, the id next in the queue being `id`. */
  lemma AuxTurn(s: State, fd: nat, junk: seq<Byte>)
    requires Inv(s) && CanTurn(s, fd) && |junk| == 4
    requires Current(s).fd in s.phase.ready && Current(s).kind.Aux?
    ensures AuxRead(s) < |s.auxIds|
    ensures var t := Turn(s, fd, junk); var id := s.auxIds[AuxRead(s)]; var i := IndexOf(s.handlers, id);
      var u := Consume(Visit(s, IdOf(s.aux)), s.aux, 4);
      if i == |s.handlers| then
        t == u.(phase := Ended(UnknownId(id)))
      else
        && 1 <= i != s.cursor && s.handlers[i].conn != s.aux
        && t == (if i > s.cursor then Skip(u, id) else u).(
             handlers := Erased(s.handlers, i), open := s.open - {s.handlers[i].fd},
             cursor := if i < s.cursor then s.cursor else s.cursor + 1)
  {
    hide DescriptorsOk, WalkOk, StreamsOk, StageOk, AuxOk, Declared, HeaderBytes;
    AuxReads(s, fd, junk);
  }

  lemma AuxConsumed(s: State)
    requires Inv(s) && !BeforeHandshake(s.handlers) && AuxRead(s) < |s.auxIds|
    ensures AuxOk(false, s.nextId, s.aux, s.auxIds, Consume(s, s.aux, 4).conns[s.aux])
    ensures StreamsOk(Consume(s, s.aux, 4).conns, s.aux, s.handlers, s.logs)
    ensures AuxRead(Consume(s, s.aux, 4)) == AuxRead(s) + 1
  {
    hide DescriptorsOk, WalkOk, ListOk, StageOk, StreamOk, Scalars, GoodId;
  }

  lemma AuxInv(s: State, fd: nat, junk: seq<Byte>)
    requires Inv(s) && CanTurn(s, fd) && |junk| == 4
    requires Current(s).fd in s.phase.ready && Current(s).kind.Aux?
    ensures Inv(Turn(s, fd, junk))
  {
    hide Turn, DescriptorsOk, StageOk, AuxOk, StreamOk, StreamsOk, Live, AheadOk, CanTurn, WalkOk;
    AuxReads(s, fd, junk);
    AuxTurn(s, fd, junk);
    AuxConsumed(s);
    var i := IndexOf(s.handlers, s.auxIds[AuxRead(s)]);
    if i < |s.handlers| {
      ErasedSession(s, i, s.logs) by {
        SessionShrinks(s, s.handlers[i].conn);
      }
      AuxConsumedStreams(s, Erased(s.handlers, i));
      AuxWalk(s, i);
    } else {
      EndedWalk(Turn(s, fd, junk));
    }
  }

  lemma EndedWalk(s: State)
    requires s.phase.Ended?
    ensures WalkOk(s.phase, s.cursor, s.handlers, s.open, s.nextId, s.aux)
  {
  }

  lemma SessionShrinks(s: State, c: nat)
    requires Inv(s) && c < |s.conns| && c != s.aux
    ensures c in s.logs ==> SessionOk(s.conns[c], s.logs[c], false)
  {
    hide DescriptorsOk, WalkOk, ListOk, StageOk, AuxOk, Live, Declared, Payloads, Parse, EncodeAll;
    assert StreamOk(c, s.conns[c], s.handlers, s.logs);
  }

  lemma AuxConsumedStreams(s: State, list: seq<Handler>)
    requires s.aux < |s.conns| && StreamsOk(s.conns, s.aux, list, s.logs)
    ensures StreamsOk(Consume(s, s.aux, 4).conns, s.aux, list, s.logs)
  {
    hide StreamOk;
  }

  /** The pass after the aux handler erased the handler at `i`. */
  lemma AuxWalk(s: State, i: nat)
    requires Inv(s) && s.phase.Walking? && 1 <= s.cursor < |s.handlers|
    requires Current(s).fd in s.phase.ready && Current(s).kind.Aux? && Current(s).id == IdOf(s.aux)
    requires 1 <= i < |s.handlers| && i != s.cursor
    ensures var u := Visit(s, IdOf(s.aux));
      var t := if i > s.cursor then Skip(u, s.handlers[i].id) else u;
      WalkOk(t.phase, if i < s.cursor then s.cursor else s.cursor + 1, Erased(s.handlers, i),
        s.open - {s.handlers[i].fd}, s.nextId, s.aux)
  {
    hide DescriptorsOk, StageOk, AuxOk, StreamsOk, AheadOk, Erased;
    VisitedWalk(s);
    var list, ahead := Erased(s.handlers, i), s.handlers[s.cursor + 1..];
    var w := Visit(s, IdOf(s.aux)).phase;
    assert s.handlers[i].id < s.nextId;
    ErasedAhead(s.handlers, i, s.cursor + 1);
    if i < s.cursor {
      assert list[s.cursor..] == ahead;
    } else {
      var j := i - s.cursor - 1;
      assert ahead[j] == s.handlers[i];
      AheadSkip(w, ahead, j, s.nextId);
      assert list[s.cursor + 1..] == Erased(ahead, j);
    }
    assert w.visited[|w.visited| - 1] == IdOf(s.aux);
  }

  // Every step and every run ----------------------------------------------------------------------------

  lemma TurnInv(s: State, fd: nat, junk: seq<Byte>)
    requires Inv(s) && CanTurn(s, fd) && |junk| == 4
    ensures Inv(Turn(s, fd, junk))
  {
    hide Inv, Turn;
    if Current(s).fd !in s.phase.ready {
      IdleInv(s, fd, junk);
    } else {
      match Current(s).kind
      case AcceptPreinit => AcceptInv(s, fd, junk);
      case AcceptRegular => AcceptInv(s, fd, junk);
      case Preinit =>
        if StartsWithMagic(s.conns[Current(s).conn].Available()) {
          HandshakeInv(s, fd, junk);
        } else {
          PeekInv(s, fd, junk);
        }
      case Session =>
        if s.conns[Current(s).conn].Available() == [] {
          DisconnectInv(s, fd, junk);
        } else {
          MessageInv(s, fd, junk);
        }
      case Aux => AuxInv(s, fd, junk);
    }
  }

  lemma PhaseInv(s: State, phase: Phase, passes: nat)
    requires Inv(s) && !phase.Walking?
    ensures Inv(s.(phase := phase, passes := passes))
  {
    hide ListOk, DescriptorsOk, StageOk, AuxOk, StreamsOk;
  }

  lemma StepInv(s: State, a: Action)
    requires Inv(s) && Enabled(s, a)
    ensures Inv(Step(s, a))
  {
    match a
    case Connect => ConnectInv(s);
    case ClientSends(conn, data) => ClientSendsInv(s, conn, data);
    case ClientCloses(conn) => ClientClosesInv(s, conn);
    case SessionDisconnects(id) => SessionDisconnectsInv(s, id);
    case Shutdown => SendAuxInv(s, 0);
    case Select => BeginPassInv(s);
    case SelectFails => PhaseInv(s, Ended(SelectFailed), s.passes);
    case TurnAt(fd, junk) => TurnInv(s, fd, junk);
    case EndPass => PhaseInv(s, Selecting, s.passes + 1);
  }

  /** Every state of every run keeps the invariant. */
  lemma {:induction false} RunInv(s: State, run: seq<Action>)
    requires Inv(s)
    ensures Inv(Exec(s, run))
    decreases |run|
  {
    hide Inv, Enabled, Step;
    if run != [] {
      var t, a := Exec(s, run[..|run| - 1]), run[|run| - 1];
      RunInv(s, run[..|run| - 1]);
      if Enabled(t, a) {
        StepInv(t, a);
      }
    }
  }
}
