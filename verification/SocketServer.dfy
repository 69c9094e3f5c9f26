/**
 The socket server as a transition system: one thread walks a list of handlers, each in its own state, while
 clients connect, send and close, sessions ask to be disconnected, and the owner asks the server to stop.

 Connections are numbered in the order in which they enter the listening socket's backlog, so the accepted
 ones are `0 .. accepted`. One of them, `aux`, is the server's own: other threads steer the loop by sending
 ids over it.
 */
module SocketServer {
  import opened Bytes
  import opened Framing

  const INIT_MAGIC: nat := 0xFFFF_FFFE
  const FIRST_ID: nat := 100

  /** A connection: what its client has sent, and how much of it the server has taken off the socket. */
  datatype Conn = Conn(sent: seq<Byte>, consumed: nat, closed: bool) {
    function Available(): seq<Byte>
    {
      if consumed <= |sent| then sent[consumed..] else []
    }

    /** What `select` reports: there are bytes to take, or the end of the stream to see. */
    predicate Readable()
    {
      Available() != [] || closed
    }
  }

  datatype Kind = AcceptPreinit | AcceptRegular | Preinit | Aux | Session

  datatype Handler = Handler(id: nat, fd: nat, conn: nat, kind: Kind)

  datatype Reason = UnknownId(id: nat) | AuxClosed | SelectFailed

  datatype Status = Proceed | RemoveThis | Exit(reason: Reason)

  /**
   Where the processing thread is. During a pass: the descriptors `select` reported, the ids of their
   handlers, the ids dispatched so far, and the ids erased over the aux connection before their turn.
   */
  datatype Phase =
    | Selecting
    | Walking(ready: set<nat>, due: set<nat>, visited: seq<nat>, skipped: set<nat>)
    | Ended(reason: Reason)

  datatype State = State(
    // the server
    handlers: seq<Handler>, nextId: nat, buffer: seq<Byte>,
    // its thread; the cursor is the number of list elements in front of the iterator
    phase: Phase, cursor: nat, passes: nat,
    // the sockets
    conns: seq<Conn>, accepted: nat, aux: nat, auxFd: nat, open: set<nat>, auxIds: seq<nat>,
    // the sessions: connections in the order of the `create_session` calls, and what each session was given
    created: seq<nat>, logs: map<nat, seq<Event>>)

  function Scalar(n: nat): (s: seq<Byte>)
    ensures |s| == 4
  {
    HostBytes(n, 4, Big)
  }

  function Scalars(ids: seq<nat>): (s: seq<Byte>)
    ensures |s| == 4 * |ids|
  {
    if ids == [] then [] else Scalars(ids[..|ids| - 1]) + Scalar(ids[|ids| - 1])
  }

  /** The four bytes `recv_scalar` looks at: those received, the rest of the representation as it was. */
  function HeaderBytes(available: seq<Byte>, junk: seq<Byte>): (s: seq<Byte>)
    requires |junk| == 4
    ensures |s| == 4
  {
    if |available| >= 4 then available[..4] else available + junk[|available|..]
  }

  predicate StartsWithMagic(s: seq<Byte>)
  {
    |s| >= 4 && Declared(s, Big) == INIT_MAGIC
  }

  /** The magic in bytes. */
  lemma MagicBytes(s: seq<Byte>)
    ensures StartsWithMagic(s) <==> |s| >= 4 && s[..4] == [0xFF, 0xFF, 0xFF, 0xFE]
    ensures Scalar(INIT_MAGIC) == [0xFF, 0xFF, 0xFF, 0xFE]
  {
    FourBytes(INIT_MAGIC);
    if |s| >= 4 {
      DeclaredValue(s);
      hide Declared;
      assert s[..4][0] == s[0] && s[..4][1] == s[1] && s[..4][2] == s[2] && s[..4][3] == s[3];
    }
  }

  predicate Acceptor(kind: Kind)
  {
    kind.AcceptPreinit? || kind.AcceptRegular?
  }

  function Fds(handlers: seq<Handler>): set<nat>
  {
    set h | h in handlers :: h.fd
  }

  function Ids(handlers: seq<Handler>): set<nat>
  {
    set h | h in handlers :: h.id
  }

  /** The acceptor has not been replaced yet. */
  predicate BeforeHandshake(handlers: seq<Handler>)
  {
    handlers != [] && handlers[0].kind.AcceptPreinit?
  }

  predicate HandlerReadable(s: State, h: Handler)
  {
    if Acceptor(h.kind) then s.accepted < |s.conns| else h.conn < |s.conns| && s.conns[h.conn].Readable()
  }

  /** What `select` returns: it watches the sockets of the listed handlers. */
  function ReadyFds(s: State): set<nat>
  {
    set h | h in s.handlers && HandlerReadable(s, h) :: h.fd
  }

  // The handlers ----------------------------------------------------------------------------------------

  function Consume(s: State, conn: nat, n: nat): State
    requires conn < |s.conns|
  {
    s.(conns := s.conns[conn := s.conns[conn].(consumed := s.conns[conn].consumed + n)])
  }

  function CreateSession(s: State, conn: nat): State
  {
    s.(created := s.created + [conn], logs := s.logs[conn := []])
  }

  function Log(s: State, conn: nat, event: Event): State
  {
    s.(logs := s.logs[conn := (if conn in s.logs then s.logs[conn] else []) + [event]])
  }

  /** The handler the handshake installs at position `i`, for the aux handler with the given id. */
  function Installed(h: Handler, i: nat, auxId: nat): Handler
  {
    h.(kind := if i == 0 then AcceptRegular else if h.id == auxId then Aux else Session)
  }

  /** The handshake after its loop has seen the first `n` handlers. */
  function Install(s: State, auxId: nat, n: nat): (r: State)
    requires n <= |s.handlers|
    ensures |r.handlers| == |s.handlers|
    ensures r == s.(handlers := r.handlers, created := r.created, logs := r.logs)
  {
    if n == 0 then
      s
    else
      var t := Install(s, auxId, n - 1);
      var h := t.handlers[n - 1];
      var u := t.(handlers := t.handlers[n - 1 := Installed(h, n - 1, auxId)]);
      if n > 1 && h.id != auxId then CreateSession(u, h.conn) else u
  }

  function HandlePreinit(s: State, h: Handler): State
    requires h.conn < |s.conns|
  {
    if StartsWithMagic(s.conns[h.conn].Available()) then
      Install(Consume(s, h.conn, 4), h.id, |s.handlers|)
    else
      s
  }

  function Accept(s: State, fd: nat, kind: Kind): State
  {
    s.(handlers := s.handlers + [Handler(s.nextId, fd, s.accepted, kind)],
       nextId := s.nextId + 1, accepted := s.accepted + 1, open := s.open + {fd})
  }

  /** The two reads of a frame: the connection afterwards, and the server's buffer, which is delivered. */
  function TakeFrame(c: Conn, buffer: seq<Byte>, junk: seq<Byte>): (Conn, seq<Byte>)
    requires |junk| == 4
  {
    var available := c.Available();
    var size := Declared(HeaderBytes(available, junk), Big);
    var head := Min(4, |available|);
    var got := Min(size, |available| - head);
    (c.(consumed := c.consumed + head + got), Overwritten(Resized(buffer, size), available[head..head + got]))
  }

  function HandleSession(s: State, conn: nat, junk: seq<Byte>): (State, Status)
    requires conn < |s.conns| && |junk| == 4
  {
    if s.conns[conn].Available() == [] then
      (Log(s, conn, Disconnected), RemoveThis)
    else
      var (c, payload) := TakeFrame(s.conns[conn], s.buffer, junk);
      (Log(s.(conns := s.conns[conn := c], buffer := payload), conn, Message(payload)), Proceed)
  }

  /** `list::erase`: the iterator of the pass stays on its element. */
  function Erase(s: State, i: nat): State
    requires i < |s.handlers|
  {
    s.(handlers := s.handlers[..i] + s.handlers[i + 1..],
       open := s.open - {s.handlers[i].fd},
       cursor := if i < s.cursor then s.cursor - 1 else s.cursor)
  }

  /** The first handler with the given id, or the length of the list. */
  function IndexOf(handlers: seq<Handler>, id: nat): (i: nat)
    ensures i <= |handlers|
    ensures i < |handlers| ==> handlers[i].id == id
    ensures forall j :: 0 <= j < i ==> handlers[j].id != id
  {
    if handlers == [] then 0
    else if handlers[0].id == id then 0
    else 1 + IndexOf(handlers[1..], id)
  }

  function HandleAux(s: State, conn: nat, junk: seq<Byte>): (State, Status)
    requires conn < |s.conns| && |junk| == 4
  {
    var available := s.conns[conn].Available();
    if available == [] then
      (s, Exit(AuxClosed))
    else
      var id := Declared(HeaderBytes(available, junk), Big);
      var t := Consume(s, conn, Min(4, |available|));
      var i := IndexOf(t.handlers, id);
      if i == |t.handlers| then
        (t, Exit(UnknownId(id)))
      else
        (Erase(if i > s.cursor then Skip(t, id) else t, i), Proceed)
  }

  function Visit(s: State, id: nat): State
  {
    if s.phase.Walking? then s.(phase := s.phase.(visited := s.phase.visited + [id])) else s
  }

  function Skip(s: State, id: nat): State
  {
    if s.phase.Walking? then s.(phase := s.phase.(skipped := s.phase.skipped + {id})) else s
  }

  // Steps of the processing thread ----------------------------------------------------------------------

  function Dispatch(s: State, h: Handler, fd: nat, junk: seq<Byte>): (State, Status)
    requires |junk| == 4
    requires Acceptor(h.kind) || h.conn < |s.conns|
  {
    match h.kind
    case AcceptPreinit => (Accept(s, fd, Preinit), Proceed)
    case AcceptRegular => (CreateSession(Accept(s, fd, Session), s.accepted), Proceed)
    case Preinit => (HandlePreinit(s, h), Proceed)
    case Session => HandleSession(s, h.conn, junk)
    case Aux => HandleAux(s, h.conn, junk)
  }

  function Settle(s: State, status: Status): State
  {
    match status
    case Proceed => s.(cursor := s.cursor + 1)
    case RemoveThis => if s.cursor < |s.handlers| then Erase(s, s.cursor) else s
    case Exit(reason) => s.(phase := Ended(reason))
  }

  /**
   The body of the inner loop: `fd` is the descriptor `accept` would return, `junk` the bytes an
   uninitialised representation holds.
   */
  function Turn(s: State, fd: nat, junk: seq<Byte>): State
    requires CanTurn(s, fd) && |junk| == 4
  {
    var h := Current(s);
    if h.fd !in s.phase.ready then
      s.(cursor := s.cursor + 1)
    else
      var (t, status) := Dispatch(Visit(s, h.id), h, fd, junk);
      Settle(t, status)
  }

  function Current(s: State): Handler
    requires s.cursor < |s.handlers|
  {
    s.handlers[s.cursor]
  }

  /** A waiting read of a frame returns: the frame is there, or no more bytes will come. */
  predicate FrameComes(c: Conn)
  {
    c.closed || HasFrame(c.Available(), Big)
  }

  /** The blocking calls of the handler would return, and the operating system has a descriptor to give. */
  predicate CanTurn(s: State, fd: nat)
  {
    && s.phase.Walking? && s.cursor < |s.handlers|
    && (Acceptor(Current(s).kind) || Current(s).conn < |s.conns|)
    && var h := Current(s);
       h.fd in s.phase.ready ==>
         && (Acceptor(h.kind) ==> s.accepted < |s.conns| && fd !in s.open && s.nextId < U32_LIMIT - 1)
         && (h.kind.Session? ==> FrameComes(s.conns[h.conn]))
         && (h.kind.Aux? ==> s.conns[h.conn].closed || |s.conns[h.conn].Available()| >= 4)
  }

  // Transitions -----------------------------------------------------------------------------------------

  datatype Action =
    | Connect
    | ClientSends(conn: nat, data: seq<Byte>)
    | ClientCloses(conn: nat)
    | SessionDisconnects(id: nat)
    | Shutdown
    | Select
    | SelectFails
    | TurnAt(fd: nat, junk: seq<Byte>)
    | EndPass

  predicate External(a: Action)
  {
    a.Connect? || a.ClientSends? || a.ClientCloses? || a.SessionDisconnects? || a.Shutdown?
  }

  /**
   While the magic means something, only the aux connection starts with it; nothing is sent on a closed connection.
   */
  predicate Enabled(s: State, a: Action)
  {
    match a
    case Connect => true
    case ClientSends(c, data) =>
      && c < |s.conns| && c != s.aux && !s.conns[c].closed
      && (BeforeHandshake(s.handlers) ==> !StartsWithMagic(s.conns[c].sent + data))
    case ClientCloses(c) => c < |s.conns| && c != s.aux
    case SessionDisconnects(id) =>
      s.aux < |s.conns| && exists i :: 0 <= i < |s.handlers| && s.handlers[i].id == id && s.handlers[i].kind.Session?
    case Shutdown => s.aux < |s.conns|
    case Select => s.phase.Selecting? && ReadyFds(s) != {}
    case SelectFails => s.phase.Selecting?
    case TurnAt(fd, junk) => |junk| == 4 && CanTurn(s, fd)
    case EndPass => s.phase.Walking? && s.cursor == |s.handlers|
  }

  function SendAux(s: State, id: nat): State
    requires s.aux < |s.conns|
  {
    var c := s.conns[s.aux];
    s.(conns := s.conns[s.aux := c.(sent := c.sent + Scalar(id))], auxIds := s.auxIds + [id])
  }

  function BeginPass(s: State): State
  {
    var ready := ReadyFds(s);
    s.(phase := Walking(ready, set h | h in s.handlers && h.fd in ready :: h.id, [], {}), cursor := 0)
  }

  function Step(s: State, a: Action): State
    requires Enabled(s, a)
  {
    match a
    case Connect => s.(conns := s.conns + [Conn([], 0, false)])
    case ClientSends(c, data) => s.(conns := s.conns[c := s.conns[c].(sent := s.conns[c].sent + data)])
    case ClientCloses(c) => s.(conns := s.conns[c := s.conns[c].(closed := true)])
    case SessionDisconnects(id) => SendAux(s, id)
    case Shutdown => SendAux(s, 0)
    case Select => BeginPass(s)
    case SelectFails => s.(phase := Ended(SelectFailed))
    case TurnAt(fd, junk) => Turn(s, fd, junk)
    case EndPass => s.(phase := Selecting, passes := s.passes + 1)
  }

  /** The state after a run, an illegal step counting as none. */
  function Exec(s: State, run: seq<Action>): State
    decreases |run|
  {
    if run == [] then
      s
    else
      var t := Exec(s, run[..|run| - 1]);
      if Enabled(t, run[|run| - 1]) then Step(t, run[|run| - 1]) else t
  }

  /**
   What the constructor leaves when it starts the thread: the acceptor alone in the list, the aux connection
   somewhere in the backlog with the magic sent, before or behind clients that may have sent already.
   */
  predicate Initial(s: State)
  {
    && s.nextId == FIRST_ID + 1 && s.accepted == 0 && s.aux < |s.conns|
    && |s.handlers| == 1 && s.handlers[0].id == FIRST_ID && s.handlers[0].kind.AcceptPreinit?
    && s.auxFd != s.handlers[0].fd && s.open == {s.auxFd, s.handlers[0].fd}
    && s.phase.Selecting? && s.cursor == 0 && s.passes == 0
    && s.auxIds == [INIT_MAGIC] && s.conns[s.aux] == Conn(Scalar(INIT_MAGIC), 0, false)
    && s.created == [] && s.logs == map[]
    && forall c :: 0 <= c < |s.conns| && c != s.aux ==>
         s.conns[c].consumed == 0 && !StartsWithMagic(s.conns[c].sent)
  }
}
