/**
 The client half of a request/response session: tokens, the callbacks keyed by response id and token, the
 subscriptions, and the shared handles that keep both alive.

 A handle is a `shared_ptr<void>` whose deleter erases one map entry. A request for several responses chains
 handles: each link's deleter holds the previous handle. A link is destroyed when no handle leads to it.
 */
module ClientSession {
  import opened Bytes

  type Payload = seq<Byte>
  /** The user's callbacks are told apart by a number. */
  type Callback = nat

  datatype Request = Request(id: int, token: nat, payload: Payload)

  /** A message to the client: an id, what reads as a token behind it, and the rest. */
  datatype Packet = Packet(id: int, token: nat, payload: Payload, solicited: bool)

  /** The map element a link's deleter erases. */
  datatype Entry = Subscription(id: int) | Response(id: int, token: nat)

  /** One control block of a shared pointer. */
  datatype Link = Link(serial: nat, entry: Entry)

  /** A handle variable: the user's, or the temporary that holds what a `reset` lets go of. */
  datatype Var = User(name: nat) | Temp

  datatype Client = Client(
    token: nat, callbacks: map<(int, nat), Callback>, subscriptions: map<int, Callback>,
    handles: map<Var, seq<Link>>, nextSerial: nat, outbound: seq<Request>, undefined: bool)

  predicate Present(s: Client, e: Entry)
  {
    match e
    case Subscription(id) => id in s.subscriptions
    case Response(id, token) => (id, token) in s.callbacks
  }

  function Chain(s: Client, v: Var): seq<Link>
  {
    if v in s.handles then s.handles[v] else []
  }

  /** `map::insert`: an element already there stays. */
  function Insert(s: Client, e: Entry, callback: Callback): Client
  {
    if Present(s, e) then
      s
    else
      match e
      case Subscription(id) => s.(subscriptions := s.subscriptions[id := callback])
      case Response(id, token) => s.(callbacks := s.callbacks[(id, token) := callback])
  }

  /** `map::erase` through an iterator: undefined when the element has gone. */
  function EraseEntry(s: Client, e: Entry): Client
  {
    if !Present(s, e) then
      s.(undefined := true)
    else
      match e
      case Subscription(id) => s.(subscriptions := s.subscriptions - {id})
      case Response(id, token) => s.(callbacks := s.callbacks - {(id, token)})
  }

  /** Another handle leads to the link. */
  predicate Shared(s: Client, v: Var, serial: nat)
  {
    exists w :: w in s.handles && w != v && HasSerial(s.handles[w], serial)
  }

  predicate HasSerial(chain: seq<Link>, serial: nat)
  {
    exists i :: 0 <= i < |chain| && chain[i].serial == serial
  }

  /** The handle lets go of its first link, whose deleter erases the entry and then lets go of the next. */
  function DropFirst(s: Client, v: Var): Client
  {
    if Chain(s, v) == [] then s
    else EraseEntry(s, Chain(s, v)[0].entry).(handles := s.handles[v := Chain(s, v)[1..]])
  }

  /** The handle becomes empty: links go, up to the first that another handle leads to. */
  function Release(s: Client, v: Var): Client
    decreases |Chain(s, v)|
  {
    if Chain(s, v) == [] || Shared(s, v, Chain(s, v)[0].serial) then
      s.(handles := s.handles - {v})
    else
      Release(DropFirst(s, v), v)
  }

  /** A fresh control block for the entry, in front of the chain it keeps alive. */
  function NewLink(s: Client, e: Entry): Link
  {
    Link(s.nextSerial, e)
  }

  /** Assignment of a chain to a handle: what it held moves to a temporary, which is then released. */
  function Assign(s: Client, v: Var, chain: seq<Link>): Client
  {
    Release(s.(handles := s.handles[Temp := Chain(s, v)][v := chain]), Temp)
  }

  /** `handle.reset(element, deleter)`. */
  function Reset(s: Client, v: Var, e: Entry): Client
  {
    Assign(s.(nextSerial := s.nextSerial + 1), v, [NewLink(s, e)])
  }

  function Subscribe(s: Client, v: Var, id: int, callback: Callback): Client
  {
    Reset(Insert(s, Subscription(id), callback), v, Subscription(id))
  }

  function Send(s: Client, request: Request): Client
  {
    s.(outbound := s.outbound + [request])
  }

  /** `request` with one response id: the callback is registered before the message leaves. */
  function RequestOne(s: Client, v: Var, id: int, payload: Payload, responseId: int, callback: Callback): Client
  {
    var e := Response(responseId, s.token);
    Send(Reset(Insert(s.(token := s.token + 1), e, callback), v, e), Request(id, s.token, payload))
  }

  /** The loop of `request` with several responses, over the first `n` of them. */
  function Register(s: Client, v: Var, token: nat, callbacks: seq<(int, Callback)>, n: nat): Client
    requires n <= |callbacks|
  {
    if n == 0 then
      s
    else
      var t := Register(s, v, token, callbacks, n - 1);
      var e := Response(callbacks[n - 1].0, token);
      var u := Insert(t, e, callbacks[n - 1].1);
      if Chain(u, v) == [] then
        Reset(u, v, e)
      else
        u.(nextSerial := u.nextSerial + 1, handles := u.handles[v := [NewLink(u, e)] + Chain(u, v)])
  }

  function RequestMany(s: Client, v: Var, id: int, payload: Payload, callbacks: seq<(int, Callback)>): Client
  {
    Send(Register(s.(token := s.token + 1), v, s.token, callbacks, |callbacks|), Request(id, s.token, payload))
  }

  function Copy(s: Client, from: Var, to: Var): Client
  {
    if from == to then s else Assign(s, to, Chain(s, from))
  }

  // Dispatch --------------------------------------------------------------------------------------------

  /** Some request waits for responses with this id: the range of its keys is not empty. */
  predicate Awaited(s: Client, id: int)
  {
    exists key :: key in s.callbacks && key.0 == id
  }

  datatype Dispatched = Nobody | Invoked(callback: Callback)

  /** Whom a message is given to: the subscription on its id first, then the request it answers. */
  function Dispatch(s: Client, packet: Packet): Dispatched
  {
    if packet.id in s.subscriptions then
      Invoked(s.subscriptions[packet.id])
    else if Awaited(s, packet.id) && (packet.id, packet.token) in s.callbacks then
      Invoked(s.callbacks[(packet.id, packet.token)])
    else
      Nobody
  }

  // Ownership -------------------------------------------------------------------------------------------

  /** A link on the chain of a handle. */
  predicate On(handles: map<Var, seq<Link>>, v: Var, i: nat)
  {
    v in handles && i < |handles[v]|
  }

  /** The element is owned: a live handle leads to a link whose deleter erases it. */
  ghost predicate Owned(handles: map<Var, seq<Link>>, e: Entry)
  {
    exists v, i: nat :: On(handles, v, i) && handles[v][i].entry == e
  }

  /** Chains that meet stay together from there on, since a link's tail never changes. */
  ghost predicate Meeting(handles: map<Var, seq<Link>>)
  {
    forall v, i: nat, w, j: nat :: On(handles, v, i) && On(handles, w, j) && handles[v][i].serial == handles[w][j].serial ==>
      handles[v][i..] == handles[w][j..]
  }

  ghost predicate Serials(handles: map<Var, seq<Link>>, nextSerial: nat)
  {
    forall v, i: nat :: On(handles, v, i) ==> handles[v][i].serial < nextSerial
  }

  /** No element is owned by two links. */
  ghost predicate Disjoint(handles: map<Var, seq<Link>>)
  {
    forall v, i: nat, w, j: nat :: On(handles, v, i) && On(handles, w, j) && handles[v][i].entry == handles[w][j].entry ==>
      handles[v][i].serial == handles[w][j].serial
  }

  /** The maps hold exactly the elements that live handles own. */
  ghost predicate Exact(s: Client)
  {
    forall e :: Present(s, e) <==> Owned(s.handles, e)
  }

  ghost predicate OwnOk(s: Client)
  {
    && Meeting(s.handles) && Serials(s.handles, s.nextSerial) && Disjoint(s.handles) && Exact(s)
    && !s.undefined && Temp !in s.handles
    && forall key :: key in s.callbacks ==> key.1 < s.token
  }
}
