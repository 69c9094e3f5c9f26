/**
 A client session and a server session joined by ordered channels: whatever the interleaving of requests, handler
 runs, queued continuations, deliveries and handle releases, a response reaches the callback its own request
 registered, and no other request's.
 */
module Routing {
  import opened ClientSession
  import opened ClientOwnership
  import opened ClientDoubleErase
  import opened ServerSession

  /** A request as its caller made it. */
  datatype Issue = Issue(id: int, payload: Payload, registered: seq<(int, Callback)>)

  /**
   The two sessions. The channels are what each side has sent and how much of it the other has taken; `issued` is
   the history of the requests, the one with token `t` at `t - 1`; `handled` is what the handler of a request did.
   */
  datatype System = System(
    client: Client, peer: Peer, received: nat, delivered: nat, issued: seq<Issue>, handled: map<nat, Body>)

  datatype Action =
    | Subscribing(name: nat, id: int, callback: Callback)
    | RequestingOne(name: nat, id: int, payload: Payload, responseId: int, callback: Callback)
    | RequestingMany(name: nat, id: int, payload: Payload, callbacks: seq<(int, Callback)>)
    | Releasing(name: nat)
    | Copying(from: nat, to: nat)
    | AddingHandler(id: int)
    | ServerReceives(body: Body)
    | ServerRuns
    | ServerNotifies(id: int, token: nat, payload: Payload)
    | ServerGoes
    | ClientReceives

  predicate Enabled(s: System, a: Action)
  {
    match a
    case ServerReceives(_) => s.received < |s.client.outbound| && s.peer.alive
    case ServerRuns => s.peer.queue != []
    case ServerNotifies(_, _, _) => s.peer.alive
    case ClientReceives => s.delivered < |s.peer.sent|
    case _ => true
  }

  function Step(s: System, a: Action): System
    requires Enabled(s, a)
  {
    match a
    case Subscribing(name, id, callback) => s.(client := Subscribe(s.client, User(name), id, callback))
    case RequestingOne(name, id, payload, responseId, callback) =>
      s.(client := RequestOne(s.client, User(name), id, payload, responseId, callback),
         issued := s.issued + [Issue(id, payload, [(responseId, callback)])])
    case RequestingMany(name, id, payload, callbacks) =>
      s.(client := RequestMany(s.client, User(name), id, payload, callbacks),
         issued := s.issued + [Issue(id, payload, callbacks)])
    case Releasing(name) => s.(client := Release(s.client, User(name)))
    case Copying(from, to) => s.(client := Copy(s.client, User(from), User(to)))
    case AddingHandler(id) => s.(peer := s.peer.(handlers := s.peer.handlers + {id}))
    case ServerReceives(body) =>
      var request := s.client.outbound[s.received];
      s.(peer := Handle(s.peer, request, body), received := s.received + 1,
         handled := if request.id in s.peer.handlers then s.handled[request.token := body] else s.handled)
    case ServerRuns => s.(peer := RunFirst(s.peer))
    case ServerNotifies(id, token, payload) =>
      s.(peer := s.peer.(sent := s.peer.sent + [Packet(id, token, payload, false)]))
    case ServerGoes => s.(peer := s.peer.(alive := false))
    case ClientReceives => s.(delivered := s.delivered + 1)
  }

  function Exec(s: System, run: seq<Action>): System
    decreases |run|
  {
    if run == [] then s
    else
      var t := Exec(s, run[..|run| - 1]);
      if Enabled(t, run[|run| - 1]) then Step(t, run[|run| - 1]) else t
  }

  predicate Initial(s: System)
  {
    && s.client == Client(1, map[], map[], map[], 0, [], false)
    && s.peer.queue == [] && s.peer.sent == [] && s.received == 0 && s.delivered == 0
    && s.issued == [] && s.handled == map[]
  }

  // Registered callbacks --------------------------------------------------------------------------------

  predicate Registers(callbacks: seq<(int, Callback)>, id: int)
  {
    exists i :: 0 <= i < |callbacks| && callbacks[i].0 == id
  }

  /** The callback a request registered under the id: the first, should there be several. */
  function RegisteredFor(callbacks: seq<(int, Callback)>, id: int): (c: Callback)
    requires Registers(callbacks, id)
  {
    if callbacks[0].0 == id then callbacks[0].1
    else
      assert Registers(callbacks[1..], id) by {
        var i :| 0 <= i < |callbacks| && callbacks[i].0 == id;
        assert callbacks[1..][i - 1] == callbacks[i];
      }
      RegisteredFor(callbacks[1..], id)
  }

  lemma {:induction false} RegisteredForMore(callbacks: seq<(int, Callback)>, c: (int, Callback), id: int)
    ensures Registers(callbacks + [c], id) <==> Registers(callbacks, id) || c.0 == id
    ensures Registers(callbacks + [c], id) ==>
      RegisteredFor(callbacks + [c], id) == if Registers(callbacks, id) then RegisteredFor(callbacks, id) else c.1
  {
    var more := callbacks + [c];
    assert more[|callbacks|] == c;
    if Registers(callbacks, id) {
      var i :| 0 <= i < |callbacks| && callbacks[i].0 == id;
      assert more[i].0 == id;
    }
    if callbacks != [] {
      RegisteredForMore(callbacks[1..], c, id);
      assert more[1..] == callbacks[1..] + [c];
      if Registers(callbacks, id) && callbacks[0].0 != id {
        var i :| 0 <= i < |callbacks| && callbacks[i].0 == id;
        assert callbacks[1..][i - 1].0 == id;
      } else if Registers(callbacks[1..], id) {
        var i :| 0 <= i < |callbacks| - 1 && callbacks[1..][i].0 == id;
        assert callbacks[i + 1].0 == id;
      }
    }
  }

  /** With nothing to let go of, a reset only sets the handle. */
  lemma ResetEmpty(s: Client, v: Var, e: Entry, callback: Callback)
    requires Chain(s, v) == [] && v != Temp
    ensures var t := Reset(Insert(s, e, callback), v, e); var i := Insert(s, e, callback);
      t.callbacks == i.callbacks && t.subscriptions == i.subscriptions
  {
    var i := Insert(s, e, callback);
    var u := i.(nextSerial := s.nextSerial + 1, handles := s.handles[Temp := []][v := [NewLink(i, e)]]);
    assert Chain(u, Temp) == [];
    assert Release(u, Temp) == u.(handles := u.handles - {Temp});
  }

  /** The keys a request adds, each with the callback registered for it, and nothing taken away. */
  ghost predicate Added(s: Client, t: Client, token: nat, callbacks: seq<(int, Callback)>)
  {
    && t.subscriptions == s.subscriptions
    && (forall key :: key in s.callbacks ==> key in t.callbacks && t.callbacks[key] == s.callbacks[key])
    && (forall key :: key in t.callbacks && key !in s.callbacks ==> key.1 == token && Registers(callbacks, key.0))
    && forall id :: Registers(callbacks, id) ==>
         (id, token) in t.callbacks && t.callbacks[(id, token)] == RegisteredFor(callbacks, id)
  }

  lemma {:induction false} RegisterAdds(s: Client, v: Var, token: nat, callbacks: seq<(int, Callback)>, n: nat)
    requires v != Temp && n <= |callbacks|
    requires forall key :: key in s.callbacks ==> key.1 != token
    ensures Added(s, Register(s, v, token, callbacks, n), token, callbacks[..n])
  {
    hide Register, RegisteredFor;
    RegisterNone(s, v, token, callbacks);
    if n > 0 {
      RegisterAdds(s, v, token, callbacks, n - 1);
      var t, r := Register(s, v, token, callbacks, n - 1), Register(s, v, token, callbacks, n);
      RegisterInserts(s, v, token, callbacks, n);
      assert callbacks[..n] == callbacks[..n - 1] + [callbacks[n - 1]];
      AddedOne(s, t, r, token, callbacks[..n - 1], callbacks[n - 1]);
    }
  }

  lemma RegisterInserts(s: Client, v: Var, token: nat, callbacks: seq<(int, Callback)>, n: nat)
    requires v != Temp && 0 < n <= |callbacks|
    ensures var t := Register(s, v, token, callbacks, n - 1); var r := Register(s, v, token, callbacks, n);
      var i := Insert(t, Response(callbacks[n - 1].0, token), callbacks[n - 1].1);
      r.callbacks == i.callbacks && r.subscriptions == i.subscriptions
  {
    hide Reset;
    var t := Register(s, v, token, callbacks, n - 1);
    if Chain(t, v) == [] {
      ResetEmpty(t, v, Response(callbacks[n - 1].0, token), callbacks[n - 1].1);
    }
  }

  lemma AddedOne(s: Client, t: Client, r: Client, token: nat, callbacks: seq<(int, Callback)>, c: (int, Callback))
    requires Added(s, t, token, callbacks)
    requires var i := Insert(t, Response(c.0, token), c.1);
      r.callbacks == i.callbacks && r.subscriptions == i.subscriptions
    requires forall key :: key in s.callbacks ==> key.1 != token
    ensures Added(s, r, token, callbacks + [c])
  {
    hide Registers, RegisteredFor;
    forall id
      ensures Registers(callbacks + [c], id) <==> Registers(callbacks, id) || c.0 == id
      ensures Registers(callbacks + [c], id) ==>
        RegisteredFor(callbacks + [c], id) == if Registers(callbacks, id) then RegisteredFor(callbacks, id) else c.1
    {
      RegisteredForMore(callbacks, c, id);
    }
  }

  // Where a response comes from -------------------------------------------------------------------------

  /** `sub` is the body itself or, `n` deferrals on, one of its chain. */
  predicate ChainOf(body: Body, sub: Body, n: nat)
    decreases n
  {
    if n == 0 then sub == body else Deferred(body).Some? && ChainOf(Deferred(body).value, sub, n - 1)
  }

  /** The packet is an answer of the body or of one of its continuations, and carries the token. */
  ghost predicate Answered(token: nat, body: Body, packet: Packet)
  {
    exists sub, n: nat :: ChainOf(body, sub, n) && packet in Answers(token, sub, true)
  }

  lemma {:induction false} ChainOfNext(body: Body, sub: Body, n: nat)
    requires ChainOf(body, sub, n) && Deferred(sub).Some?
    ensures ChainOf(body, Deferred(sub).value, n + 1)
    decreases n
  {
    if n > 0 {
      ChainOfNext(Deferred(body).value, sub, n - 1);
    } else {
      assert ChainOf(Deferred(sub).value, Deferred(sub).value, 0);
    }
  }

  lemma {:induction false} AnswersCarryToken(token: nat, body: Body, deferral: bool, packet: Packet)
    requires packet in Answers(token, body, deferral)
    ensures packet.token == token && packet.solicited && packet in Answers(token, body, true)
  {
    if packet !in Answers(token, body[1..], deferral) {
    } else {
      AnswersCarryToken(token, body[1..], deferral, packet);
    }
  }

  ghost predicate TaskOk(handled: map<nat, Body>, task: Task)
  {
    task.token in handled && exists n: nat :: ChainOf(handled[task.token], task.body, n)
  }

  ghost predicate PacketOk(handled: map<nat, Body>, packet: Packet)
  {
    packet.solicited ==> packet.token in handled && Answered(packet.token, handled[packet.token], packet)
  }

  /** The server side: what is queued and sent belongs to requests it was given. */
  ghost predicate PeerOk(peer: Peer, handled: map<nat, Body>)
  {
    && (forall i :: 0 <= i < |peer.queue| ==> TaskOk(handled, peer.queue[i]))
    && forall i :: 0 <= i < |peer.sent| ==> PacketOk(handled, peer.sent[i])
  }

  /** The client side: the channel holds the requests issued, the map callbacks these registered. */
  ghost predicate ClientOk(client: Client, issued: seq<Issue>)
  {
    && client.token == |issued| + 1 && Temp !in client.handles
    && |client.outbound| == |issued|
    && (forall k :: 0 <= k < |issued| ==> client.outbound[k] == Request(issued[k].id, k + 1, issued[k].payload))
    && forall key :: key in client.callbacks ==> KeyOk(client.callbacks[key], key, issued)
  }

  predicate KeyOk(callback: Callback, key: (int, nat), issued: seq<Issue>)
  {
    && 1 <= key.1 <= |issued|
    && Registers(issued[key.1 - 1].registered, key.0)
    && callback == RegisteredFor(issued[key.1 - 1].registered, key.0)
  }

  ghost predicate Inv(s: System)
  {
    && ClientOk(s.client, s.issued) && PeerOk(s.peer, s.handled)
    && s.received <= |s.client.outbound| && s.delivered <= |s.peer.sent|
    && forall t :: t in s.handled ==> 1 <= t <= s.received
  }

  lemma InitialInv(s: System)
    requires Initial(s)
    ensures Inv(s) && OwnOk(s.client)
  {
  }

  // Client steps

  lemma ShrunkClientOk(s: Client, t: Client, issued: seq<Issue>)
    requires ClientOk(s, issued) && Temp !in t.handles
    requires t.token == s.token && t.outbound == s.outbound
    requires forall key :: key in t.callbacks ==> key in s.callbacks && t.callbacks[key] == s.callbacks[key]
    ensures ClientOk(t, issued)
  {
    hide KeyOk;
  }

  lemma SubscribeOk(s: Client, issued: seq<Issue>, name: nat, id: int, callback: Callback)
    requires ClientOk(s, issued)
    ensures ClientOk(Subscribe(s, User(name), id, callback), issued)
  {
    hide Reset, KeyOk;
    ResetFrame(s, User(name), Subscription(id), callback);
    ShrunkClientOk(s, Subscribe(s, User(name), id, callback), issued);
  }

  lemma AssignOk(s: Client, issued: seq<Issue>, name: nat, chain: seq<Link>)
    requires ClientOk(s, issued)
    ensures ClientOk(Assign(s, User(name), chain), issued)
  {
    hide Release, KeyOk;
    ReleaseFrame(s.(handles := s.handles[Temp := Chain(s, User(name))][User(name) := chain]), Temp);
    ShrunkClientOk(s, Assign(s, User(name), chain), issued);
  }

  lemma KeysStay(s: Client, issued: seq<Issue>, issue: Issue)
    requires ClientOk(s, issued)
    ensures forall key :: key in s.callbacks ==> KeyOk(s.callbacks[key], key, issued + [issue])
  {
    hide Registers, RegisteredFor;
  }

  lemma RequestOk(s: Client, t: Client, issued: seq<Issue>, issue: Issue)
    requires ClientOk(s, issued)
    requires t.token == s.token + 1 && Temp !in t.handles
    requires t.outbound == s.outbound + [Request(issue.id, s.token, issue.payload)]
    requires forall key :: key in t.callbacks && key in s.callbacks ==> t.callbacks[key] == s.callbacks[key]
    requires forall key :: key in t.callbacks && key !in s.callbacks ==>
      key.1 == s.token && Registers(issue.registered, key.0)
      && t.callbacks[key] == RegisteredFor(issue.registered, key.0)
    ensures ClientOk(t, issued + [issue])
  {
    hide Registers, RegisteredFor;
    KeysStay(s, issued, issue);
    assert (issued + [issue])[|issued|] == issue;
  }

  lemma RequestOneOk(s: Client, issued: seq<Issue>, name: nat, id: int, payload: Payload, responseId: int, callback: Callback)
    requires ClientOk(s, issued)
    ensures ClientOk(RequestOne(s, User(name), id, payload, responseId, callback),
      issued + [Issue(id, payload, [(responseId, callback)])])
  {
    hide Reset;
    var u, e := s.(token := s.token + 1), Response(responseId, s.token);
    ResetFrame(u, User(name), e, callback);
    assert [(responseId, callback)][0].0 == responseId;
    assert Registers([(responseId, callback)], responseId);
    RequestOk(s, RequestOne(s, User(name), id, payload, responseId, callback), issued,
      Issue(id, payload, [(responseId, callback)]));
  }

  lemma RequestManyOk(s: Client, issued: seq<Issue>, name: nat, id: int, payload: Payload, callbacks: seq<(int, Callback)>)
    requires ClientOk(s, issued)
    ensures ClientOk(RequestMany(s, User(name), id, payload, callbacks), issued + [Issue(id, payload, callbacks)])
  {
    hide Register, Registers, RegisteredFor;
    var u := s.(token := s.token + 1);
    RegisterChains(u, User(name), s.token, callbacks, |callbacks|);
    RegisterAdds(u, User(name), s.token, callbacks, |callbacks|);
    RegisterSends(u, User(name), s.token, callbacks, |callbacks|);
    assert callbacks[..|callbacks|] == callbacks;
    RequestOk(s, RequestMany(s, User(name), id, payload, callbacks), issued, Issue(id, payload, callbacks));
  }

  lemma {:induction false} RegisterSends(s: Client, v: Var, token: nat, callbacks: seq<(int, Callback)>, n: nat)
    requires n <= |callbacks|
    ensures Register(s, v, token, callbacks, n).outbound == s.outbound
  {
    hide Reset;
    if n > 0 {
      RegisterSends(s, v, token, callbacks, n - 1);
      ResetFrame(Register(s, v, token, callbacks, n - 1), v, Response(callbacks[n - 1].0, token), callbacks[n - 1].1);
    }
  }

  // Server steps

  lemma PerformOk(peer: Peer, handled: map<nat, Body>, token: nat, body: Body)
    requires PeerOk(peer, handled) && TaskOk(handled, Task(token, body))
    ensures PeerOk(Perform(peer, token, body), handled)
  {
    hide Answers, Deferred;
    var n: nat :| ChainOf(handled[token], body, n);
    forall packet | packet in Answers(token, body, peer.deferral)
      ensures PacketOk(handled, packet)
    {
      AnswersCarryToken(token, body, peer.deferral, packet);
    }
    if Deferred(body).Some? {
      ChainOfNext(handled[token], body, n);
      assert TaskOk(handled, Task(token, Deferred(body).value));
    }
  }

  lemma HandledMore(peer: Peer, handled: map<nat, Body>, token: nat, body: Body)
    requires PeerOk(peer, handled) && token !in handled
    ensures PeerOk(peer, handled[token := body]) && TaskOk(handled[token := body], Task(token, body))
  {
    hide Answered;
    assert ChainOf(body, body, 0);
  }

  lemma ServerReceivesInv(s: System, body: Body)
    requires Inv(s) && Enabled(s, ServerReceives(body))
    ensures Inv(Step(s, ServerReceives(body)))
  {
    hide PeerOk, KeyOk, Answers, Deferred;
    var request := s.client.outbound[s.received];
    assert request.token == s.received + 1;
    if request.id in s.peer.handlers {
      HandledMore(s.peer, s.handled, request.token, body);
      PerformOk(s.peer, s.handled[request.token := body], request.token, body);
    }
  }

  lemma ServerRunsInv(s: System)
    requires Inv(s) && s.peer.queue != []
    ensures Inv(Step(s, ServerRuns))
  {
    hide ClientOk, Answers, Deferred, TaskOk, PacketOk, Perform;
    var task := s.peer.queue[0];
    var t := s.peer.(queue := s.peer.queue[1..]);
    assert PeerOk(t, s.handled);
    if s.peer.alive {
      PerformOk(t, s.handled, task.token, task.body);
      PerformSends(t, task.token, task.body);
    }
  }

  lemma PerformSends(peer: Peer, token: nat, body: Body)
    ensures |Perform(peer, token, body).sent| >= |peer.sent|
  {
  }

  lemma StepInv(s: System, a: Action)
    requires Inv(s) && Enabled(s, a)
    ensures Inv(Step(s, a))
  {
    hide ClientOk, PeerOk;
    match a
    case Subscribing(name, id, callback) =>
      SubscribeOk(s.client, s.issued, name, id, callback);
      SameChannel(s, a);
    case RequestingOne(name, id, payload, responseId, callback) =>
      RequestOneOk(s.client, s.issued, name, id, payload, responseId, callback);
      MoreIssued(s, a);
    case RequestingMany(name, id, payload, callbacks) =>
      RequestManyOk(s.client, s.issued, name, id, payload, callbacks);
      MoreIssued(s, a);
    case Releasing(name) =>
      ReleaseOk(s, name);
    case Copying(from, to) =>
      if from != to {
        AssignOk(s.client, s.issued, to, Chain(s.client, User(from)));
      }
      SameChannel(s, a);
    case AddingHandler(id) =>
      assert PeerOk(Step(s, a).peer, s.handled) by { SamePeer(s.peer, Step(s, a).peer, s.handled); }
    case ServerReceives(body) => ServerReceivesInv(s, body);
    case ServerRuns => ServerRunsInv(s);
    case ServerNotifies(id, token, payload) => NotifyInv(s, id, token, payload);
    case ServerGoes =>
      assert PeerOk(Step(s, a).peer, s.handled) by { SamePeer(s.peer, Step(s, a).peer, s.handled); }
    case ClientReceives =>
  }

  lemma SamePeer(peer: Peer, other: Peer, handled: map<nat, Body>)
    requires PeerOk(peer, handled) && other.queue == peer.queue && other.sent == peer.sent
    ensures PeerOk(other, handled)
  {
  }

  lemma NotifyInv(s: System, id: int, token: nat, payload: Payload)
    requires Inv(s) && Enabled(s, ServerNotifies(id, token, payload))
    ensures Inv(Step(s, ServerNotifies(id, token, payload)))
  {
    hide ClientOk, TaskOk, Answered;
  }

  /** The channel has one message for each request issued. */
  lemma SameChannel(s: System, a: Action)
    requires Inv(s) && Enabled(s, a) && Step(s, a).issued == s.issued && ClientOk(Step(s, a).client, s.issued)
    ensures |Step(s, a).client.outbound| == |s.client.outbound|
  {
    hide KeyOk;
  }

  lemma MoreIssued(s: System, a: Action)
    requires Inv(s) && Enabled(s, a) && ClientOk(Step(s, a).client, Step(s, a).issued)
    requires |Step(s, a).issued| == |s.issued| + 1
    ensures |Step(s, a).client.outbound| == |s.client.outbound| + 1
  {
    hide KeyOk;
  }

  lemma ReleaseOk(s: System, name: nat)
    requires Inv(s)
    ensures Inv(s.(client := Release(s.client, User(name))))
  {
    hide PeerOk, KeyOk, Release;
    ReleaseFrame(s.client, User(name));
    ShrunkClientOk(s.client, Release(s.client, User(name)), s.issued);
  }

  lemma {:induction false} RunInv(s: System, run: seq<Action>)
    requires Inv(s)
    ensures Inv(Exec(s, run))
    decreases |run|
  {
    hide Inv, Step, Enabled;
    if run != [] {
      RunInv(s, run[..|run| - 1]);
      if Enabled(Exec(s, run[..|run| - 1]), run[|run| - 1]) {
        StepInv(Exec(s, run[..|run| - 1]), run[|run| - 1]);
      }
    }
  }

  // Routing ---------------------------------------------------------------------------------------------

  /**
   In every state a run reaches, the response next delivered was given, by the handler of the request with its
   token or by a continuation of that handler, under that token; and it invokes the subscription on its id, or
   else the callback that this very request registered under its id, or else nothing.
   */
  lemma ResponsesReachTheirRequest(s: System, run: seq<Action>)
    requires Inv(s)
    requires var t := Exec(s, run); Enabled(t, ClientReceives) && t.peer.sent[t.delivered].solicited
    ensures var t := Exec(s, run); var p := t.peer.sent[t.delivered]; var d := Dispatch(t.client, p);
      && 1 <= p.token <= |t.issued| && p.token in t.handled
      && Answered(p.token, t.handled[p.token], p)
      && if p.id in t.client.subscriptions then d == Invoked(t.client.subscriptions[p.id])
         else d.Invoked? ==>
           var registered := t.issued[p.token - 1].registered;
           Registers(registered, p.id) && d.callback == RegisteredFor(registered, p.id)
  {
    hide Exec, Registers, RegisteredFor, Answered;
    RunInv(s, run);
    var t := Exec(s, run);
    assert PacketOk(t.handled, t.peer.sent[t.delivered]);
  }

  /** A step that subscribes no id twice at once, and names no response id twice in one request. */
  predicate Careful(s: System, a: Action)
  {
    match a
    case Subscribing(_, id, _) => id !in s.client.subscriptions
    case RequestingMany(_, _, _, callbacks) => DistinctIds(callbacks)
    case _ => true
  }

  /** Of all steps the careless ones, and only they, break the ownership of the callbacks. */
  lemma CarefulKeepsOwnership(s: System, a: Action)
    requires OwnOk(s.client) && Enabled(s, a)
    ensures OwnOk(Step(s, a).client) <==> Careful(s, a)
  {
    hide OwnOk, Subscribe, RequestOne, RequestMany, Release, Copy;
    match a
    case Subscribing(name, id, callback) => SubscribeKeepsExactly(s.client, User(name), id, callback);
    case RequestingOne(name, id, payload, responseId, callback) =>
      RequestOneKeeps(s.client, User(name), id, payload, responseId, callback);
    case RequestingMany(name, id, payload, callbacks) =>
      RequestManyKeepsExactly(s.client, User(name), id, payload, callbacks);
    case Releasing(name) => ReleaseHandleKeeps(s.client, User(name));
    case Copying(from, to) => CopyKeeps(s.client, User(from), User(to));
    case _ =>
  }

  /** Every step of the run is a careful one. */
  predicate AllCareful(s: System, run: seq<Action>)
    decreases |run|
  {
    run != [] ==>
      AllCareful(s, run[..|run| - 1]) && Careful(Exec(s, run[..|run| - 1]), run[|run| - 1])
  }

  lemma {:induction false} RunKeepsOwnership(s: System, run: seq<Action>)
    requires OwnOk(s.client) && AllCareful(s, run)
    ensures OwnOk(Exec(s, run).client)
    decreases |run|
  {
    hide OwnOk, Step, Enabled, Careful;
    if run != [] {
      RunKeepsOwnership(s, run[..|run| - 1]);
      if Enabled(Exec(s, run[..|run| - 1]), run[|run| - 1]) {
        CarefulKeepsOwnership(Exec(s, run[..|run| - 1]), run[|run| - 1]);
      }
    }
  }

  // Double erasure --------------------------------------------------------------------------------------

  predicate OnlyReleases(run: seq<Action>)
  {
    forall i :: 0 <= i < |run| ==> run[i].Releasing?
  }

  lemma {:induction false} ExecFirst(s: System, a: Action, run: seq<Action>)
    requires Enabled(s, a)
    ensures Exec(s, [a] + run) == Exec(Step(s, a), run)
    decreases |run|
  {
    hide Enabled, Step;
    if run == [] {
      assert [a] + [] == [a] && [a][..0] == [];
      assert Exec(s, []) == s && Exec(s, [a]) == Step(s, a);
    } else {
      ExecFirst(s, a, run[..|run| - 1]);
      assert ([a] + run)[..|run|] == [a] + run[..|run| - 1];
    }
  }

  /** Letting all handles go, one by one. */
  lemma {:induction false} ReleaseAll(s: System) returns (run: seq<Action>)
    requires Meeting(s.client.handles) && Doomed(s.client) && Temp !in s.client.handles
    ensures OnlyReleases(run) && Exec(s, run).client.undefined
    decreases |s.client.handles|
  {
    hide Meeting, Doomed, Release;
    if s.client.handles == map[] {
      run := [];
      AllReleased(s.client);
    } else {
      var v :| v in s.client.handles;
      var t := Step(s, Releasing(v.name));
      ReleaseDoomed(s.client, v);
      ReleaseFrame(s.client, v);
      assert t.client.handles == s.client.handles - {v};
      assert |t.client.handles| < |s.client.handles| by { FewerHandles(s.client.handles, v); }
      var rest := ReleaseAll(t);
      hide Exec, Step, Enabled;
      ExecFirst(s, Releasing(v.name), rest);
      run := [Releasing(v.name)] + rest;
    }
  }

  lemma FewerHandles(handles: map<Var, seq<Link>>, v: Var)
    requires v in handles
    ensures |handles - {v}| < |handles|
  {
    var rest := handles - {v};
    assert rest.Keys == handles.Keys - {v};
    assert |rest.Keys| == |rest| && |handles.Keys| == |handles|;
  }

  lemma CarelessDooms(s: System, a: Action)
    requires OwnOk(s.client) && Enabled(s, a) && !Careful(s, a)
    ensures var t := Step(s, a).client; Meeting(t.handles) && Doomed(t) && Temp !in t.handles
  {
    hide OwnOk, Subscribe, RequestMany, Meeting, Doomed;
    match a
    case Subscribing(name, id, callback) => SecondSubscriptionDooms(s.client, User(name), id, callback);
    case RequestingMany(name, id, payload, callbacks) =>
      RepeatedIdDooms(s.client, User(name), id, payload, callbacks);
    case _ =>
  }

  lemma {:induction false} ReleasesAreCareful(s: System, run: seq<Action>)
    requires OnlyReleases(run)
    ensures AllCareful(s, run)
    decreases |run|
  {
    if run != [] {
      ReleasesAreCareful(s, run[..|run| - 1]);
    }
  }

  /**
   A step lets some element be erased twice, once handles go, exactly when it is careless: a second subscription on an
   id, through whatever handle, or a request that names a response id twice.
   */
  lemma DoubleEraseExactly(s: System, a: Action)
    requires OwnOk(s.client) && Enabled(s, a)
    ensures (exists run :: OnlyReleases(run) && Exec(Step(s, a), run).client.undefined) <==> !Careful(s, a)
  {
    if Careful(s, a) {
      CarefulKeepsOwnership(s, a);
      forall run | OnlyReleases(run)
        ensures !Exec(Step(s, a), run).client.undefined
      {
        ReleasesAreCareful(Step(s, a), run);
        RunKeepsOwnership(Step(s, a), run);
        hide Exec, Meeting, Serials, Disjoint, Exact;
      }
    } else {
      CarelessDooms(s, a);
      var run := ReleaseAll(Step(s, a));
    }
    hide Exec, Step, Enabled, Careful, OnlyReleases;
  }

  /**
   After any careful run: a response that no subscription shadows invokes a callback exactly while a handle of its
   request lives, the maps hold what live handles own and nothing else, and no element was erased twice.
   */
  lemma ResponsesInvokeWhileHeld(s: System, run: seq<Action>, packet: Packet)
    requires OwnOk(s.client) && AllCareful(s, run)
    ensures var t := Exec(s, run).client;
      && !t.undefined
      && (forall e :: Present(t, e) <==> Owned(t.handles, e))
      && (packet.id !in t.subscriptions ==>
            (Dispatch(t, packet).Invoked? <==> Owned(t.handles, Response(packet.id, packet.token))))
  {
    RunKeepsOwnership(s, run);
    hide Exec, Owned, Meeting, Serials, Disjoint;
    var t := Exec(s, run).client;
    var e := Response(packet.id, packet.token);
    assert Present(t, e) <==> Owned(t.handles, e);
  }
}
