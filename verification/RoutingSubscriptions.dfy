/**
 Whose callback a subscription invokes, and which requests meet a handler, over whole runs.
 */
module RoutingSubscriptions {
  import opened ClientSession
  import opened ClientOwnership
  import opened ServerSession
  import opened Routing
  import opened Wrappers

  // Subscriptions ---------------------------------------------------------------------------------------

  predicate Gives(a: Action, id: int, callback: Callback)
  {
    a.Subscribing? && a.id == id && a.callback == callback
  }

  /** The callback of the run's last subscription on the id. */
  function LastGiven(run: seq<Action>, id: int): Option<Callback>
  {
    if run == [] then None
    else
      var a := run[|run| - 1];
      if a.Subscribing? && a.id == id then Some(a.callback) else LastGiven(run[..|run| - 1], id)
  }

  /** Subscriptions may go; those that stay keep their callbacks. */
  predicate Shrunk(s: Client, t: Client)
  {
    forall id :: id in t.subscriptions ==> id in s.subscriptions && t.subscriptions[id] == s.subscriptions[id]
  }

  lemma AssignShrinks(s: Client, v: Var, chain: seq<Link>)
    ensures Shrunk(s, Assign(s, v, chain))
  {
    hide Release;
    ReleaseFrame(s.(handles := s.handles[Temp := Chain(s, v)][v := chain]), Temp);
  }

  lemma RequestOneShrinks(s: Client, v: Var, id: int, payload: Payload, responseId: int, callback: Callback)
    ensures Shrunk(s, RequestOne(s, v, id, payload, responseId, callback))
  {
    var e := Response(responseId, s.token);
    var i := Insert(s.(token := s.token + 1), e, callback);
    AssignShrinks(i.(nextSerial := i.nextSerial + 1), v, [NewLink(i, e)]);
    hide Assign;
  }

  lemma {:induction false} RegisterSubscribes(s: Client, v: Var, token: nat, callbacks: seq<(int, Callback)>, n: nat)
    requires v != Temp && n <= |callbacks|
    ensures Register(s, v, token, callbacks, n).subscriptions == s.subscriptions
  {
    hide Reset;
    if n > 0 {
      RegisterSubscribes(s, v, token, callbacks, n - 1);
      var t := Register(s, v, token, callbacks, n - 1);
      if Chain(t, v) == [] {
        ResetEmpty(t, v, Response(callbacks[n - 1].0, token), callbacks[n - 1].1);
      }
    }
  }

  lemma SubscribeGives(s: Client, v: Var, id: int, callback: Callback)
    ensures var t := Subscribe(s, v, id, callback);
      forall other :: other in t.subscriptions ==>
        (other in s.subscriptions && t.subscriptions[other] == s.subscriptions[other])
        || (other == id && other !in s.subscriptions && t.subscriptions[other] == callback)
  {
    var e := Subscription(id);
    var i := Insert(s, e, callback);
    AssignShrinks(i.(nextSerial := i.nextSerial + 1), v, [NewLink(i, e)]);
    hide Assign;
  }

  /** Only a subscribing step on an id without a subscription adds one, with the callback it was given. */
  lemma StepGives(s: System, a: Action)
    requires Enabled(s, a)
    ensures var before, after := s.client.subscriptions, Step(s, a).client.subscriptions;
      forall id :: id in after ==>
        (id in before && after[id] == before[id]) || (id !in before && Gives(a, id, after[id]))
  {
    hide Subscribe, RequestOne, Release, Assign, Register;
    match a
    case Subscribing(name, id, callback) => SubscribeGives(s.client, User(name), id, callback);
    case RequestingOne(name, id, payload, responseId, callback) =>
      RequestOneShrinks(s.client, User(name), id, payload, responseId, callback);
    case RequestingMany(name, id, payload, callbacks) =>
      RegisterSubscribes(s.client.(token := s.client.token + 1), User(name), s.client.token, callbacks, |callbacks|);
    case Releasing(name) => ReleaseFrame(s.client, User(name));
    case Copying(from, to) => AssignShrinks(s.client, User(to), Chain(s.client, User(from)));
    case _ =>
  }

  ghost predicate AllGiven(client: Client, run: seq<Action>)
  {
    forall id :: id in client.subscriptions ==> exists k :: 0 <= k < |run| && Gives(run[k], id, client.subscriptions[id])
  }

  lemma {:induction false} RunGives(s: System, run: seq<Action>)
    requires s.client.subscriptions == map[]
    ensures AllGiven(Exec(s, run).client, run)
    decreases |run|
  {
    hide Step, Enabled, Gives;
    if run != [] {
      var front, a := run[..|run| - 1], run[|run| - 1];
      var t, u := Exec(s, front), Exec(s, run);
      RunGives(s, front);
      if Enabled(t, a) {
        StepGives(t, a);
      }
      forall id | id in u.client.subscriptions
        ensures exists k :: 0 <= k < |run| && Gives(run[k], id, u.client.subscriptions[id])
      {
        if id in t.client.subscriptions && u.client.subscriptions[id] == t.client.subscriptions[id] {
          var k :| 0 <= k < |front| && Gives(front[k], id, t.client.subscriptions[id]);
          assert run[k] == front[k];
        } else {
          assert Gives(run[|run| - 1], id, u.client.subscriptions[id]);
        }
      }
    }
  }

  lemma {:induction false} CarefulRunGivesLast(s: System, run: seq<Action>)
    requires s.client.subscriptions == map[] && AllCareful(s, run)
    ensures var t := Exec(s, run).client;
      forall id :: id in t.subscriptions ==> LastGiven(run, id) == Some(t.subscriptions[id])
    decreases |run|
  {
    hide Step;
    if run != [] {
      var t, a := Exec(s, run[..|run| - 1]), run[|run| - 1];
      CarefulRunGivesLast(s, run[..|run| - 1]);
      if Enabled(t, a) {
        StepGives(t, a);
      }
    }
  }

  /**
   A message on a subscribed id invokes the callback that a subscription of the run gave for this id; in a careful run,
   the one given last.
   */
  lemma SubscribersHearTheirs(s: System, run: seq<Action>, packet: Packet)
    requires Initial(s) && packet.id in Exec(s, run).client.subscriptions
    ensures var d := Dispatch(Exec(s, run).client, packet);
      && d.Invoked?
      && (exists k :: 0 <= k < |run| && Gives(run[k], packet.id, d.callback))
      && (AllCareful(s, run) ==> LastGiven(run, packet.id) == Some(d.callback))
  {
    RunGives(s, run);
    if AllCareful(s, run) {
      CarefulRunGivesLast(s, run);
    }
    hide Exec, LastGiven, Gives, AllCareful;
  }

  // Handlers --------------------------------------------------------------------------------------------

  /** The server handles the ids for which the run added a handler, and those it handled before. */
  lemma {:induction false} HandlersAdded(s: System, run: seq<Action>)
    ensures var t := Exec(s, run);
      forall id :: id in t.peer.handlers <==> id in s.peer.handlers || AddingHandler(id) in run
    decreases |run|
  {
    if run != [] {
      var front, a := run[..|run| - 1], run[|run| - 1];
      HandlersAdded(s, front);
      assert run == front + [a];
      HandlersStep(Exec(s, front), a);
      hide Step;
    }
  }

  lemma HandlersStep(s: System, a: Action)
    ensures Enabled(s, a) ==>
      Step(s, a).peer.handlers == s.peer.handlers + (if a.AddingHandler? then {a.id} else {})
    ensures a.AddingHandler? ==> Enabled(s, a)
  {
    hide Answers, Deferred;
  }

  /**
   A request whose id has a handler, added by the run or there before, is answered by what that handler does; any other
   changes nothing at the server.
   */
  lemma RequestMeetsHandler(s: System, run: seq<Action>, body: Body)
    requires Enabled(Exec(s, run), ServerReceives(body))
    ensures var t := Exec(s, run); var u := Step(t, ServerReceives(body)); var request := t.client.outbound[t.received];
      if request.id in s.peer.handlers || AddingHandler(request.id) in run then
        && u.handled == t.handled[request.token := body]
        && u.peer.sent == t.peer.sent + Answers(request.token, body, t.peer.deferral)
      else
        u.handled == t.handled && u.peer == t.peer
  {
    HandlersAdded(s, run);
    hide Exec, Answers, Deferred;
  }
}
