/**
 The answers to one request, among all others: none lost, none repeated, in the order of its chain of continuations,
 however the requests and the queue's steps interleave.
 */
module RoutingOrder {
  import opened ClientSession
  import opened ServerSession
  import opened Routing
  import opened Wrappers

  /** The answers sent under a token. */
  function Under(sent: seq<Packet>, token: nat): seq<Packet>
  {
    if sent == [] then []
    else
      var p := sent[|sent| - 1];
      Under(sent[..|sent| - 1], token) + if p.solicited && p.token == token then [p] else []
  }

  /** All answers of a chain, from its first body to its last continuation. */
  function Whole(token: nat, body: Body, deferral: bool): seq<Packet>
    decreases Size(body)
  {
    DeferredSmaller(body);
    Answers(token, body, deferral)
    + if deferral && Deferred(body).Some? then Whole(token, Deferred(body).value, deferral) else []
  }

  /** The answers still to come from the tasks queued under a token. */
  function Owed(queue: seq<Task>, token: nat, deferral: bool): seq<Packet>
  {
    if queue == [] then []
    else (if queue[0].token == token then Whole(token, queue[0].body, deferral) else []) + Owed(queue[1..], token, deferral)
  }

  predicate Queued(queue: seq<Task>, token: nat)
  {
    exists i :: 0 <= i < |queue| && queue[i].token == token
  }

  /** No request has two tasks in the queue. */
  predicate Single(queue: seq<Task>)
  {
    forall i, j :: 0 <= i < j < |queue| ==> queue[i].token != queue[j].token
  }

  /** What was sent under the token, with what is owed, is all there is to be; a dead session just stops. */
  predicate Settled(peer: Peer, token: nat, body: Body)
  {
    if peer.alive then
      Under(peer.sent, token) + Owed(peer.queue, token, peer.deferral) == Whole(token, body, peer.deferral)
    else
      Under(peer.sent, token) <= Whole(token, body, peer.deferral)
  }

  ghost predicate Order(peer: Peer, handled: map<nat, Body>)
  {
    Single(peer.queue) && forall token :: token in handled ==> Settled(peer, token, handled[token])
  }

  // Sent and owed ---------------------------------------------------------------------------------------

  lemma {:induction false} UnderAppend(a: seq<Packet>, b: seq<Packet>, token: nat)
    ensures Under(a + b, token) == Under(a, token) + Under(b, token)
    decreases |b|
  {
    if b == [] {
      assert a + b == a;
    } else {
      UnderAppend(a, b[..|b| - 1], token);
      assert (a + b)[..|a + b| - 1] == a + b[..|b| - 1];
    }
  }

  lemma {:induction false} UnderAll(sent: seq<Packet>, token: nat)
    requires forall i :: 0 <= i < |sent| ==> sent[i].solicited && sent[i].token == token
    ensures Under(sent, token) == sent
  {
    if sent != [] {
      UnderAll(sent[..|sent| - 1], token);
    }
  }

  lemma {:induction false} UnderNone(sent: seq<Packet>, token: nat)
    requires forall i :: 0 <= i < |sent| ==> !sent[i].solicited || sent[i].token != token
    ensures Under(sent, token) == []
  {
    if sent != [] {
      UnderNone(sent[..|sent| - 1], token);
    }
  }

  lemma UnderAnswers(token: nat, body: Body, deferral: bool, t: nat)
    ensures Under(Answers(token, body, deferral), t) == if t == token then Answers(token, body, deferral) else []
  {
    hide Answers, Under;
    var answers := Answers(token, body, deferral);
    forall i | 0 <= i < |answers|
      ensures answers[i].token == token && answers[i].solicited
    {
      AnswersCarryToken(token, body, deferral, answers[i]);
    }
    if t == token {
      UnderAll(answers, t);
    } else {
      UnderNone(answers, t);
    }
  }

  lemma OwedStep(queue: seq<Task>, token: nat, deferral: bool)
    requires queue != []
    ensures var first := if queue[0].token == token then Whole(token, queue[0].body, deferral) else [];
      Owed(queue, token, deferral) == first + Owed(queue[1..], token, deferral)
  {
    hide Whole;
  }

  lemma {:induction false} OwedAppend(a: seq<Task>, b: seq<Task>, token: nat, deferral: bool)
    ensures Owed(a + b, token, deferral) == Owed(a, token, deferral) + Owed(b, token, deferral)
  {
    hide Whole, Owed;
    if a == [] {
      assert a + b == b;
      NothingOwed(token, deferral);
    } else {
      OwedAppend(a[1..], b, token, deferral);
      OwedStep(a, token, deferral);
      OwedStep(a + b, token, deferral);
      assert (a + b)[1..] == a[1..] + b;
    }
  }

  lemma {:induction false} OwedNone(queue: seq<Task>, token: nat, deferral: bool)
    requires !Queued(queue, token)
    ensures Owed(queue, token, deferral) == []
  {
    hide Whole;
    if queue != [] {
      assert queue[0].token != token;
      forall i | 0 <= i < |queue| - 1
        ensures queue[1..][i].token != token
      {
        assert queue[i + 1].token != token;
      }
      OwedNone(queue[1..], token, deferral);
    }
  }

  lemma OwedOne(task: Task, token: nat, deferral: bool)
    ensures Owed([task], token, deferral) == if task.token == token then Whole(token, task.body, deferral) else []
  {
    hide Whole;
    assert [task][1..] == [];
    assert Owed([], token, deferral) == [];
  }

  // Steps -----------------------------------------------------------------------------------------------

  /** A body run under a token that has no task queued sends or owes all its answers, and touches no other token. */
  lemma PerformSettles(peer: Peer, token: nat, body: Body, t: nat)
    requires peer.alive && !Queued(peer.queue, token)
    ensures var u := Perform(peer, token, body);
      Under(u.sent, t) + Owed(u.queue, t, u.deferral)
        == if t == token then Under(peer.sent, t) + Whole(t, body, peer.deferral)
           else Under(peer.sent, t) + Owed(peer.queue, t, peer.deferral)
  {
    WholeIs(token, body, peer.deferral);
    var answers := Answers(token, body, peer.deferral);
    var next := if peer.deferral then Schedule(token, Deferred(body)) else [];
    hide Answers, Whole, Under, Owed, Queued;
    UnderAnswers(token, body, peer.deferral, t);
    UnderAppend(peer.sent, answers, t);
    OwedAppend(peer.queue, next, t, peer.deferral);
    OwedNone(peer.queue, token, peer.deferral);
    if next == [] {
      assert Owed([], t, peer.deferral) == [] by { NothingOwed(t, peer.deferral); }
    } else {
      OwedOne(next[0], t, peer.deferral);
      assert next == [next[0]];
    }
  }

  lemma NothingOwed(token: nat, deferral: bool)
    ensures Owed([], token, deferral) == []
  {
  }

  lemma WholeIs(token: nat, body: Body, deferral: bool)
    ensures Whole(token, body, deferral) == Answers(token, body, deferral)
      + if deferral && Deferred(body).Some? then Whole(token, Deferred(body).value, deferral) else []
  {
    hide Answers, Deferred;
  }

  lemma PerformSingle(peer: Peer, token: nat, body: Body)
    requires Single(peer.queue) && !Queued(peer.queue, token)
    ensures Single(Perform(peer, token, body).queue)
  {
    hide Answers, Deferred;
  }

  lemma PerformOrder(peer: Peer, handled: map<nat, Body>, token: nat, body: Body)
    requires peer.alive && Single(peer.queue) && !Queued(peer.queue, token) && token in handled
    requires Under(peer.sent, token) + Whole(token, body, peer.deferral) == Whole(token, handled[token], peer.deferral)
    requires forall t :: t in handled && t != token ==> Settled(peer, t, handled[t])
    ensures Order(Perform(peer, token, body), handled)
  {
    PerformSingle(peer, token, body);
    hide Under, Owed, Whole, Single, Queued, Answers, Deferred;
    forall t | t in handled
      ensures Settled(Perform(peer, token, body), t, handled[t])
    {
      PerformSettles(peer, token, body, t);
    }
  }

  /** Nothing is sent or queued under a token whose request has not been handled. */
  lemma NothingYet(peer: Peer, handled: map<nat, Body>, token: nat)
    requires PeerOk(peer, handled) && token !in handled
    ensures !Queued(peer.queue, token) && Under(peer.sent, token) == []
  {
    hide Answered, Under;
    forall i | 0 <= i < |peer.queue|
      ensures peer.queue[i].token != token
    {
      assert TaskOk(handled, peer.queue[i]);
    }
    forall i | 0 <= i < |peer.sent|
      ensures !peer.sent[i].solicited || peer.sent[i].token != token
    {
      assert PacketOk(handled, peer.sent[i]);
    }
    UnderNone(peer.sent, token);
  }

  lemma ReceivesOrder(s: System, body: Body)
    requires Inv(s) && Order(s.peer, s.handled) && Enabled(s, ServerReceives(body))
    ensures var t := Step(s, ServerReceives(body)); Order(t.peer, t.handled)
  {
    hide PeerOk, KeyOk, Answers, Deferred, Under, Owed, Whole, Single, Queued;
    var request := s.client.outbound[s.received];
    assert request.token == s.received + 1;
    if request.id in s.peer.handlers {
      NothingYet(s.peer, s.handled, request.token);
      assert [] + Whole(request.token, body, s.peer.deferral) == Whole(request.token, body, s.peer.deferral);
      PerformOrder(s.peer, s.handled[request.token := body], request.token, body);
    }
  }

  /** The first task taken off the queue: its request has no other, and the others are owed what they were. */
  lemma TakenOff(peer: Peer, handled: map<nat, Body>)
    requires Order(peer, handled) && peer.queue != []
    ensures var u := peer.(queue := peer.queue[1..]); var task := peer.queue[0];
      && Single(u.queue) && !Queued(u.queue, task.token)
      && (peer.alive && task.token in handled ==>
            Under(peer.sent, task.token) + Whole(task.token, task.body, peer.deferral)
              == Whole(task.token, handled[task.token], peer.deferral))
      && forall t :: t in handled && t != task.token ==> Settled(u, t, handled[t])
  {
    hide Under, Whole;
    var u, task := peer.(queue := peer.queue[1..]), peer.queue[0];
    forall i | 0 <= i < |u.queue|
      ensures u.queue[i] == peer.queue[i + 1] && u.queue[i].token != task.token
    {
    }
    OwedNone(u.queue, task.token, peer.deferral);
    if peer.alive && task.token in handled {
      assert Settled(peer, task.token, handled[task.token]);
      assert Whole(task.token, task.body, peer.deferral) + [] == Whole(task.token, task.body, peer.deferral);
    }
    forall t | t in handled && t != task.token
      ensures Settled(u, t, handled[t])
    {
      assert Settled(peer, t, handled[t]);
      assert [] + Owed(u.queue, t, peer.deferral) == Owed(u.queue, t, peer.deferral);
    }
  }

  lemma RunsOrder(s: System)
    requires Inv(s) && Order(s.peer, s.handled) && s.peer.queue != []
    ensures Order(RunFirst(s.peer), s.handled)
  {
    var task := s.peer.queue[0];
    assert TaskOk(s.handled, task);
    hide Inv, Under, Owed, Whole, Single, Queued, Perform;
    TakenOff(s.peer, s.handled);
    var u := s.peer.(queue := s.peer.queue[1..]);
    if s.peer.alive {
      PerformOrder(u, s.handled, task.token, task.body);
    } else {
      assert Settled(s.peer, task.token, s.handled[task.token]);
    }
  }

  lemma NotifyOrder(peer: Peer, handled: map<nat, Body>, packet: Packet)
    requires Order(peer, handled) && !packet.solicited
    ensures Order(peer.(sent := peer.sent + [packet]), handled)
  {
    hide Owed, Whole, Single;
    var t := peer.(sent := peer.sent + [packet]);
    assert t.sent[..|t.sent| - 1] == peer.sent;
    forall token | token in handled
      ensures Settled(t, token, handled[token])
    {
      assert Settled(peer, token, handled[token]);
    }
  }

  /** A session that goes keeps what it has sent. */
  lemma GoesOrder(peer: Peer, handled: map<nat, Body>)
    requires Order(peer, handled)
    ensures Order(peer.(alive := false), handled)
  {
    hide Under, Owed, Whole, Single;
    forall token | token in handled
      ensures Settled(peer.(alive := false), token, handled[token])
    {
      assert Settled(peer, token, handled[token]);
    }
  }

  lemma SameOrder(peer: Peer, other: Peer, handled: map<nat, Body>)
    requires Order(peer, handled) && other == peer.(handlers := other.handlers)
    ensures Order(other, handled)
  {
    hide Under, Owed, Whole, Single;
    forall token | token in handled
      ensures Settled(other, token, handled[token])
    {
      assert Settled(peer, token, handled[token]);
    }
  }

  lemma StepOrder(s: System, a: Action)
    requires Inv(s) && Order(s.peer, s.handled) && Enabled(s, a)
    ensures Order(Step(s, a).peer, Step(s, a).handled)
  {
    hide Inv, Order, RunFirst;
    match a
    case AddingHandler(id) => SameOrder(s.peer, Step(s, a).peer, s.handled);
    case ServerReceives(body) => ReceivesOrder(s, body);
    case ServerRuns => RunsOrder(s);
    case ServerNotifies(id, token, payload) => NotifyOrder(s.peer, s.handled, Packet(id, token, payload, false));
    case ServerGoes => GoesOrder(s.peer, s.handled);
    case _ =>
  }

  lemma InitialOrder(s: System)
    requires Initial(s)
    ensures Order(s.peer, s.handled)
  {
  }

  lemma {:induction false} RunOrder(s: System, run: seq<Action>)
    requires Inv(s) && Order(s.peer, s.handled)
    ensures Order(Exec(s, run).peer, Exec(s, run).handled)
    decreases |run|
  {
    hide Inv, Order, Step, Enabled;
    if run != [] {
      var t, a := Exec(s, run[..|run| - 1]), run[|run| - 1];
      RunOrder(s, run[..|run| - 1]);
      RunInv(s, run[..|run| - 1]);
      if Enabled(t, a) {
        StepOrder(t, a);
      }
    }
  }

  /**
   Under every interleaving, what was sent under the token of a handled request is the beginning of all answers of its
   chain, in order, none lost and none repeated; while the session lives the rest is what its one queued task will
   answer, and with no task queued nothing is missing.
   */
  lemma AnswersComeInOrder(s: System, run: seq<Action>, token: nat)
    requires Inv(s) && Order(s.peer, s.handled)
    requires token in Exec(s, run).handled
    ensures var t := Exec(s, run); var peer := t.peer; var all := Whole(token, t.handled[token], peer.deferral);
      && Single(peer.queue)
      && Under(peer.sent, token) <= all
      && (peer.alive ==> all == Under(peer.sent, token) + Owed(peer.queue, token, peer.deferral))
      && (peer.alive && !Queued(peer.queue, token) ==> Under(peer.sent, token) == all)
  {
    RunOrder(s, run);
    hide Exec, Under, Owed, Whole, Inv, Queued, Single;
    var t := Exec(s, run);
    assert Settled(t.peer, token, t.handled[token]);
    if !Queued(t.peer.queue, token) {
      OwedNone(t.peer.queue, token, t.peer.deferral);
    }
  }

  // Delivery --------------------------------------------------------------------------------------------

  /** The packets the run's steps give to the client. */
  function DeliveredBy(s: System, run: seq<Action>): seq<Packet>
    decreases |run|
  {
    if run == [] then []
    else
      var front, a := run[..|run| - 1], run[|run| - 1];
      var t := Exec(s, front);
      DeliveredBy(s, front) + if a.ClientReceives? && Enabled(t, a) then [t.peer.sent[t.delivered]] else []
  }

  lemma PerformKeepsSent(peer: Peer, token: nat, body: Body)
    ensures peer.sent <= Perform(peer, token, body).sent
  {
    hide Answers, Deferred;
  }

  /** What has been sent stays, and only the client's step takes from it. */
  lemma StepKeepsSent(s: System, a: Action)
    requires Enabled(s, a)
    ensures s.peer.sent <= Step(s, a).peer.sent
    ensures Step(s, a).delivered == s.delivered + if a.ClientReceives? then 1 else 0
  {
    hide Perform;
    match a
    case ServerReceives(body) => PerformKeepsSent(s.peer, s.client.outbound[s.received].token, body);
    case ServerRuns => PerformKeepsSent(s.peer.(queue := s.peer.queue[1..]), s.peer.queue[0].token, s.peer.queue[0].body);
    case _ =>
  }

  /** The client is given each packet once, in the order in which the server sent them. */
  lemma {:induction false} EachDeliveredOnce(s: System, run: seq<Action>)
    requires s.delivered <= |s.peer.sent|
    ensures var t := Exec(s, run);
      && s.delivered <= t.delivered <= |t.peer.sent| && s.peer.sent <= t.peer.sent
      && DeliveredBy(s, run) == t.peer.sent[s.delivered..t.delivered]
    decreases |run|
  {
    hide Step;
    if run != [] {
      var front, a := run[..|run| - 1], run[|run| - 1];
      EachDeliveredOnce(s, front);
      if Enabled(Exec(s, front), a) {
        StepKeepsSent(Exec(s, front), a);
      }
    }
  }
}
