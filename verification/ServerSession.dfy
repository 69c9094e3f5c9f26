/**
 The server half of a request/response session: handlers answer a request with any number of responses, and may
 defer a continuation to the session's queue, which may answer and defer again.
 */
module ServerSession {
  import opened ClientSession
  import opened Wrappers

  /** What a handler or a continuation does with its `response`: answers, and deferrals, the last of which counts. */
  datatype Act = Emit(id: int, payload: Payload) | Defer(body: seq<Act>)

  type Body = seq<Act>

  /** A continuation on the queue, with the token of the request it belongs to. */
  datatype Task = Task(token: nat, body: Body)

  datatype Peer = Peer(handlers: set<int>, deferral: bool, alive: bool, queue: seq<Task>, sent: seq<Packet>)

  /** The answers a body gives, in order. Without a queue the first `defer` throws, and nothing follows it. */
  function Answers(token: nat, body: Body, deferral: bool): seq<Packet>
  {
    if body == [] then
      []
    else
      match body[0]
      case Emit(id, payload) => [Packet(id, token, payload, true)] + Answers(token, body[1..], deferral)
      case Defer(_) => if deferral then Answers(token, body[1..], deferral) else []
  }

  /** The continuation left in the `response` when the body returns. */
  function Deferred(body: Body): Option<Body>
  {
    if body == [] then
      None
    else
      var later := Deferred(body[1..]);
      if later.Some? then later else if body[0].Defer? then Some(body[0].body) else None
  }

  /** The acts a body gets through: all of them, or without a queue those in front of its first `defer`. */
  predicate Reached(body: Body, deferral: bool, i: nat)
  {
    i < |body| && (deferral || forall j :: 0 <= j <= i ==> body[j].Emit?)
  }

  /** How many of the first `n` acts are answers that are reached. */
  function Emitted(body: Body, deferral: bool, n: nat): nat
    requires n <= |body|
  {
    if n == 0 then 0
    else Emitted(body, deferral, n - 1) + if body[n - 1].Emit? && Reached(body, deferral, n - 1) then 1 else 0
  }

  /** The packets are the answers of the body: each with its own id and payload, in order, and nothing else. */
  predicate Given(packets: seq<Packet>, token: nat, body: Body, deferral: bool)
  {
    && |packets| == Emitted(body, deferral, |body|)
    && forall i :: 0 <= i < |body| && body[i].Emit? && Reached(body, deferral, i) ==>
         var k := Emitted(body, deferral, i);
         k < |packets| && packets[k] == Packet(body[i].id, token, body[i].payload, true)
  }

  /** `Emitted` from the first act on. */
  lemma {:induction false} EmittedStep(body: Body, deferral: bool, n: nat)
    requires 0 < n <= |body|
    ensures Emitted(body, deferral, n) ==
      if !deferral && body[0].Defer? then 0
      else (if body[0].Emit? then 1 else 0) + Emitted(body[1..], deferral, n - 1)
  {
    if n > 1 {
      EmittedStep(body, deferral, n - 1);
      ReachedStep(body, deferral, n - 1);
    }
  }

  lemma ReachedStep(body: Body, deferral: bool, i: nat)
    requires 0 < i < |body|
    ensures Reached(body, deferral, i) <==> (deferral || body[0].Emit?) && Reached(body[1..], deferral, i - 1)
  {
    if !deferral && Reached(body[1..], deferral, i - 1) && body[0].Emit? {
      forall j | 0 <= j <= i
        ensures body[j].Emit?
      {
        assert j > 0 ==> body[1..][j - 1] == body[j];
      }
    }
    if !deferral && Reached(body, deferral, i) {
      assert forall j :: 0 <= j < i ==> body[1..][j] == body[j + 1];
    }
  }

  /** The answer of the act at `i`, given those of the acts behind the first. */
  lemma GivenAt(packets: seq<Packet>, rest: seq<Packet>, token: nat, body: Body, deferral: bool, i: nat)
    requires i < |body| && body[i].Emit? && Reached(body, deferral, i) && Given(rest, token, body[1..], deferral)
    requires packets == (if body[0].Emit? then [Packet(body[0].id, token, body[0].payload, true)] else []) + rest
    ensures var k := Emitted(body, deferral, i);
      k < |packets| && packets[k] == Packet(body[i].id, token, body[i].payload, true)
  {
    hide Emitted, Reached;
    if i == 0 {
      EmittedNone(body, deferral);
    } else {
      ReachedStep(body, deferral, i);
      EmittedStep(body, deferral, i);
      FirstReached(body, deferral, i);
      var k := Emitted(body[1..], deferral, i - 1);
      assert body[1..][i - 1] == body[i];
      assert rest[k] == Packet(body[i].id, token, body[i].payload, true);
    }
  }

  lemma FirstReached(body: Body, deferral: bool, i: nat)
    requires Reached(body, deferral, i)
    ensures deferral || body[0].Emit?
  {
  }

  /** Every answer of a body goes out with its id, its payload and the token, in the body's order, and no other does. */
  lemma {:induction false} AnswersGiven(token: nat, body: Body, deferral: bool)
    ensures Given(Answers(token, body, deferral), token, body, deferral)
  {
    if body != [] {
      hide Answers, Emitted, Reached;
      var answers, rest := Answers(token, body, deferral), Answers(token, body[1..], deferral);
      AnswersGiven(token, body[1..], deferral);
      EmittedStep(body, deferral, |body|);
      AnswersStep(token, body, deferral);
      forall i | 0 <= i < |body| && body[i].Emit? && Reached(body, deferral, i)
        ensures var k := Emitted(body, deferral, i);
          k < |answers| && answers[k] == Packet(body[i].id, token, body[i].payload, true)
      {
        FirstReached(body, deferral, i);
        assert [] + rest == rest;
        GivenAt(answers, rest, token, body, deferral, i);
      }
    }
  }

  lemma EmittedNone(body: Body, deferral: bool)
    ensures Emitted(body, deferral, 0) == 0
  {
  }

  lemma AnswersStep(token: nat, body: Body, deferral: bool)
    requires body != []
    ensures Answers(token, body, deferral) ==
      match body[0]
      case Emit(id, payload) => [Packet(id, token, payload, true)] + Answers(token, body[1..], deferral)
      case Defer(_) => if deferral then Answers(token, body[1..], deferral) else []
  {
  }

  lemma DeferredStep(body: Body)
    requires body != []
    ensures Deferred(body) ==
      if Deferred(body[1..]).Some? then Deferred(body[1..])
      else match body[0] case Emit(_, _) => None case Defer(next) => Some(next)
  {
  }

  lemma Ended(token: nat, deferral: bool)
    ensures Answers(token, [], deferral) == [] && Deferred([]) == None
  {
  }

  /** What is deferred is the last deferral of the body, if it has one. */
  lemma {:induction false} DeferredIsLast(body: Body)
    ensures Deferred(body).Some? <==> exists i :: 0 <= i < |body| && body[i].Defer?
    ensures forall i :: 0 <= i < |body| && body[i].Defer? && (forall j :: i < j < |body| ==> body[j].Emit?) ==>
      Deferred(body) == Some(body[i].body)
  {
    if body != [] {
      DeferredIsLast(body[1..]);
      assert forall i :: 0 <= i < |body| - 1 ==> body[1..][i] == body[i + 1];
      if exists i :: 0 <= i < |body| && body[i].Defer? {
        var i :| 0 <= i < |body| && body[i].Defer?;
        assert i > 0 ==> body[1..][i - 1].Defer?;
      }
      forall i | 0 <= i < |body| && body[i].Defer? && (forall j :: i < j < |body| ==> body[j].Emit?)
        ensures Deferred(body) == Some(body[i].body)
      {
        if i > 0 {
          assert body[1..][i - 1] == body[i];
        }
      }
    }
  }

  function Schedule(token: nat, next: Option<Body>): seq<Task>
  {
    if next.Some? then [Task(token, next.value)] else []
  }

  predicate Throws(body: Body, deferral: bool)
  {
    !deferral && Deferred(body).Some?
  }

  /** Runs a body for the request with the given token. */
  function Perform(s: Peer, token: nat, body: Body): Peer
  {
    s.(sent := s.sent + Answers(token, body, s.deferral),
       queue := s.queue + if s.deferral then Schedule(token, Deferred(body)) else [])
  }

  /** A request arrives; `body` is what the handler registered for its id does. */
  function Handle(s: Peer, request: Request, body: Body): Peer
  {
    if request.id in s.handlers then Perform(s, request.token, body) else s
  }

  /** The queue runs its first task, which does nothing once the session has gone. */
  function RunFirst(s: Peer): Peer
  {
    if s.queue == [] then s
    else
      var task := s.queue[0];
      var t := s.(queue := s.queue[1..]);
      if s.alive then Perform(t, task.token, task.body) else t
  }

  // Chains ----------------------------------------------------------------------------------------------

  /** The work left in a body: its acts, and those of the continuations in it. */
  function Size(body: Body): nat
  {
    if body == [] then
      0
    else
      (match body[0] case Emit(_, _) => 1 case Defer(next) => 1 + Size(next)) + Size(body[1..])
  }

  lemma {:induction false} DeferredSmaller(body: Body)
    ensures Deferred(body).Some? ==> Size(Deferred(body).value) < Size(body)
  {
    if body != [] {
      DeferredSmaller(body[1..]);
    }
  }

  /** The answers of the `k`-th continuation of a chain, the body itself being the first. */
  function Level(token: nat, body: Body, k: nat): seq<Packet>
    decreases k
  {
    if k == 0 then Answers(token, body, true)
    else if Deferred(body).Some? then Level(token, Deferred(body).value, k - 1)
    else []
  }

  function Depth(body: Body): nat
    decreases Size(body)
  {
    DeferredSmaller(body);
    if Deferred(body).Some? then 1 + Depth(Deferred(body).value) else 1
  }

  function QueueSize(queue: seq<Task>): nat
  {
    if queue == [] then 0 else 1 + Size(queue[0].body) + QueueSize(queue[1..])
  }

  /** The length of the longest chain in the queue. */
  function QueueDepth(queue: seq<Task>): nat
  {
    if queue == [] then 0
    else
      var d, rest := Depth(queue[0].body), QueueDepth(queue[1..]);
      if d >= rest then d else rest
  }

  /** The `k`-th answers of every chain, in the order in which the chains were queued. */
  function Round(queue: seq<Task>, k: nat): seq<Packet>
  {
    if queue == [] then [] else Level(queue[0].token, queue[0].body, k) + Round(queue[1..], k)
  }

  /** The rounds `from .. to`, one after the other: breadth first. */
  function Rounds(queue: seq<Task>, from: nat, to: nat): seq<Packet>
    decreases if from < to then to - from else 0
  {
    if from >= to then [] else Round(queue, from) + Rounds(queue, from + 1, to)
  }

  /** The continuations of a queue's tasks, in the order of the tasks. */
  function Continued(queue: seq<Task>): seq<Task>
  {
    if queue == [] then [] else Schedule(queue[0].token, Deferred(queue[0].body)) + Continued(queue[1..])
  }

  // Running the queue to its end ------------------------------------------------------------------------

  lemma {:induction false} QueueSizeAppend(a: seq<Task>, b: seq<Task>)
    ensures QueueSize(a + b) == QueueSize(a) + QueueSize(b)
  {
    if a == [] {
      assert a + b == b;
    } else {
      QueueSizeAppend(a[1..], b);
      assert (a + b)[1..] == a[1..] + b;
    }
  }

  /** Each task run leaves less to do, however it defers. */
  lemma RunFirstDecreases(s: Peer)
    requires s.queue != []
    ensures QueueSize(RunFirst(s).queue) < QueueSize(s.queue)
  {
    hide Size, Deferred, Answers;
    var task := s.queue[0];
    DeferredSmaller(task.body);
    QueueSizeAppend(s.queue[1..], Schedule(task.token, Deferred(task.body)));
    assert s.queue[1..] + [] == s.queue[1..];
    var next := Schedule(task.token, Deferred(task.body));
    assert QueueSize(next) == if next == [] then 0 else 1 + Size(next[0].body) + QueueSize(next[1..]);
  }

  function RunAll(s: Peer): Peer
    decreases QueueSize(s.queue)
  {
    if s.queue == [] then s
    else
      RunFirstDecreases(s);
      RunAll(RunFirst(s))
  }

  lemma {:induction false} ContinuedRound(queue: seq<Task>, k: nat)
    ensures Round(Continued(queue), k) == Round(queue, k + 1)
  {
    hide Deferred, Answers;
    if queue != [] {
      ContinuedRound(queue[1..], k);
      var next := Schedule(queue[0].token, Deferred(queue[0].body));
      if next == [] {
        assert Continued(queue) == Continued(queue[1..]);
      } else {
        assert Continued(queue)[1..] == Continued(queue[1..]);
      }
    }
  }

  lemma {:induction false} ContinuedRounds(queue: seq<Task>, from: nat, to: nat)
    ensures Rounds(Continued(queue), from, to) == Rounds(queue, from + 1, to + 1)
    decreases if from < to then to - from else 0
  {
    hide Continued, Round;
    if from < to {
      ContinuedRound(queue, from);
      ContinuedRounds(queue, from + 1, to);
    }
  }

  lemma {:induction false} ContinuedDepth(queue: seq<Task>)
    requires queue != []
    ensures QueueDepth(Continued(queue)) == QueueDepth(queue) - 1
  {
    hide Size, Deferred;
    var next := Schedule(queue[0].token, Deferred(queue[0].body));
    var rest := Continued(queue[1..]);
    if queue[1..] == [] {
      assert rest == [] && next + rest == next;
    } else {
      ContinuedDepth(queue[1..]);
    }
    if next == [] {
      assert Continued(queue) == rest;
    } else {
      assert Continued(queue) == next + rest && (next + rest)[1..] == rest;
    }
  }

  /** One round: the tasks `now` at the front run, their continuations queue up behind the tasks `later`. */
  lemma {:induction false} RunRound(s: Peer, now: seq<Task>, later: seq<Task>)
    requires s.alive && s.deferral && s.queue == now + later
    ensures RunAll(s) == RunAll(s.(queue := later + Continued(now), sent := s.sent + Round(now, 0)))
    decreases |now|
  {
    hide Deferred, Answers, Round, Continued, RunAll, RunFirst;
    RoundStep(now);
    if now == [] {
      assert s.queue == later + [] && s.sent + [] == s.sent;
    } else {
      var t := RunFirst(s);
      var next := Schedule(now[0].token, Deferred(now[0].body));
      FirstRuns(s, now, later);
      RunRound(t, now[1..], later + next);
      assert (later + next) + Continued(now[1..]) == later + Continued(now);
      assert t.sent + Round(now[1..], 0) == s.sent + Round(now, 0);
    }
  }

  lemma RoundStep(now: seq<Task>)
    ensures if now == [] then Round(now, 0) == [] && Continued(now) == []
      else
        && Round(now, 0) == Answers(now[0].token, now[0].body, true) + Round(now[1..], 0)
        && Continued(now) == Schedule(now[0].token, Deferred(now[0].body)) + Continued(now[1..])
  {
    hide Answers, Deferred;
  }

  lemma FirstRuns(s: Peer, now: seq<Task>, later: seq<Task>)
    requires s.alive && s.deferral && s.queue == now + later && now != []
    ensures RunAll(s) == RunAll(RunFirst(s))
    ensures RunFirst(s) == s.(
      queue := now[1..] + (later + Schedule(now[0].token, Deferred(now[0].body))),
      sent := s.sent + Answers(now[0].token, now[0].body, true))
  {
    hide Answers, Deferred;
    assert s.queue[1..] == now[1..] + later;
  }

  /**
   Running the queue to the end answers breadth first: all chains' first answers in the order of arrival, then all
   second ones, and so on to the end of the longest chain. Nothing else is sent, and the queue is empty.
   */
  lemma {:induction false} RunAllIsBreadthFirst(s: Peer)
    requires s.alive && s.deferral
    ensures RunAll(s) == s.(queue := [], sent := s.sent + Rounds(s.queue, 0, QueueDepth(s.queue)))
    decreases QueueDepth(s.queue)
  {
    hide Continued, Round, Depth, RunFirst;
    if s.queue == [] {
      assert s.sent + [] == s.sent;
    } else {
      var t := s.(queue := Continued(s.queue), sent := s.sent + Round(s.queue, 0));
      ContinuedDepth(s.queue);
      var d := QueueDepth(s.queue);
      assert s.queue + [] == s.queue && [] + Continued(s.queue) == Continued(s.queue);
      RunRound(s, s.queue, []);
      RunAllIsBreadthFirst(t);
      ContinuedRounds(s.queue, 0, d - 1);
      assert d >= 1;
    }
  }

  /** After the session has gone the queue drains without a word. */
  lemma {:induction false} DeadQueueIsSilent(s: Peer)
    requires !s.alive
    ensures RunAll(s) == s.(queue := [])
    decreases QueueSize(s.queue)
  {
    if s.queue != [] {
      RunFirstDecreases(s);
      DeadQueueIsSilent(RunFirst(s));
    }
  }

  // The session as an object ----------------------------------------------------------------------------

  class Session {
    var handlers: set<int>
    const deferral: bool
    var alive: bool
    var queue: seq<Task>
    var sent: seq<Packet>

    function View(): Peer
      reads this
    {
      Peer(handlers, deferral, alive, queue, sent)
    }

    constructor (withQueue: bool)
      ensures View() == Peer({}, withQueue, true, [], [])
    {
      handlers := {};
      deferral := withQueue;
      alive := true;
      queue := [];
      sent := [];
    }

    method AddHandler(id: int)
      modifies this`handlers
      ensures View() == old(View()).(handlers := old(handlers) + {id})
    {
      handlers := handlers + {id};
    }

    /** Runs a body with a `response` for the token: what is left in its continuation, or the throw of a `defer`. */
    method Call(token: nat, body: Body) returns (continuation: Option<Body>, threw: bool)
      modifies this`sent
      ensures View() == old(View()).(sent := old(sent) + Answers(token, body, deferral))
      ensures old(|sent|) <= |sent| && Given(sent[old(|sent|)..], token, body, deferral)
      ensures threw <==> Throws(body, deferral)
      ensures continuation == if deferral then Deferred(body) else None
      ensures forall i :: 0 <= i < |body| && body[i].Defer? && (forall j :: i < j < |body| ==> body[j].Emit?) ==>
        threw == !deferral && (deferral ==> continuation == Some(body[i].body))
    {
      continuation := None;
      ghost var s := View();
      AnswersGiven(token, body, deferral);
      DeferredIsLast(body);
      hide Given, Answers, Deferred;
      Ended(token, deferral);
      for i := 0 to |body|
        invariant s.sent + Answers(token, body, deferral) == sent + Answers(token, body[i..], deferral)
        invariant deferral ==>
          Deferred(body) == if Deferred(body[i..]).Some? then Deferred(body[i..]) else continuation
        invariant !deferral ==> continuation == None && Deferred(body) == Deferred(body[i..])
      {
        assert body[i..][1..] == body[i + 1..];
        AnswersStep(token, body[i..], deferral);
        DeferredStep(body[i..]);
        match body[i]
        case Emit(id, payload) =>
          sent := sent + [Packet(id, token, payload, true)];
        case Defer(next) =>
          if !deferral {
            threw := true;
            return;
          }
          continuation := Some(next);
      }
      threw := false;
    }

    method ScheduleContinuation(token: nat, continuation: Option<Body>)
      modifies this`queue
      ensures queue == old(queue) + Schedule(token, continuation)
    {
      if continuation.Some? {
        queue := queue + [Task(token, continuation.value)];
      }
    }

    method Receive(request: Request, body: Body) returns (threw: bool)
      modifies this`sent, this`queue
      ensures View() == Handle(old(View()), request, body)
      ensures threw <==> request.id in handlers && Throws(body, deferral)
    {
      hide Answers, Deferred;
      threw := false;
      if request.id in handlers {
        var continuation;
        continuation, threw := Call(request.token, body);
        ScheduleContinuation(request.token, continuation);
      }
    }

    method RunOne()
      requires queue != [] && deferral
      modifies this`sent, this`queue
      ensures View() == RunFirst(old(View()))
    {
      hide Answers, Deferred;
      var task := queue[0];
      queue := queue[1..];
      if alive {
        var continuation, _ := Call(task.token, task.body);
        ScheduleContinuation(task.token, continuation);
      }
    }

    /** Runs tasks until none is left. */
    method RunTillEnd()
      requires deferral
      modifies this`sent, this`queue
      ensures View() == RunAll(old(View()))
      ensures alive ==> queue == [] && sent == old(sent) + Rounds(old(queue), 0, QueueDepth(old(queue)))
    {
      hide RunFirst, Rounds, QueueDepth;
      ghost var s := View();
      while queue != []
        invariant RunAll(View()) == RunAll(s) && alive == s.alive
        decreases QueueSize(queue)
      {
        RunFirstDecreases(View());
        RunOne();
      }
      if alive {
        RunAllIsBreadthFirst(s);
      }
    }
  }
}
