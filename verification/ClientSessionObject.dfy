/**
 The client session as an object: its methods update the token, the two maps and the handles in place.
 */
module ClientSessionObject {
  import opened ClientSession
  import opened ClientOwnership

  class Session {
    var token: nat
    var callbacks: map<(int, nat), Callback>
    var subscriptions: map<int, Callback>
    var handles: map<Var, seq<Link>>
    var nextSerial: nat
    var outbound: seq<Request>
    var undefined: bool

    function View(): Client
      reads this
    {
      Client(token, callbacks, subscriptions, handles, nextSerial, outbound, undefined)
    }

    constructor ()
      ensures OwnOk(View()) && token == 1 && handles == map[] && outbound == []
    {
      token := 1;
      callbacks := map[];
      subscriptions := map[];
      handles := map[];
      nextSerial := 0;
      outbound := [];
      undefined := false;
    }

    method InsertElement(e: Entry, callback: Callback)
      modifies this`callbacks, this`subscriptions
      ensures View() == Insert(old(View()), e, callback)
    {
      match e
      case Subscription(id) =>
        if id !in subscriptions {
          subscriptions := subscriptions[id := callback];
        }
      case Response(id, t) =>
        if (id, t) !in callbacks {
          callbacks := callbacks[(id, t) := callback];
        }
    }

    method EraseElement(e: Entry)
      modifies this`callbacks, this`subscriptions, this`undefined
      ensures View() == EraseEntry(old(View()), e)
    {
      if !Present(View(), e) {
        undefined := true;
      } else {
        match e
        case Subscription(id) => subscriptions := subscriptions - {id};
        case Response(id, t) => callbacks := callbacks - {(id, t)};
      }
    }

    /** Destroys the links of a handle, one by one, until another handle holds the next. */
    method ReleaseHandle(v: Var)
      modifies this`callbacks, this`subscriptions, this`undefined, this`handles
      ensures View() == Release(old(View()), v)
    {
      var chain := Chain(View(), v);
      while chain != [] && !Shared(View(), v, chain[0].serial)
        invariant chain == Chain(View(), v)
        invariant Release(View(), v) == Release(old(View()), v)
        decreases |chain|
      {
        ghost var before := View();
        EraseElement(chain[0].entry);
        chain := chain[1..];
        handles := handles[v := chain];
        assert View() == DropFirst(before, v);
      }
      handles := handles - {v};
    }

    method AssignHandle(v: Var, chain: seq<Link>)
      requires v != Temp
      modifies this`callbacks, this`subscriptions, this`undefined, this`handles
      ensures View() == Assign(old(View()), v, chain)
    {
      hide Release;
      handles := handles[Temp := Chain(View(), v)][v := chain];
      ReleaseHandle(Temp);
    }

    method ResetHandle(v: Var, e: Entry)
      requires v != Temp
      modifies this`callbacks, this`subscriptions, this`undefined, this`handles, this`nextSerial
      ensures View() == Reset(old(View()), v, e)
    {
      hide Release;
      var link := NewLink(View(), e);
      nextSerial := nextSerial + 1;
      AssignHandle(v, [link]);
    }

    method Subscribe(v: Var, id: int, callback: Callback)
      requires v != Temp
      modifies this
      ensures View() == ClientSession.Subscribe(old(View()), v, id, callback)
      ensures old(OwnOk(View())) && id !in old(subscriptions) ==>
        OwnOk(View()) && id in subscriptions && subscriptions[id] == callback
    {
      if OwnOk(View()) && id !in subscriptions {
        SubscribeInstalls(View(), v, id, callback);
        SubscribeKeepsExactly(View(), v, id, callback);
      }
      hide Reset, OwnOk;
      InsertElement(Subscription(id), callback);
      ResetHandle(v, Subscription(id));
    }

    method RequestOne(v: Var, id: int, payload: Payload, responseId: int, callback: Callback)
      requires v != Temp
      modifies this
      ensures View() == ClientSession.RequestOne(old(View()), v, id, payload, responseId, callback)
    {
      hide Reset, Insert;
      var t := token;
      token := token + 1;
      InsertElement(Response(responseId, t), callback);
      ResetHandle(v, Response(responseId, t));
      outbound := outbound + [Request(id, t, payload)];
    }

    /** Rebuilds the handle link by link: each response's link in front of what the handle led to so far. */
    method RequestMany(v: Var, id: int, payload: Payload, responses: seq<(int, Callback)>)
      requires v != Temp
      modifies this
      ensures View() == ClientSession.RequestMany(old(View()), v, id, payload, responses)
    {
      hide Reset, Insert;
      var t := token;
      token := token + 1;
      ghost var s := View();
      for i := 0 to |responses|
        invariant View() == Register(s, v, t, responses, i)
      {
        var e := Response(responses[i].0, t);
        InsertElement(e, responses[i].1);
        if Chain(View(), v) != [] {
          var link := NewLink(View(), e);
          nextSerial := nextSerial + 1;
          handles := handles[v := [link] + Chain(View(), v)];
        } else {
          ResetHandle(v, e);
        }
      }
      outbound := outbound + [Request(id, t, payload)];
    }

    method CopyHandle(from: Var, to: Var)
      requires from != Temp && to != Temp
      modifies this`callbacks, this`subscriptions, this`undefined, this`handles
      ensures View() == Copy(old(View()), from, to)
    {
      if from != to {
        AssignHandle(to, Chain(View(), from));
      }
    }

    /**
     `message`: a message invokes somebody exactly when its id is subscribed to or its id and token are registered; the
     subscription wins. The test whether the id is awaited at all, which spares others the reading of a token, hides no
     callback.
     */
    method Receive(packet: Packet) returns (r: Dispatched)
      ensures r.Nobody? <==> packet.id !in subscriptions && (packet.id, packet.token) !in callbacks
      ensures r.Invoked? && packet.id in subscriptions ==> r.callback == subscriptions[packet.id]
      ensures r.Invoked? && packet.id !in subscriptions ==> r.callback == callbacks[(packet.id, packet.token)]
      ensures r == Dispatch(View(), packet)
    {
      if packet.id in subscriptions {
        return Invoked(subscriptions[packet.id]);
      }
      if Awaited(View(), packet.id) {
        var key := (packet.id, packet.token);
        if key in callbacks {
          return Invoked(callbacks[key]);
        }
      }
      assert (packet.id, packet.token) in callbacks ==> (packet.id, packet.token).0 == packet.id;
      return Nobody;
    }
  }
}
