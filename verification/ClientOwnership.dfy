/**
 Who owns the callbacks of a client session: the maps hold exactly the elements live handles lead to, each
 owned by one link, as long as no id is subscribed twice and no request names a response id twice.
 */
module ClientOwnership {
  import opened ClientSession

  /** The ownership invariant, which also holds while a temporary is being released. */
  ghost predicate Core(s: Client)
  {
    Meeting(s.handles) && Serials(s.handles, s.nextSerial) && Disjoint(s.handles) && Exact(s) && !s.undefined
  }

  // Releasing -------------------------------------------------------------------------------------------

  lemma DropOn(handles: map<Var, seq<Link>>, v: Var)
    requires On(handles, v, 0)
    ensures var rest := handles[v := handles[v][1..]];
      forall w, j: nat :: On(rest, w, j) <==> On(handles, w, if w == v then j + 1 else j)
    ensures var rest := handles[v := handles[v][1..]];
      forall w, j: nat :: On(rest, w, j) ==>
        var k := if w == v then j + 1 else j;
        rest[w][j] == handles[w][k] && rest[w][j..] == handles[w][k..]
  {
  }

  /** An unshared first link is nobody else's, so neither is its element. */
  lemma FirstIsAlone(s: Client, v: Var, w: Var, j: nat)
    requires Core(s) && On(s.handles, v, 0) && !Shared(s, v, s.handles[v][0].serial)
    requires On(s.handles, w, j) && s.handles[w][j].entry == s.handles[v][0].entry
    ensures w == v && j == 0
  {
    assert s.handles[w][j].serial == s.handles[v][0].serial;
    assert HasSerial(s.handles[w], s.handles[v][0].serial);
    assert s.handles[v][0..] == s.handles[w][j..];
  }

  lemma DropOwned(s: Client, v: Var, e: Entry)
    requires Core(s) && On(s.handles, v, 0) && !Shared(s, v, s.handles[v][0].serial)
    ensures Owned(s.handles[v := s.handles[v][1..]], e) <==> Owned(s.handles, e) && e != s.handles[v][0].entry
  {
    hide Meeting, Serials, Disjoint, Exact;
    var rest := s.handles[v := s.handles[v][1..]];
    DropOn(s.handles, v);
    if Owned(rest, e) {
      var w, j: nat :| On(rest, w, j) && rest[w][j].entry == e;
      var k := if w == v then j + 1 else j;
      assert On(s.handles, w, k) && s.handles[w][k].entry == e;
      if e == s.handles[v][0].entry {
        FirstIsAlone(s, v, w, k);
      }
    }
    if Owned(s.handles, e) && e != s.handles[v][0].entry {
      var w, j: nat :| On(s.handles, w, j) && s.handles[w][j].entry == e;
      var k := if w == v then j - 1 else j;
      assert On(rest, w, k) && rest[w][k].entry == e;
    }
  }

  lemma DropShape(handles: map<Var, seq<Link>>, v: Var, nextSerial: nat)
    requires Meeting(handles) && Serials(handles, nextSerial) && Disjoint(handles) && On(handles, v, 0)
    ensures var rest := handles[v := handles[v][1..]];
      Meeting(rest) && Serials(rest, nextSerial) && Disjoint(rest)
  {
    DropOn(handles, v);
    hide On;
  }

  lemma DropKeeps(s: Client, v: Var)
    requires Core(s) && Chain(s, v) != [] && !Shared(s, v, Chain(s, v)[0].serial)
    ensures Present(s, Chain(s, v)[0].entry) && Core(DropFirst(s, v))
  {
    hide Meeting, Serials, Disjoint, Shared;
    assert On(s.handles, v, 0);
    var first := s.handles[v][0].entry;
    assert Owned(s.handles, first);
    DropShape(s.handles, v, s.nextSerial);
    var t := DropFirst(s, v);
    forall e
      ensures Present(t, e) <==> Owned(t.handles, e)
    {
      DropOwned(s, v, e);
    }
  }

  lemma ForgetOn(handles: map<Var, seq<Link>>, v: Var)
    ensures forall w, j: nat :: On(handles - {v}, w, j) <==> On(handles, w, j) && w != v
  {
  }

  /** A handle whose first link is another's too can go without taking any element with it. */
  lemma ForgetKeeps(s: Client, v: Var)
    requires Core(s) && (Chain(s, v) == [] || Shared(s, v, Chain(s, v)[0].serial))
    ensures Core(s.(handles := s.handles - {v}))
  {
    hide Disjoint, Serials;
    var rest := s.handles - {v};
    ForgetOn(s.handles, v);
    ForgetShape(s.handles, v, s.nextSerial);
    forall e
      ensures Owned(rest, e) <==> Owned(s.handles, e)
    {
      if Owned(s.handles, e) {
        var w, j: nat :| On(s.handles, w, j) && s.handles[w][j].entry == e;
        if w == v {
          var x, k := OtherChain(s, v);
          assert s.handles[v][0..] == s.handles[x][k..];
          assert s.handles[x][k..][j] == s.handles[x][k + j];
          assert On(rest, x, k + j) && rest[x][k + j].entry == e;
        } else {
          assert On(rest, w, j) && rest[w][j].entry == e;
        }
      }
      if Owned(rest, e) {
        var w, j: nat :| On(rest, w, j) && rest[w][j].entry == e;
        assert On(s.handles, w, j) && s.handles[w][j].entry == e;
      }
    }
  }

  lemma ForgetShape(handles: map<Var, seq<Link>>, v: Var, nextSerial: nat)
    requires Meeting(handles) && Serials(handles, nextSerial) && Disjoint(handles)
    ensures Meeting(handles - {v}) && Serials(handles - {v}, nextSerial) && Disjoint(handles - {v})
  {
    ForgetOn(handles, v);
  }

  lemma OtherChain(s: Client, v: Var) returns (w: Var, k: nat)
    requires Chain(s, v) != [] && Shared(s, v, Chain(s, v)[0].serial)
    ensures w != v && On(s.handles, w, k) && s.handles[w][k].serial == Chain(s, v)[0].serial
  {
    var serial := Chain(s, v)[0].serial;
    w :| w in s.handles && w != v && HasSerial(s.handles[w], serial);
    k :| 0 <= k < |s.handles[w]| && s.handles[w][k].serial == serial;
  }

  /**
   A release erases only elements that are still there, and exactly those no other handle leads to; the other
   handles and all else stay.
   */
  lemma {:induction false} ReleaseKeeps(s: Client, v: Var)
    requires Core(s)
    ensures Core(Release(s, v))
    decreases |Chain(s, v)|
  {
    hide Core, Shared;
    if Chain(s, v) == [] || Shared(s, v, Chain(s, v)[0].serial) {
      ForgetKeeps(s, v);
    } else {
      DropKeeps(s, v);
      ReleaseKeeps(DropFirst(s, v), v);
    }
  }

  /** What a release leaves alone, and that it takes elements away but adds or changes none. */
  lemma {:induction false} ReleaseFrame(s: Client, v: Var)
    ensures var t := Release(s, v);
      && t == s.(handles := s.handles - {v}, callbacks := t.callbacks, subscriptions := t.subscriptions,
                 undefined := t.undefined)
      && (forall key :: key in t.callbacks ==> key in s.callbacks && t.callbacks[key] == s.callbacks[key])
      && (forall id :: id in t.subscriptions ==> id in s.subscriptions && t.subscriptions[id] == s.subscriptions[id])
      && (s.undefined ==> t.undefined)
    decreases |Chain(s, v)|
  {
    hide Shared;
    if Chain(s, v) != [] && !Shared(s, v, Chain(s, v)[0].serial) {
      ReleaseFrame(DropFirst(s, v), v);
      assert s.handles[v := Chain(s, v)[1..]] - {v} == s.handles - {v};
    }
  }

  // Assigning -------------------------------------------------------------------------------------------

  /** The handles once a new chain is in `v` and the old one in the temporary. */
  function Moved(handles: map<Var, seq<Link>>, v: Var, chain: seq<Link>): map<Var, seq<Link>>
  {
    handles[Temp := if v in handles then handles[v] else []][v := chain]
  }

  lemma MovedOn(handles: map<Var, seq<Link>>, v: Var, chain: seq<Link>)
    requires Temp !in handles && v != Temp
    ensures var moved := Moved(handles, v, chain);
      && (forall w, j: nat :: On(moved, w, j) && w != v ==>
            var x := if w == Temp then v else w;
            On(handles, x, j) && moved[w][j] == handles[x][j] && moved[w][j..] == handles[x][j..])
      && (forall w, j: nat :: On(handles, w, j) ==>
            var x := if w == v then Temp else w; On(moved, x, j) && moved[x][j] == handles[w][j])
      && forall j: nat :: On(moved, v, j) <==> j < |chain|
  {
  }

  /** A reset to a fresh link for an element just inserted. */
  lemma ResetKeeps(s: Client, v: Var, e: Entry, callback: Callback)
    requires Core(s) && Temp !in s.handles && v != Temp && !Present(s, e)
    ensures var t := Reset(Insert(s, e, callback), v, e);
      Core(t) && Temp !in t.handles && t.handles == s.handles[v := [NewLink(s, e)]]
  {
    hide Core, Release, Present;
    var u := Insert(s, e, callback).(nextSerial := s.nextSerial + 1,
      handles := Moved(s.handles, v, [NewLink(s, e)]));
    FreshCore(s, v, e, callback);
    ReleaseKeeps(u, Temp);
    ReleaseFrame(u, Temp);
    assert u.handles == s.handles[Temp := Chain(s, v)][v := [NewLink(s, e)]];
    assert Moved(s.handles, v, [NewLink(s, e)]) - {Temp} == s.handles[v := [NewLink(s, e)]];
  }

  lemma FreshCore(s: Client, v: Var, e: Entry, callback: Callback)
    requires Core(s) && Temp !in s.handles && v != Temp && !Present(s, e)
    ensures Core(Insert(s, e, callback).(nextSerial := s.nextSerial + 1,
      handles := Moved(s.handles, v, [NewLink(s, e)])))
  {
    var link := NewLink(s, e);
    var moved := Moved(s.handles, v, [link]);
    MovedOn(s.handles, v, [link]);
    FreshShape(s, v, link);
    var u := Insert(s, e, callback).(nextSerial := s.nextSerial + 1, handles := moved);
    hide Meeting, Serials, Disjoint, Moved;
    forall k
      ensures Present(u, k) <==> Owned(moved, k)
    {
      FreshOwned(s.handles, v, link, k);
    }
  }

  lemma FreshShape(s: Client, v: Var, link: Link)
    requires Core(s) && Temp !in s.handles && v != Temp && link.serial == s.nextSerial && !Present(s, link.entry)
    ensures var moved := Moved(s.handles, v, [link]);
      Meeting(moved) && Serials(moved, s.nextSerial + 1) && Disjoint(moved)
  {
    MovedOn(s.handles, v, [link]);
    hide Moved, On, Present;
    forall w, j: nat | On(s.handles, w, j)
      ensures s.handles[w][j].entry != link.entry
    {
      assert Owned(s.handles, s.handles[w][j].entry);
    }
  }

  lemma FreshOwned(handles: map<Var, seq<Link>>, v: Var, link: Link, e: Entry)
    requires Temp !in handles && v != Temp
    ensures Owned(Moved(handles, v, [link]), e) <==> Owned(handles, e) || e == link.entry
  {
    var moved := Moved(handles, v, [link]);
    MovedOn(handles, v, [link]);
    assert On(moved, v, 0) && moved[v][0] == link;
    hide Moved, On;
    if Owned(moved, e) && e != link.entry {
      var w, j: nat :| On(moved, w, j) && moved[w][j].entry == e;
      var x := if w == Temp then v else w;
      assert On(handles, x, j) && handles[x][j].entry == e;
    }
    if Owned(handles, e) {
      var w, j: nat :| On(handles, w, j) && handles[w][j].entry == e;
      var x := if w == v then Temp else w;
      assert On(moved, x, j) && moved[x][j].entry == e;
    }
  }

  // Copying a handle

  lemma CopyKeeps(s: Client, from: Var, to: Var)
    requires OwnOk(s) && from != Temp && to != Temp
    ensures OwnOk(Copy(s, from, to))
    ensures from != to ==> Copy(s, from, to).handles == s.handles[to := Chain(s, from)]
  {
    if from != to {
      var chain := Chain(s, from);
      var u := s.(handles := Moved(s.handles, to, chain));
      CopyCore(s, from, to);
      ReleaseKeeps(u, Temp);
      ReleaseFrame(u, Temp);
      hide Core, Release;
      assert Moved(s.handles, to, chain) - {Temp} == s.handles[to := chain];
    }
  }

  lemma CopyCore(s: Client, from: Var, to: Var)
    requires OwnOk(s) && from != Temp && to != Temp && from != to
    ensures Core(s.(handles := Moved(s.handles, to, Chain(s, from))))
  {
    var chain := Chain(s, from);
    hide Moved, Meeting, Serials, Disjoint;
    var moved := Moved(s.handles, to, chain);
    CopyOn(s.handles, from, to);
    CopyShape(s.handles, from, to, s.nextSerial);
    forall e
      ensures Owned(moved, e) <==> Owned(s.handles, e)
    {
      if Owned(moved, e) {
        var w, j: nat :| On(moved, w, j) && moved[w][j].entry == e;
        var x := Origin(from, to, w);
        assert On(s.handles, x, j) && s.handles[x][j].entry == e;
      }
      if Owned(s.handles, e) {
        var w, j: nat :| On(s.handles, w, j) && s.handles[w][j].entry == e;
        var x := if w == to then Temp else w;
        assert On(moved, x, j) && moved[x][j].entry == e;
      }
    }
  }

  lemma CopyShape(handles: map<Var, seq<Link>>, from: Var, to: Var, nextSerial: nat)
    requires Temp !in handles && from != Temp && to != Temp && from != to
    requires Meeting(handles) && Serials(handles, nextSerial) && Disjoint(handles)
    ensures var moved := Moved(handles, to, if from in handles then handles[from] else []);
      Meeting(moved) && Serials(moved, nextSerial) && Disjoint(moved)
  {
    CopyOn(handles, from, to);
    hide Moved, On;
  }

  /** Whose chain a handle has after the copy. */
  function Origin(from: Var, to: Var, w: Var): Var
  {
    if w == Temp then to else if w == to then from else w
  }

  lemma CopyOn(handles: map<Var, seq<Link>>, from: Var, to: Var)
    requires Temp !in handles && from != Temp && to != Temp && from != to
    ensures var moved := Moved(handles, to, if from in handles then handles[from] else []);
      && (forall w, j: nat :: On(moved, w, j) ==>
            var x := Origin(from, to, w);
            On(handles, x, j) && moved[w][j] == handles[x][j] && moved[w][j..] == handles[x][j..])
      && forall w, j: nat :: On(handles, w, j) ==>
           var x := if w == to then Temp else w; On(moved, x, j) && moved[x][j] == handles[w][j]
  {
  }

  // Chaining a link

  function Chained(handles: map<Var, seq<Link>>, v: Var, link: Link): map<Var, seq<Link>>
  {
    handles[v := [link] + if v in handles then handles[v] else []]
  }

  lemma ChainedOn(handles: map<Var, seq<Link>>, v: Var, link: Link)
    ensures var longer := Chained(handles, v, link);
      && (forall w, j: nat :: On(longer, w, j) && !(w == v && j == 0) ==>
            var k := if w == v then j - 1 else j;
            On(handles, w, k) && longer[w][j] == handles[w][k] && longer[w][j..] == handles[w][k..])
      && (forall w, j: nat :: On(handles, w, j) ==>
            var k := if w == v then j + 1 else j; On(longer, w, k) && longer[w][k] == handles[w][j])
      && On(longer, v, 0) && longer[v][0] == link
  {
  }

  lemma ChainShape(s: Client, v: Var, link: Link)
    requires Core(s) && link.serial == s.nextSerial && !Present(s, link.entry)
    ensures var longer := Chained(s.handles, v, link);
      Meeting(longer) && Serials(longer, s.nextSerial + 1) && Disjoint(longer)
  {
    ChainedOn(s.handles, v, link);
    hide Chained, Present;
    forall w, j: nat | On(s.handles, w, j)
      ensures s.handles[w][j].entry != link.entry
    {
      assert Owned(s.handles, s.handles[w][j].entry);
    }
  }

  lemma ChainOwned(handles: map<Var, seq<Link>>, v: Var, link: Link, e: Entry)
    ensures Owned(Chained(handles, v, link), e) <==> Owned(handles, e) || e == link.entry
  {
    var longer := Chained(handles, v, link);
    ChainedOn(handles, v, link);
    hide Chained;
    if Owned(longer, e) && e != link.entry {
      var w, j: nat :| On(longer, w, j) && longer[w][j].entry == e;
      assert On(handles, w, if w == v then j - 1 else j);
    }
    if Owned(handles, e) {
      var w, j: nat :| On(handles, w, j) && handles[w][j].entry == e;
      assert On(longer, w, if w == v then j + 1 else j);
    }
  }

  lemma ChainKeeps(s: Client, v: Var, e: Entry, callback: Callback)
    requires Core(s) && Temp !in s.handles && v != Temp && !Present(s, e)
    ensures var t := Insert(s, e, callback).(nextSerial := s.nextSerial + 1,
        handles := Chained(s.handles, v, NewLink(s, e)));
      Core(t) && Temp !in t.handles
  {
    var t := Insert(s, e, callback).(nextSerial := s.nextSerial + 1, handles := Chained(s.handles, v, NewLink(s, e)));
    ChainShape(s, v, NewLink(s, e));
    hide Meeting, Serials, Disjoint;
    forall k
      ensures Present(t, k) <==> Owned(t.handles, k)
    {
      ChainOwned(s.handles, v, NewLink(s, e), k);
    }
  }

  // The public operations -------------------------------------------------------------------------------

  lemma ReleaseHandleKeeps(s: Client, v: Var)
    requires OwnOk(s)
    ensures OwnOk(Release(s, v)) && Release(s, v).handles == s.handles - {v}
    ensures forall e :: Present(Release(s, v), e) <==> Owned(s.handles - {v}, e)
  {
    ReleaseKeeps(s, v);
    ReleaseFrame(s, v);
    hide Release, Meeting, Serials, Disjoint;
  }

  /** A message invokes somebody exactly while a live handle owns its subscription or its request's element. */
  lemma InvokedExactlyWhileOwned(s: Client, packet: Packet)
    requires OwnOk(s)
    ensures Dispatch(s, packet).Invoked? <==>
      Owned(s.handles, Subscription(packet.id)) || Owned(s.handles, Response(packet.id, packet.token))
  {
    hide Owned, Meeting, Serials, Disjoint;
    assert Present(s, Subscription(packet.id)) <==> Owned(s.handles, Subscription(packet.id));
    assert Present(s, Response(packet.id, packet.token)) <==> Owned(s.handles, Response(packet.id, packet.token));
    assert (packet.id, packet.token) in s.callbacks ==> (packet.id, packet.token).0 == packet.id;
  }

  /** Nothing outlives the handles. */
  lemma NoHandlesNoCallbacks(s: Client)
    requires OwnOk(s) && forall v :: Chain(s, v) == []
    ensures s.callbacks == map[] && s.subscriptions == map[]
  {
    forall e
      ensures !Present(s, e)
    {
      forall v, i: nat
        ensures !On(s.handles, v, i)
      {
        assert Chain(s, v) == [];
      }
    }
    forall key | key in s.callbacks
      ensures false
    {
      assert Present(s, Response(key.0, key.1));
    }
    forall id | id in s.subscriptions
      ensures false
    {
      assert Present(s, Subscription(id));
    }
  }

  lemma RequestOneKeeps(s: Client, v: Var, id: int, payload: Payload, responseId: int, callback: Callback)
    requires OwnOk(s) && v != Temp
    ensures OwnOk(RequestOne(s, v, id, payload, responseId, callback))
    ensures var t := RequestOne(s, v, id, payload, responseId, callback); var e := Response(responseId, s.token);
      t.handles == s.handles[v := [NewLink(s, e)]]
  {
    hide Reset, Insert, Present, Meeting, Serials, Disjoint, Exact;
    var u := s.(token := s.token + 1);
    var e := Response(responseId, s.token);
    NextTokenFresh(s, responseId);
    ResetKeeps(u, v, e, callback);
    ResetFrame(u, v, e, callback);
    SendExact(Reset(Insert(u, e, callback), v, e), Request(id, s.token, payload));
  }

  lemma SendExact(s: Client, request: Request)
    requires Exact(s)
    ensures Exact(Send(s, request))
  {
    hide Owned;
    assert forall e :: Present(Send(s, request), e) == Present(s, e);
  }

  lemma NextTokenFresh(s: Client, id: int)
    requires OwnOk(s)
    ensures Core(s.(token := s.token + 1)) && !Present(s.(token := s.token + 1), Response(id, s.token))
  {
    TokenKeeps(s);
  }

  lemma InsertFrame(s: Client, e: Entry, callback: Callback)
    ensures var t := Insert(s, e, callback);
      && t == s.(callbacks := t.callbacks, subscriptions := t.subscriptions)
      && (forall key :: key in t.callbacks ==> Response(key.0, key.1) == e || key in s.callbacks)
      && (forall key :: key in t.callbacks && key in s.callbacks ==> t.callbacks[key] == s.callbacks[key])
      && (forall key :: key in t.callbacks && key !in s.callbacks ==> t.callbacks[key] == callback)
      && (forall id :: id in t.subscriptions ==> Subscription(id) == e || id in s.subscriptions)
  {
  }

  /** A reset adds at most the element just inserted. */
  lemma ResetFrame(s: Client, v: Var, e: Entry, callback: Callback)
    ensures var t := Reset(Insert(s, e, callback), v, e);
      && t.token == s.token && t.outbound == s.outbound && t.nextSerial == s.nextSerial + 1
      && t.handles == (s.handles[Temp := Chain(s, v)][v := [NewLink(s, e)]]) - {Temp}
      && (forall key :: key in t.callbacks ==> Response(key.0, key.1) == e || key in s.callbacks)
      && (forall key :: key in t.callbacks && key in s.callbacks ==> t.callbacks[key] == s.callbacks[key])
      && (forall key :: key in t.callbacks && key !in s.callbacks ==> t.callbacks[key] == callback)
      && (forall id :: id in t.subscriptions ==> Subscription(id) == e || id in s.subscriptions)
  {
    InsertFrame(s, e, callback);
    hide Insert;
    var i := Insert(s, e, callback);
    ReleaseFrame(i.(nextSerial := s.nextSerial + 1, handles := i.handles[Temp := Chain(i, v)][v := [NewLink(i, e)]]), Temp);
    hide Release;
  }

  predicate DistinctIds(callbacks: seq<(int, Callback)>)
  {
    forall i, j :: 0 <= i < j < |callbacks| ==> callbacks[i].0 != callbacks[j].0
  }

  predicate KeysBehind(s: Client, t: Client, token: nat, callbacks: seq<(int, Callback)>, n: nat)
    requires n <= |callbacks|
  {
    forall key :: key in t.callbacks ==>
      key in s.callbacks || (key.1 == token && exists i :: 0 <= i < n && callbacks[i].0 == key.0)
  }

  lemma RegisterStep(s: Client, v: Var, token: nat, callbacks: seq<(int, Callback)>, n: nat)
    requires 0 < n <= |callbacks| && v != Temp
    requires var t := Register(s, v, token, callbacks, n - 1);
      Core(t) && Temp !in t.handles && !Present(t, Response(callbacks[n - 1].0, token))
    ensures var t := Register(s, v, token, callbacks, n - 1); var r := Register(s, v, token, callbacks, n);
      && Core(r) && Temp !in r.handles && r.token == t.token && r.outbound == t.outbound
      && (forall key :: key in r.callbacks ==> key in t.callbacks || key == (callbacks[n - 1].0, token))
  {
    hide Core, Reset, Release;
    var t := Register(s, v, token, callbacks, n - 1);
    var e := Response(callbacks[n - 1].0, token);
    if Chain(t, v) == [] {
      ResetKeeps(t, v, e, callbacks[n - 1].1);
      ResetFrame(t, v, e, callbacks[n - 1].1);
    } else {
      ChainKeeps(t, v, e, callbacks[n - 1].1);
    }
  }

  /** The registration loop, where the response ids differ. */
  lemma {:induction false} RegisterKeeps(s: Client, v: Var, token: nat, callbacks: seq<(int, Callback)>, n: nat)
    requires Core(s) && Temp !in s.handles && v != Temp && n <= |callbacks| && DistinctIds(callbacks)
    requires forall key :: key in s.callbacks ==> key.1 < token
    ensures var t := Register(s, v, token, callbacks, n);
      && Core(t) && Temp !in t.handles && t.token == s.token && t.outbound == s.outbound
      && KeysBehind(s, t, token, callbacks, n)
  {
    hide Core, Register;
    RegisterNone(s, v, token, callbacks);
    if n > 0 {
      RegisterKeeps(s, v, token, callbacks, n - 1);
      RegisterStep(s, v, token, callbacks, n);
    }
  }

  lemma RegisterNone(s: Client, v: Var, token: nat, callbacks: seq<(int, Callback)>)
    ensures Register(s, v, token, callbacks, 0) == s
  {
  }

  // When the ownership invariant is kept ----------------------------------------------------------------

  lemma DropMeeting(handles: map<Var, seq<Link>>, v: Var)
    requires Meeting(handles) && On(handles, v, 0)
    ensures Meeting(handles[v := handles[v][1..]])
  {
    DropOn(handles, v);
    hide On;
  }

  /** No other handle leads to the link. */
  ghost predicate Alone(handles: map<Var, seq<Link>>, v: Var, serial: nat)
  {
    forall w, k: nat :: On(handles, w, k) && w != v ==> handles[w][k].serial != serial
  }

  lemma AloneFirst(s: Client, v: Var, j: nat)
    requires Meeting(s.handles) && On(s.handles, v, j) && Alone(s.handles, v, s.handles[v][j].serial)
    ensures !Shared(s, v, s.handles[v][0].serial)
  {
    if Shared(s, v, s.handles[v][0].serial) {
      var w, k := OtherChain(s, v);
      assert On(s.handles, v, 0);
      assert s.handles[v][0..] == s.handles[w][k..];
      assert s.handles[v][0..][j] == s.handles[w][k + j];
      assert On(s.handles, w, k + j);
    }
  }

  /** Releasing a handle erases the element of every link only it leads to. */
  lemma {:induction false} ReleaseErases(s: Client, v: Var, j: nat)
    requires Meeting(s.handles) && On(s.handles, v, j) && Alone(s.handles, v, s.handles[v][j].serial)
    ensures !Present(Release(s, v), s.handles[v][j].entry)
    decreases j
  {
    hide Shared, Meeting;
    AloneFirst(s, v, j);
    var t := DropFirst(s, v);
    if j == 0 {
      ReleaseFrame(t, v);
    } else {
      DropOn(s.handles, v);
      DropMeeting(s.handles, v);
      ReleaseErases(t, v, j - 1);
    }
  }

  /** A second link for an element already there breaks the ownership invariant. */
  lemma SecondLinkBreaks(s: Client, v: Var, e: Entry, callback: Callback)
    requires OwnOk(s) && v != Temp && Present(s, e)
    ensures !OwnOk(Reset(Insert(s, e, callback), v, e))
  {
    var link := NewLink(s, e);
    var u := s.(nextSerial := s.nextSerial + 1, handles := s.handles[Temp := Chain(s, v)][v := [link]]);
    var t := Reset(Insert(s, e, callback), v, e);
    assert t == Release(u, Temp);
    ReleaseFrame(u, Temp);
    assert On(t.handles, v, 0) && t.handles[v][0] == link;
    var w, j: nat :| On(s.handles, w, j) && s.handles[w][j].entry == e;
    if OwnOk(t) {
      if w != v {
        assert On(t.handles, w, j);
      } else {
        assert Owned(t.handles, e);
        assert On(u.handles, Temp, j) && u.handles[Temp][j] == s.handles[w][j];
        SecondLinkAlone(s, v, j, e, t);
        SecondLinkMeeting(s, v, link);
        ReleaseErases(u, Temp, j);
      }
    }
  }

  lemma SecondLinkMeeting(s: Client, v: Var, link: Link)
    requires OwnOk(s) && v != Temp && link.serial == s.nextSerial
    ensures Meeting(s.handles[Temp := Chain(s, v)][v := [link]])
  {
    MovedOn(s.handles, v, [link]);
    assert s.handles[Temp := Chain(s, v)][v := [link]] == Moved(s.handles, v, [link]);
    hide Moved, Exact, Disjoint;
  }

  lemma SameSerial(handles: map<Var, seq<Link>>, w: Var, k: nat, v: Var, j: nat)
    requires Meeting(handles) && On(handles, w, k) && On(handles, v, j)
    ensures handles[w][k].serial == handles[v][j].serial ==> handles[w][k] == handles[v][j]
  {
    if handles[w][k].serial == handles[v][j].serial {
      assert handles[w][k..][0] == handles[v][j..][0];
    }
  }

  lemma SecondLinkAlone(s: Client, v: Var, j: nat, e: Entry, t: Client)
    requires OwnOk(s) && v != Temp && On(s.handles, v, j) && s.handles[v][j].entry == e
    requires OwnOk(t) && t.handles == s.handles[Temp := Chain(s, v)][v := [NewLink(s, e)]] - {Temp}
    ensures Alone(s.handles[Temp := Chain(s, v)][v := [NewLink(s, e)]], Temp, s.handles[v][j].serial)
  {
    var u := s.handles[Temp := Chain(s, v)][v := [NewLink(s, e)]];
    var serial := s.handles[v][j].serial;
    assert On(t.handles, v, 0);
    hide Exact;
    forall w, k: nat | On(u, w, k) && w != Temp
      ensures u[w][k].serial != serial
    {
      if w != v {
        assert On(s.handles, w, k) && On(t.handles, w, k);
        assert s.handles[w][k].entry != e;
        SameSerial(s.handles, w, k, v, j);
      }
    }
  }

  /** A subscription keeps the ownership invariant exactly when its id has no subscription yet. */
  lemma SubscribeKeepsExactly(s: Client, v: Var, id: int, callback: Callback)
    requires OwnOk(s) && v != Temp
    ensures OwnOk(Subscribe(s, v, id, callback)) <==> id !in s.subscriptions
  {
    var e := Subscription(id);
    if id in s.subscriptions {
      SecondLinkBreaks(s, v, e, callback);
    } else {
      ResetKeeps(s, v, e, callback);
      ResetFrame(s, v, e, callback);
      hide Reset, Meeting, Serials, Disjoint, Exact;
    }
  }

  /**
   A subscription on a new id holds the callback it was given, through its own handle; others stay as they were, or have
   gone with what that handle led to.
   */
  lemma SubscribeInstalls(s: Client, v: Var, id: int, callback: Callback)
    requires OwnOk(s) && v != Temp && id !in s.subscriptions
    ensures var t := Subscribe(s, v, id, callback);
      && id in t.subscriptions && t.subscriptions[id] == callback
      && (forall other :: other in t.subscriptions && other != id ==>
            other in s.subscriptions && t.subscriptions[other] == s.subscriptions[other])
      && (forall key :: key in t.callbacks ==> key in s.callbacks && t.callbacks[key] == s.callbacks[key])
      && t.handles == s.handles[v := [NewLink(s, Subscription(id))]]
  {
    var e := Subscription(id);
    var i := Insert(s, e, callback);
    var u := i.(nextSerial := s.nextSerial + 1, handles := s.handles[Temp := Chain(s, v)][v := [NewLink(s, e)]]);
    ResetKeeps(s, v, e, callback);
    ReleaseFrame(u, Temp);
    var t := Subscribe(s, v, id, callback);
    hide Reset, Release, Meeting, Serials, Disjoint;
    assert t.subscriptions == Release(u, Temp).subscriptions;
    assert On(t.handles, v, 0) && t.handles[v][0].entry == e;
    assert Present(t, e) <==> Owned(t.handles, e);
  }

  /** With two subscriptions on one id, releasing both handles erases the one element twice. */
  lemma TwoSubscriptionsEraseTwice(s: Client, a: Var, b: Var, id: int, callback: Callback)
    requires OwnOk(s) && a != Temp && b != Temp && a != b && Chain(s, b) == []
    requires |Chain(s, a)| == 1 && Chain(s, a)[0].entry == Subscription(id)
    requires Alone(s.handles, a, Chain(s, a)[0].serial)
    ensures Release(Release(Subscribe(s, b, id, callback), a), b).undefined
  {
    var e := Subscription(id);
    assert On(s.handles, a, 0) && Owned(s.handles, e);
    var t := Subscribe(s, b, id, callback);
    var u := s.(nextSerial := s.nextSerial + 1, handles := s.handles[Temp := []][b := [NewLink(s, e)]]);
    assert t == Release(u, Temp) == u.(handles := u.handles - {Temp});
    assert Chain(t, a) == Chain(s, a) && Chain(t, b) == [NewLink(s, e)];
    assert !Shared(t, a, Chain(t, a)[0].serial);
    var r := Release(t, a);
    assert r == Release(DropFirst(t, a), a);
    assert Chain(DropFirst(t, a), a) == [];
    assert !Present(r, e) && Chain(r, b) == [NewLink(s, e)];
    assert !Shared(r, b, s.nextSerial);
    assert DropFirst(r, b).undefined;
    ReleaseFrame(DropFirst(r, b), b);
  }

  /** The links of one request, newest first. */
  function RequestLinks(serial: nat, token: nat, callbacks: seq<(int, Callback)>, n: nat): (r: seq<Link>)
    requires n <= |callbacks|
    ensures |r| == n
    ensures forall k :: 0 <= k < n ==> r[n - 1 - k] == Link(serial + k, Response(callbacks[k].0, token))
  {
    if n == 0 then []
    else [Link(serial + n - 1, Response(callbacks[n - 1].0, token))] + RequestLinks(serial, token, callbacks, n - 1)
  }

  /** The handle of a request leads to the request's own links, then to what it led to before. */
  lemma {:induction false} RegisterChains(s: Client, v: Var, token: nat, callbacks: seq<(int, Callback)>, n: nat)
    requires Temp !in s.handles && v != Temp && n <= |callbacks|
    ensures var t := Register(s, v, token, callbacks, n);
      && t.nextSerial == s.nextSerial + n && Temp !in t.handles && t.token == s.token
      && Chain(t, v) == RequestLinks(s.nextSerial, token, callbacks, n) + Chain(s, v)
      && forall w :: w != v ==> Chain(t, w) == Chain(s, w)
  {
    hide Register, RequestLinks;
    RegisterNone(s, v, token, callbacks);
    if n > 0 {
      RegisterChains(s, v, token, callbacks, n - 1);
      RegisterChainsStep(s, v, token, callbacks, n);
    } else {
      assert RequestLinks(s.nextSerial, token, callbacks, 0) == [];
      assert [] + Chain(s, v) == Chain(s, v);
    }
  }

  lemma ChainsOfOne(s: Client, v: Var, token: nat, callbacks: seq<(int, Callback)>, n: nat)
    requires v != Temp && 0 < n <= |callbacks| && Temp !in Register(s, v, token, callbacks, n - 1).handles
    ensures var t, r := Register(s, v, token, callbacks, n - 1), Register(s, v, token, callbacks, n);
      && r.nextSerial == t.nextSerial + 1 && Temp !in r.handles && r.token == t.token
      && Chain(r, v) == [Link(t.nextSerial, Response(callbacks[n - 1].0, token))] + Chain(t, v)
      && forall w :: w != v ==> Chain(r, w) == Chain(t, w)
  {
    hide Reset;
    var t := Register(s, v, token, callbacks, n - 1);
    ResetFrame(t, v, Response(callbacks[n - 1].0, token), callbacks[n - 1].1);
  }

  lemma OneMoreLink(serial: nat, token: nat, callbacks: seq<(int, Callback)>, n: nat)
    requires 0 < n <= |callbacks|
    ensures RequestLinks(serial, token, callbacks, n)
         == [Link(serial + n - 1, Response(callbacks[n - 1].0, token))] + RequestLinks(serial, token, callbacks, n - 1)
  {
  }

  lemma Associates<T>(a: seq<T>, b: seq<T>, c: seq<T>)
    ensures a + (b + c) == (a + b) + c
  {
  }

  lemma RegisterChainsStep(s: Client, v: Var, token: nat, callbacks: seq<(int, Callback)>, n: nat)
    requires v != Temp && 0 < n <= |callbacks|
    requires var t := Register(s, v, token, callbacks, n - 1);
      && t.nextSerial == s.nextSerial + n - 1 && Temp !in t.handles && t.token == s.token
      && Chain(t, v) == RequestLinks(s.nextSerial, token, callbacks, n - 1) + Chain(s, v)
      && forall w :: w != v ==> Chain(t, w) == Chain(s, w)
    ensures var t := Register(s, v, token, callbacks, n);
      && t.nextSerial == s.nextSerial + n && Temp !in t.handles && t.token == s.token
      && Chain(t, v) == RequestLinks(s.nextSerial, token, callbacks, n) + Chain(s, v)
      && forall w :: w != v ==> Chain(t, w) == Chain(s, w)
  {
    hide Register, Chain, RequestLinks;
    ChainsOfOne(s, v, token, callbacks, n);
    OneMoreLink(s.nextSerial, token, callbacks, n);
    var link := Link(s.nextSerial + n - 1, Response(callbacks[n - 1].0, token));
    var links := RequestLinks(s.nextSerial, token, callbacks, n - 1);
    Associates([link], links, Chain(s, v));
  }

  /** A request for several responses keeps the ownership invariant exactly when its response ids differ. */
  lemma RequestManyKeepsExactly(s: Client, v: Var, id: int, payload: Payload, callbacks: seq<(int, Callback)>)
    requires OwnOk(s) && v != Temp
    ensures OwnOk(RequestMany(s, v, id, payload, callbacks)) <==> DistinctIds(callbacks)
  {
    hide Register, RequestLinks, Meeting, Serials, Exact;
    var u, n := s.(token := s.token + 1), |callbacks|;
    RegisterChains(u, v, s.token, callbacks, n);
    if DistinctIds(callbacks) {
      TokenKeeps(s);
      RegisterKeeps(u, v, s.token, callbacks, n);
      RequestManyOk(s, v, id, payload, callbacks);
    } else {
      var t := Register(u, v, s.token, callbacks, n);
      var i, j :| 0 <= i < j < n && callbacks[i].0 == callbacks[j].0;
      assert On(t.handles, v, n - 1 - i) && On(t.handles, v, n - 1 - j);
      assert !Disjoint(t.handles);
    }
  }

  lemma TokenKeeps(s: Client)
    requires OwnOk(s)
    ensures Core(s.(token := s.token + 1))
  {
    assert forall e :: Present(s.(token := s.token + 1), e) == Present(s, e);
  }

  lemma RequestManyOk(s: Client, v: Var, id: int, payload: Payload, callbacks: seq<(int, Callback)>)
    requires var u := s.(token := s.token + 1); var t := Register(u, v, s.token, callbacks, |callbacks|);
      && Core(t) && Temp !in t.handles && t.token == s.token + 1
      && KeysBehind(u, t, s.token, callbacks, |callbacks|)
    requires forall key :: key in s.callbacks ==> key.1 < s.token
    ensures OwnOk(RequestMany(s, v, id, payload, callbacks))
  {
    hide Register, Meeting, Serials, Disjoint, Owned;
    var t := Register(s.(token := s.token + 1), v, s.token, callbacks, |callbacks|);
    var r := RequestMany(s, v, id, payload, callbacks);
    assert forall e :: Present(r, e) == Present(t, e);
  }
}
