/**
 What becomes of a client session whose ownership invariant is broken: once two links own one element, letting all
 handles go erases that element twice, whatever the order.
 */
module ClientDoubleErase {
  import opened ClientSession
  import opened ClientOwnership

  /** A live handle owns an element that has gone. */
  ghost predicate Missing(s: Client)
  {
    exists v, i: nat :: On(s.handles, v, i) && !Present(s, s.handles[v][i].entry)
  }

  /** An element was erased twice, or will be when the handles go. */
  ghost predicate Doomed(s: Client)
  {
    s.undefined || !Disjoint(s.handles) || Missing(s)
  }

  // Releasing -------------------------------------------------------------------------------------------

  /** Where a link that is not the first of `v` is found when that first one has gone. */
  function Behind(v: Var, w: Var, k: nat): nat
    requires w == v ==> k > 0
  {
    if w == v then k - 1 else k
  }

  lemma BehindOn(handles: map<Var, seq<Link>>, v: Var, w: Var, k: nat)
    requires On(handles, v, 0) && On(handles, w, k) && (w != v || k > 0)
    ensures var rest := handles[v := handles[v][1..]];
      On(rest, w, Behind(v, w, k)) && rest[w][Behind(v, w, k)] == handles[w][k]
  {
  }

  lemma DropDoomed(s: Client, v: Var)
    requires On(s.handles, v, 0) && Doomed(s)
    ensures Doomed(DropFirst(s, v))
  {
    var t, first := DropFirst(s, v), s.handles[v][0];
    if !s.undefined && Present(s, first.entry) {
      hide On;
      assert t.handles == s.handles[v := s.handles[v][1..]] && !Present(t, first.entry);
      if Missing(s) {
        var w, k: nat :| On(s.handles, w, k) && !Present(s, s.handles[w][k].entry);
        BehindOn(s.handles, v, w, k);
        assert !Present(t, t.handles[w][Behind(v, w, k)].entry);
      } else {
        var a, i: nat, b, j: nat :| On(s.handles, a, i) && On(s.handles, b, j)
          && s.handles[a][i].entry == s.handles[b][j].entry && s.handles[a][i].serial != s.handles[b][j].serial;
        if a == v && i == 0 {
          BehindOn(s.handles, v, b, j);
          assert !Present(t, t.handles[b][Behind(v, b, j)].entry);
        } else if b == v && j == 0 {
          BehindOn(s.handles, v, a, i);
          assert !Present(t, t.handles[a][Behind(v, a, i)].entry);
        } else {
          BehindOn(s.handles, v, a, i);
          BehindOn(s.handles, v, b, j);
          assert !Disjoint(t.handles);
        }
      }
    }
  }

  /** A link of a handle whose first link is another's is on that other handle's chain too. */
  lemma Elsewhere(s: Client, v: Var, w: Var, k: nat) returns (x: Var, m: nat)
    requires Meeting(s.handles) && (Chain(s, v) == [] || Shared(s, v, Chain(s, v)[0].serial)) && On(s.handles, w, k)
    ensures x != v && On(s.handles, x, m) && s.handles[x][m] == s.handles[w][k]
  {
    if w != v {
      x, m := w, k;
    } else {
      var y, n := OtherChain(s, v);
      assert On(s.handles, v, 0);
      assert s.handles[v][0..] == s.handles[y][n..];
      x, m := y, n + k;
      assert s.handles[v][0..][k] == s.handles[y][n..][k];
    }
  }

  lemma ForgetDoomed(s: Client, v: Var)
    requires Meeting(s.handles) && (Chain(s, v) == [] || Shared(s, v, Chain(s, v)[0].serial)) && Doomed(s)
    ensures Doomed(s.(handles := s.handles - {v}))
  {
    var t := s.(handles := s.handles - {v});
    ForgetOn(s.handles, v);
    assert forall e :: Present(t, e) == Present(s, e);
    hide On, Meeting, Shared;
    if !s.undefined {
      if Missing(s) {
        var w, k: nat :| On(s.handles, w, k) && !Present(s, s.handles[w][k].entry);
        var x, m := Elsewhere(s, v, w, k);
        assert On(t.handles, x, m) && !Present(t, t.handles[x][m].entry);
      } else {
        var a, i: nat, b, j: nat :| On(s.handles, a, i) && On(s.handles, b, j)
          && s.handles[a][i].entry == s.handles[b][j].entry && s.handles[a][i].serial != s.handles[b][j].serial;
        var x, m := Elsewhere(s, v, a, i);
        var y, n := Elsewhere(s, v, b, j);
        assert On(t.handles, x, m) && On(t.handles, y, n);
      }
    }
  }

  lemma ForgetMeeting(handles: map<Var, seq<Link>>, v: Var)
    requires Meeting(handles)
    ensures Meeting(handles - {v})
  {
    ForgetOn(handles, v);
  }

  lemma {:induction false} ReleaseDoomed(s: Client, v: Var)
    requires Meeting(s.handles) && Doomed(s)
    ensures Meeting(Release(s, v).handles) && Doomed(Release(s, v))
    decreases |Chain(s, v)|
  {
    hide Meeting, Doomed, Shared;
    if Chain(s, v) == [] || Shared(s, v, Chain(s, v)[0].serial) {
      ForgetDoomed(s, v);
      ForgetMeeting(s.handles, v);
    } else {
      DropDoomed(s, v);
      DropMeeting(s.handles, v);
      ReleaseDoomed(DropFirst(s, v), v);
    }
  }

  /** With nothing left to release, what was to happen has happened. */
  lemma AllReleased(s: Client)
    requires Doomed(s) && s.handles == map[]
    ensures s.undefined
  {
  }

  // The careless operations -----------------------------------------------------------------------------

  lemma SecondSubscriptionDooms(s: Client, v: Var, id: int, callback: Callback)
    requires OwnOk(s) && v != Temp && id in s.subscriptions
    ensures var t := Subscribe(s, v, id, callback); Meeting(t.handles) && Doomed(t) && Temp !in t.handles
  {
    var e := Subscription(id);
    var link := NewLink(s, e);
    var u := s.(nextSerial := s.nextSerial + 1, handles := s.handles[Temp := Chain(s, v)][v := [link]]);
    assert Subscribe(s, v, id, callback) == Release(u, Temp);
    SecondLinkMeeting(s, v, link);
    assert Present(s, e);
    var w, j: nat :| On(s.handles, w, j) && s.handles[w][j].entry == e;
    assert s.handles[w][j].serial < link.serial;
    var x := if w == v then Temp else w;
    assert On(u.handles, x, j) && u.handles[x][j] == s.handles[w][j];
    assert On(u.handles, v, 0) && u.handles[v][0] == link;
    assert !Disjoint(u.handles);
    ReleaseDoomed(u, Temp);
    ReleaseFrame(u, Temp);
  }

  /** Fresh links in front of one chain. */
  lemma PrependMeeting(
    handles: map<Var, seq<Link>>, other: map<Var, seq<Link>>, v: Var, links: seq<Link>, nextSerial: nat)
    requires Meeting(handles) && Serials(handles, nextSerial)
    requires forall i :: 0 <= i < |links| ==> links[i].serial >= nextSerial
    requires forall i, j :: 0 <= i < j < |links| ==> links[i].serial != links[j].serial
    requires forall w, k: nat :: On(other, w, k) ==>
      if w == v && k < |links| then other[w][k] == links[k]
      else
        var m := if w == v then k - |links| else k;
        On(handles, w, m) && other[w][k..] == handles[w][m..] && other[w][k] == handles[w][m]
    ensures Meeting(other)
  {
  }

  lemma LinkAt(serial: nat, token: nat, callbacks: seq<(int, Callback)>, n: nat, i: nat)
    requires i < n <= |callbacks|
    ensures RequestLinks(serial, token, callbacks, n)[i].serial == serial + n - 1 - i
  {
    var k := n - 1 - i;
    assert RequestLinks(serial, token, callbacks, n)[n - 1 - k] == Link(serial + k, Response(callbacks[k].0, token));
  }

  lemma RegisterMeeting(s: Client, v: Var, token: nat, callbacks: seq<(int, Callback)>)
    requires Meeting(s.handles) && Serials(s.handles, s.nextSerial) && Temp !in s.handles && v != Temp
    ensures Meeting(Register(s, v, token, callbacks, |callbacks|).handles)
  {
    hide Register, RequestLinks, Meeting;
    var n := |callbacks|;
    var t, links := Register(s, v, token, callbacks, n), RequestLinks(s.nextSerial, token, callbacks, n);
    RegisterChains(s, v, token, callbacks, n);
    forall i | 0 <= i < n
      ensures links[i].serial == s.nextSerial + n - 1 - i
    {
      LinkAt(s.nextSerial, token, callbacks, n, i);
    }
    forall w, k: nat | On(t.handles, w, k)
      ensures if w == v && k < n then t.handles[w][k] == links[k]
        else
          var m := if w == v then k - n else k;
          On(s.handles, w, m) && t.handles[w][k..] == s.handles[w][m..] && t.handles[w][k] == s.handles[w][m]
    {
      assert Chain(t, w) == if w == v then links + Chain(s, v) else Chain(s, w);
    }
    PrependMeeting(s.handles, t.handles, v, links, s.nextSerial);
  }

  lemma RepeatedIdDooms(s: Client, v: Var, id: int, payload: Payload, callbacks: seq<(int, Callback)>)
    requires OwnOk(s) && v != Temp && !DistinctIds(callbacks)
    ensures var t := RequestMany(s, v, id, payload, callbacks); Meeting(t.handles) && Doomed(t) && Temp !in t.handles
  {
    hide Register, RequestLinks, Meeting, Exact, Serials;
    var u, n := s.(token := s.token + 1), |callbacks|;
    RegisterChains(u, v, s.token, callbacks, n);
    RegisterMeeting(u, v, s.token, callbacks);
    var t := Register(u, v, s.token, callbacks, n);
    var i, j :| 0 <= i < j < n && callbacks[i].0 == callbacks[j].0;
    assert On(t.handles, v, n - 1 - i) && On(t.handles, v, n - 1 - j);
    assert !Disjoint(t.handles);
  }
}
