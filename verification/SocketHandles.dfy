/**
 Socket handles: objects that own a descriptor, pass it on when copied, and close it when reset or destroyed.
 The value 0 stands for no descriptor.
 */
module SocketHandles {

  /**
   The descriptors the process has open, the values of the living handles, and whether a descriptor was closed that
   was not open.
   */
  datatype State = State(open: set<int>, handles: map<nat, int>, badClose: bool)

  datatype Action =
    | Opens(fd: int)
    | Constructs(handle: nat, s: int)
    | Transfers(from: nat, to: nat)
    | Resets(handle: nat)
    | ResetsTo(handle: nat, s: int)
    | Destroys(handle: nat)

  predicate Enabled(s: State, a: Action)
  {
    match a
    case Opens(fd) => fd != -1 && fd !in s.open
    case Constructs(h, _) => h !in s.handles
    case Transfers(from, to) => from in s.handles && to !in s.handles
    case Resets(h) => h in s.handles
    case ResetsTo(h, _) => h in s.handles
    case Destroys(h) => h in s.handles
  }

  /** `reset()`: closes what the handle owns. */
  function Reset(s: State, h: nat): State
    requires h in s.handles
  {
    var fd := s.handles[h];
    if fd == 0 then s
    else State(s.open - {fd}, s.handles[h := 0], s.badClose || fd !in s.open)
  }

  /** `reset(int)`, which throws for -1 before it touches anything. */
  function ResetTo(s: State, h: nat, fd: int): State
    requires h in s.handles
  {
    if fd == -1 then s
    else
      var t := Reset(s, h);
      t.(handles := t.handles[h := fd])
  }

  function Step(s: State, a: Action): State
    requires Enabled(s, a)
  {
    match a
    case Opens(fd) => s.(open := s.open + {fd})
    case Constructs(h, fd) => if fd == -1 then s else ResetTo(s.(handles := s.handles[h := 0]), h, fd)
    case Transfers(from, to) => s.(handles := s.handles[to := s.handles[from]][from := 0])
    case Resets(h) => Reset(s, h)
    case ResetsTo(h, fd) => ResetTo(s, h, fd)
    case Destroys(h) =>
      var t := Reset(s, h);
      t.(handles := t.handles - {h})
  }

  function Exec(s: State, run: seq<Action>): State
    decreases |run|
  {
    if run == [] then s
    else
      var t := Exec(s, run[..|run| - 1]);
      if Enabled(t, run[|run| - 1]) then Step(t, run[|run| - 1]) else t
  }

  /** Every descriptor a handle holds is open and its own; nothing was closed twice. */
  ghost predicate Owned(s: State)
  {
    && !s.badClose
    && (forall h :: h in s.handles && s.handles[h] != 0 ==> s.handles[h] in s.open)
    && forall g, h :: g in s.handles && h in s.handles && g != h && s.handles[g] != 0 ==> s.handles[g] != s.handles[h]
  }

  predicate Holds(s: State, fd: int)
  {
    exists h :: h in s.handles && s.handles[h] == fd
  }

  /** A descriptor handed to a handle is none at all, or an open one that no handle has. */
  predicate Fresh(s: State, fd: int)
  {
    fd == -1 || fd == 0 || (fd in s.open && !Holds(s, fd))
  }

  predicate Proper(s: State, a: Action)
  {
    match a
    case Constructs(_, fd) => Fresh(s, fd)
    case ResetsTo(_, fd) => Fresh(s, fd)
    case _ => true
  }

  /** A step keeps single ownership exactly when what it hands to a handle is fresh. */
  lemma OwnershipExactly(s: State, a: Action)
    requires Owned(s) && Enabled(s, a)
    ensures Owned(Step(s, a)) <==> Proper(s, a)
  {
    var t := Step(s, a);
    match a
    case Constructs(h, fd) =>
      if !Fresh(s, fd) {
        NotFresh(s, t, h, fd);
      }
    case ResetsTo(h, fd) =>
      if !Fresh(s, fd) {
        NotFresh(s, t, h, fd);
      }
    case _ =>
  }

  lemma NotFresh(s: State, t: State, h: nat, fd: int)
    requires Owned(s) && !Fresh(s, fd) && h in t.handles && t.handles[h] == fd
    requires forall g :: g in s.handles && g != h ==> g in t.handles && t.handles[g] == s.handles[g]
    requires t.open == if h in s.handles && s.handles[h] != 0 then s.open - {s.handles[h]} else s.open
    ensures !Owned(t)
  {
    if fd in s.open {
      var g :| g in s.handles && s.handles[g] == fd;
      if g != h {
        assert t.handles[g] == t.handles[h];
      }
    }
  }

  /** A transfer moves the descriptor: the new handle holds what the old one did, which holds none; nothing else changes. */
  lemma TransferMoves(s: State, from: nat, to: nat)
    requires Enabled(s, Transfers(from, to))
    ensures var t := Step(s, Transfers(from, to));
      && t.open == s.open && t.handles.Keys == s.handles.Keys + {to}
      && t.handles[to] == s.handles[from] && t.handles[from] == 0
      && forall h :: h in s.handles && h != from ==> t.handles[h] == s.handles[h]
  {
  }

  /** A step loses no descriptor: one that a handle held is held afterwards, by some handle, exactly if it is still open. */
  lemma NoneLost(s: State, a: Action, fd: int)
    requires Owned(s) && Enabled(s, a) && Proper(s, a) && fd != 0 && Holds(s, fd)
    ensures Holds(Step(s, a), fd) <==> fd in Step(s, a).open
  {
    OwnershipExactly(s, a);
    var t := Step(s, a);
    var h :| h in s.handles && s.handles[h] == fd;
    if fd in t.open {
      var k := if a.Transfers? && a.from == h then a.to else h;
      assert k in t.handles && t.handles[k] == fd;
    }
  }

  predicate AllProper(s: State, run: seq<Action>)
    decreases |run|
  {
    run != [] ==> AllProper(s, run[..|run| - 1]) && Proper(Exec(s, run[..|run| - 1]), run[|run| - 1])
  }

  /** What a step closes: the descriptor the handle reset or destroyed held. */
  function Closes(s: State, a: Action): set<int>
    requires Enabled(s, a)
  {
    match a
    case Resets(h) => {s.handles[h]} - {0}
    case Destroys(h) => {s.handles[h]} - {0}
    case ResetsTo(h, fd) => if fd == -1 then {} else {s.handles[h]} - {0}
    case _ => {}
  }

  /**
   Over any run that hands out fresh descriptors only: each has at most one owner, none is closed unless it is open,
   and a step closes exactly what the handle it resets or destroys owned, leaving all other descriptors open.
   */
  lemma {:induction false} EachClosedOnce(s: State, run: seq<Action>, a: Action)
    requires Owned(s) && AllProper(s, run)
    ensures Owned(Exec(s, run))
    ensures var t := Exec(s, run); Enabled(t, a) && !a.Opens? ==>
      Closes(t, a) <= t.open && Step(t, a).open == t.open - Closes(t, a)
    decreases |run|
  {
    hide Owned, Proper, Step, Closes, Enabled;
    if run != [] {
      var t, b := Exec(s, run[..|run| - 1]), run[|run| - 1];
      EachClosedOnce(s, run[..|run| - 1], b);
      if Enabled(t, b) {
        OwnershipExactly(t, b);
      }
    }
    if Enabled(Exec(s, run), a) && !a.Opens? {
      ClosesOwn(Exec(s, run), a);
    }
  }

  lemma ClosesOwn(s: State, a: Action)
    requires Owned(s) && Enabled(s, a) && !a.Opens?
    ensures Closes(s, a) <= s.open && Step(s, a).open == s.open - Closes(s, a)
  {
  }

  /** A handle that was reset may be reset again or destroyed: neither closes anything more. */
  lemma ResetOnce(s: State, h: nat)
    requires h in s.handles
    ensures Closes(Reset(s, h), Resets(h)) == Closes(Reset(s, h), Destroys(h)) == {}
    ensures var t := Reset(s, h); Reset(t, h) == t && Step(t, Destroys(h)) == t.(handles := s.handles - {h})
  {
    assert s.handles[h := 0] - {h} == s.handles - {h};
  }

  /** An open descriptor given to a handle is closed with it, unless it is 0, which counts as none. */
  lemma ClosedUnlessZero(s: State, h: nat, fd: int)
    requires h !in s.handles && fd in s.open && fd != -1
    ensures fd !in Exec(s, [Constructs(h, fd), Destroys(h)]).open <==> fd != 0
    ensures h !in Exec(s, [Constructs(h, fd), Destroys(h)]).handles
  {
    var run := [Constructs(h, fd), Destroys(h)];
    assert run[..1] == [Constructs(h, fd)];
    assert [Constructs(h, fd)][..0] == [] && Exec(s, []) == s;
    var t := Exec(s, [Constructs(h, fd)]);
    assert t == Step(s, Constructs(h, fd)) && t.handles[h] == fd;
  }

  /** Descriptor 0 counts as none: a handle given it does not close it. */
  lemma ZeroIsNeverClosed(s: State, h: nat)
    requires h !in s.handles && 0 in s.open
    ensures 0 in Exec(s, [Constructs(h, 0), Destroys(h)]).open && h !in Exec(s, [Constructs(h, 0), Destroys(h)]).handles
  {
    ClosedUnlessZero(s, h, 0);
  }

  // The objects -----------------------------------------------------------------------------------------

  class Kernel {
    var open: set<int>
    var badClose: bool

    constructor ()
      ensures open == {} && !badClose
    {
      open := {};
      badClose := false;
    }

    method Close(fd: int)
      modifies this
      ensures open == old(open) - {fd} && badClose == (old(badClose) || fd !in old(open))
    {
      badClose := badClose || fd !in open;
      open := open - {fd};
    }
  }

  class SocketHandle {
    const kernel: Kernel
    var socket: int

    /** The handle and the process, as the single handle of a state. */
    function View(): State
      reads this, kernel
    {
      State(kernel.open, map[0 := socket], kernel.badClose)
    }

    /** The member initialiser; the constructor from a number resets to it next. */
    constructor (kernel: Kernel)
      ensures this.kernel == kernel && socket == 0
    {
      this.kernel := kernel;
      socket := 0;
    }

    /** The copy constructor takes the descriptor away from the other handle. */
    constructor Take(other: SocketHandle)
      modifies other`socket
      ensures kernel == other.kernel && socket == old(other.socket) && other.socket == 0
    {
      kernel := other.kernel;
      socket := other.socket;
      new;
      other.socket := 0;
    }

    method Release()
      modifies this`socket, kernel
      ensures View() == Reset(old(View()), 0)
      ensures socket == 0 && (old(socket) != 0 ==> old(socket) !in kernel.open)
      ensures forall fd :: fd != old(socket) || fd == 0 ==> (fd in kernel.open <==> fd in old(kernel.open))
    {
      if socket != 0 {
        kernel.Close(socket);
      }
      socket := 0;
    }

    method Assign(s: int) returns (threw: bool)
      modifies this`socket, kernel
      ensures View() == ResetTo(old(View()), 0, s)
      ensures threw <==> s == -1
    {
      if s == -1 {
        return true;
      }
      Release();
      socket := s;
      return false;
    }
  }
}
