/**
 * The watch list and the loop flag of the event loop (src/iopoll.rs,
 * `EventLoop` without `run`, and the default `EventHandler::not_valid`).
 *
 * The list of `pollfd` records is a sequence that the methods reassign; the
 * `poll` system call itself is not part of this module (see EventRun).
 */
module IoPoll {
  import opened Common
  import opened EventSets

  /** The `poll` timeout that waits without limit. */
  const TIMEOUT_INFINITE: int := -1

  /** The largest value of a C `int` (`i32::MAX`). */
  const I32_MAX: int := 0x7FFF_FFFF

  /** Rust's `u32`. */
  type U32 = x: int | 0 <= x < 0x1_0000_0000

  /** The descriptor of standard input. */
  const STDIN_FD: int := 0

  /** Identifies the stream a callback is about: the descriptor number. */
  datatype Token = Token(fd: int)

  /** What `run` returns: `Ok(())` or an error. */
  datatype RunResult = RunOk | RunErr

  /** One watch-list entry: a descriptor, the conditions asked for, the conditions reported. */
  datatype PollFd = PollFd(fd: int, events: EventSet, revents: EventSet)

  /** The descriptors of the watch list, in list order. */
  function Fds(l: seq<PollFd>): (r: seq<int>)
    ensures |r| == |l|
    ensures forall i :: 0 <= i < |l| ==> r[i] == l[i].fd
  {
    seq(|l|, i requires 0 <= i < |l| => l[i].fd)
  }

  predicate Registered(l: seq<PollFd>, fd: int) {
    fd in Fds(l)
  }

  /** No descriptor is watched twice. */
  predicate Distinct(l: seq<PollFd>) {
    forall i, j :: 0 <= i < j < |l| ==> l[i].fd != l[j].fd
  }

  /** The index of the first entry for `fd`, if any (`iter().position`). */
  function IndexOf(l: seq<PollFd>, fd: int): (r: Option<nat>)
    ensures r.None? <==> !Registered(l, fd)
    ensures r.Some? ==> r.value < |l| && l[r.value].fd == fd
    ensures r.Some? ==> forall i :: 0 <= i < r.value ==> l[i].fd != fd
  {
    if l == [] then None
    else if l[0].fd == fd then Some(0)
    else
      match IndexOf(l[1..], fd)
      case None => None
      case Some(i) => Some(i + 1)
  }

  /** The list with its first entry for `fd` taken out, or unchanged when there is none. */
  function Without(l: seq<PollFd>, fd: int): seq<PollFd> {
    match IndexOf(l, fd)
    case None => l
    case Some(i) => l[..i] + l[i + 1..]
  }

  /**
   * Removal takes out one entry, the first for `fd`, and keeps the others in
   * their order; with no entry for `fd` the list is unchanged.
   */
  lemma {:induction false} WithoutAt(l: seq<PollFd>, fd: int)
    ensures !Registered(l, fd) ==> Without(l, fd) == l
    ensures Registered(l, fd) ==> |Without(l, fd)| == |l| - 1
    ensures Registered(l, fd) ==> forall k :: 0 <= k < |l| - 1 ==>
      Without(l, fd)[k] == if k < IndexOf(l, fd).value then l[k] else l[k + 1]
  {
    match IndexOf(l, fd)
    case None =>
    case Some(i) =>
      SpliceAt(l, i);
  }

  /** Cutting out entry `i` shifts the entries after it down by one. */
  lemma {:induction false} SpliceAt(l: seq<PollFd>, i: nat)
    requires i < |l|
    ensures |l[..i] + l[i + 1..]| == |l| - 1
    ensures forall k :: 0 <= k < |l| - 1 ==> (l[..i] + l[i + 1..])[k] == if k < i then l[k] else l[k + 1]
  {
    var w := l[..i] + l[i + 1..];
    forall k | 0 <= k < |l| - 1
      ensures w[k] == if k < i then l[k] else l[k + 1]
    {
      if k < i {
        assert w[k] == l[..i][k];
      } else {
        assert w[k] == l[i + 1..][k - i];
      }
    }
  }

  /** Removal registers nothing new. */
  lemma {:induction false} WithoutAddsNothing(l: seq<PollFd>, fd: int, g: int)
    requires Registered(Without(l, fd), g)
    ensures Registered(l, g)
  {
    WithoutAt(l, fd);
    var w := Without(l, fd);
    var k :| 0 <= k < |w| && Fds(w)[k] == g;
    if Registered(l, fd) {
      assert Fds(l)[if k < IndexOf(l, fd).value then k else k + 1] == g;
    }
  }

  /** Removing a descriptor keeps every other registered descriptor registered, repeats or not. */
  lemma {:induction false} WithoutKeepsOthers(l: seq<PollFd>, fd: int, g: int)
    requires g != fd && Registered(l, g)
    ensures Registered(Without(l, fd), g)
  {
    WithoutAt(l, fd);
    if Registered(l, fd) {
      var i := IndexOf(l, fd).value;
      var k :| 0 <= k < |l| && Fds(l)[k] == g;
      assert k != i;
      assert Fds(Without(l, fd))[if k < i then k else k - 1] == g;
    }
  }

  /** On a list without repeats, removal keeps the list free of repeats and leaves no entry for `fd`. */
  lemma {:induction false} WithoutOnDistinct(l: seq<PollFd>, fd: int)
    requires Distinct(l)
    ensures Distinct(Without(l, fd))
    ensures !Registered(Without(l, fd), fd)
  {
    WithoutAt(l, fd);
    var w := Without(l, fd);
  }

  /** Registering a descriptor that was not watched and then unregistering it restores the list. */
  lemma RegisterThenUnregister(l: seq<PollFd>, e: PollFd)
    requires !Registered(l, e.fd)
    ensures Without(l + [e], e.fd) == l
  {
    var l' := l + [e];
    assert Fds(l')[|l|] == e.fd;
    var i := IndexOf(l', e.fd).value;
    assert l'[..|l|] == l;
  }

  /**
   * The stored `poll` timeout: -1 without a value, the value itself when a
   * C `int` holds it, and `None` (the conversion panics) otherwise.
   */
  function TimeoutFrom(t: Option<U32>): (r: Option<int>)
    ensures t.None? ==> r == Some(TIMEOUT_INFINITE)
    ensures t.Some? ==> (r.Some? <==> t.value <= I32_MAX)
    ensures r.Some? && t.Some? ==> r.value == t.value
    ensures r.Some? ==> TIMEOUT_INFINITE <= r.value <= I32_MAX
  {
    match t
    case None => Some(TIMEOUT_INFINITE)
    case Some(v) => if v <= I32_MAX then Some(v) else None
  }

  class EventLoop {
    /** The watched descriptors, handed to `poll` in this order. */
    var pollfds: seq<PollFd>
    /** Milliseconds `poll` waits; -1 waits without limit. */
    const timeout: int
    /** Set by `run`, cleared by `Shutdown`; `run` stops when it finds it clear. */
    var active: bool

    /** A loop with the timeout given by `t`; a value over `i32::MAX` panics, so it is excluded. */
    constructor NewWithTimeout(t: Option<U32>)
      requires TimeoutFrom(t).Some?
      ensures pollfds == [] && !active
      ensures timeout == TimeoutFrom(t).value
    {
      pollfds := [];
      active := false;
      timeout := TimeoutFrom(t).value;
    }

    /** A loop that waits without limit. */
    constructor New()
      ensures pollfds == [] && !active
      ensures timeout == TIMEOUT_INFINITE
    {
      pollfds := [];
      active := false;
      timeout := TimeoutFrom(None).value;
    }

    function IsActive(): bool
      reads this
    {
      active
    }

    method Shutdown()
      modifies this
      ensures !active
      ensures pollfds == old(pollfds)
    {
      active := false;
    }

    /** The index of the first entry for `fd`, found by a scan from the front. */
    method Position(fd: int) returns (r: Option<nat>)
      ensures r == IndexOf(pollfds, fd)
    {
      var i := 0;
      while i < |pollfds|
        invariant i <= |pollfds|
        invariant forall j :: 0 <= j < i ==> pollfds[j].fd != fd
      {
        if pollfds[i].fd == fd {
          return Some(i);
        }
        i := i + 1;
      }
      return None;
    }

    /** Removes the first entry for `fd`; the source panics when there is none, so that is excluded. */
    method RemoveFd(fd: int)
      requires Registered(pollfds, fd)
      modifies this
      ensures pollfds == Without(old(pollfds), fd)
      ensures active == old(active)
    {
      var found := Position(fd);
      match found
      case Some(index) =>
        pollfds := pollfds[..index] + pollfds[index + 1..];
      case None =>
        assert false;
    }

    /** Appends one entry for `fd` with interest `es` and nothing reported yet. */
    method RegisterFd(fd: int, es: EventSet)
      modifies this
      ensures pollfds == old(pollfds) + [PollFd(fd, es, Empty())]
      ensures active == old(active)
    {
      pollfds := pollfds + [PollFd(fd, es, Empty())];
    }

    /** Removes the first entry for `fd`, if there is one. */
    method UnregisterFd(fd: int)
      modifies this
      ensures pollfds == Without(old(pollfds), fd)
      ensures active == old(active)
    {
      var found := Position(fd);
      if found.Some? {
        var index := found.value;
        pollfds := pollfds[..index] + pollfds[index + 1..];
      }
    }

    /** Watches standard input for reading; its token is always `Token(0)`. */
    method RegisterStdin() returns (t: Token)
      modifies this
      ensures t == Token(STDIN_FD)
      ensures pollfds == old(pollfds) + [PollFd(STDIN_FD, ReadInterest(), Empty())]
      ensures active == old(active)
    {
      RegisterFd(STDIN_FD, ReadInterest());
      t := Token(0);
    }

    method UnregisterStdin()
      modifies this
      ensures pollfds == Without(old(pollfds), STDIN_FD)
      ensures active == old(active)
    {
      UnregisterFd(0);
    }

    /** Watches `fd` for reading; the token is the descriptor. */
    method RegisterRead(fd: int) returns (t: Token)
      modifies this
      ensures t == Token(fd)
      ensures pollfds == old(pollfds) + [PollFd(fd, ReadInterest(), Empty())]
      ensures active == old(active)
    {
      RegisterFd(fd, ReadInterest());
      t := Token(fd);
    }

    /** Watches `fd` for writing; the token is the descriptor. */
    method RegisterWrite(fd: int) returns (t: Token)
      modifies this
      ensures t == Token(fd)
      ensures pollfds == old(pollfds) + [PollFd(fd, WriteInterest(), Empty())]
      ensures active == old(active)
    {
      RegisterFd(fd, WriteInterest());
      t := Token(fd);
    }
  }

  /**
   * The default `not_valid` callback: removes the descriptor with the strict
   * `remove_fd`, so the descriptor must still be watched.
   */
  method DefaultNotValid(el: EventLoop, token: Token)
    requires Registered(el.pollfds, token.fd)
    modifies el
    ensures el.pollfds == Without(old(el.pollfds), token.fd)
    ensures el.active == old(el.active)
  {
    el.RemoveFd(token.fd);
  }
}
