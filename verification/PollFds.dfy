/**
 * The pollfd array of channels.c: descriptors of all channels are packed into one array before
 * poll(2) and the answers are handed back to each channel afterwards.
 */
module PollFds {
  import opened Octets

  /** The SSH_CHAN_IO flags, wanted before the poll and ready after it. */
  datatype Io = Io(rfd: bool, wfd: bool, efdR: bool, efdW: bool, sockR: bool, sockW: bool)

  /** Descriptors are -1 when closed. */
  datatype Chan = Chan(rfd: int, wfd: int, efd: int, sock: int, want: Io)

  datatype Entry = Entry(fd: int, pollin: bool, pollout: bool)

  /** revents; `gone` stands for POLLHUP or POLLERR. */
  datatype Answer = Answer(pollin: bool, pollout: bool, gone: bool)

  /** The four indices c->pfds; -1 when nothing was armed. */
  datatype Index = Index(rfd: int, wfd: int, efd: int, sock: int)

  // ---- packing

  /** What is armed on the read descriptor, which may also be one of the other three. */
  function RfdEntry(c: Chan): Entry {
    Entry(c.rfd,
          || c.want.rfd
          || (c.efd == c.rfd && c.want.efdR)
          || (c.sock == c.rfd && c.want.sockR),
          || (c.wfd == c.rfd && c.want.wfd)
          || (c.efd == c.rfd && c.want.efdW)
          || (c.sock == c.rfd && c.want.sockW))
  }

  function Armed(fd: int, pollin: bool, pollout: bool, e: Entry): seq<Entry> {
    if fd != -1 && (pollin || pollout) then [e] else []
  }

  function RfdEntries(c: Chan): seq<Entry> { Armed(c.rfd, RfdEntry(c).pollin, RfdEntry(c).pollout, RfdEntry(c)) }

  function WfdEntries(c: Chan): seq<Entry> {
    if c.wfd == c.rfd then [] else Armed(c.wfd, false, c.want.wfd, Entry(c.wfd, false, true))
  }

  function EfdEntries(c: Chan): seq<Entry> {
    if c.efd == c.rfd then [] else Armed(c.efd, c.want.efdR, c.want.efdW, Entry(c.efd, c.want.efdR, c.want.efdW))
  }

  /** A socket of its own is entered with no events. */
  function SockEntries(c: Chan): seq<Entry> {
    if c.sock == c.rfd then [] else Armed(c.sock, c.want.sockR, c.want.sockW, Entry(c.sock, false, false))
  }

  function Entries(c: Chan): seq<Entry> { RfdEntries(c) + WfdEntries(c) + EfdEntries(c) + SockEntries(c) }

  function At(es: seq<Entry>, p: int): int { if es == [] then -1 else p }

  /** channel_prepare_pollfd for a channel whose entries start at p. */
  function IndexOf(c: Chan, p: nat): Index {
    var (r, w, e, s) := (RfdEntries(c), WfdEntries(c), EfdEntries(c), SockEntries(c));
    Index(At(r, p), At(w, p + |r|), At(e, p + |r| + |w|), At(s, p + |r| + |w| + |e|))
  }

  type Slots = seq<Option<Chan>>

  function SlotEntries(c: Option<Chan>): (es: seq<Entry>)
    ensures |es| <= 4
  {
    if c == None then [] else Entries(c.value)
  }

  function SlotIndex(c: Option<Chan>, p: nat): Index {
    if c == None then Index(-1, -1, -1, -1) else IndexOf(c.value, p)
  }

  datatype Packing = Packing(pfds: seq<Entry>, index: seq<Index>)

  /** The whole table, behind the reserved entries. */
  function Packed(reserved: seq<Entry>, cs: Slots): (k: Packing)
    ensures |k.index| == |cs| && |reserved| <= |k.pfds| <= |reserved| + 4 * |cs|
  {
    if cs == [] then Packing(reserved, [])
    else
      var k := Packed(reserved, cs[..|cs| - 1]);
      var c := cs[|cs| - 1];
      Packing(k.pfds + SlotEntries(c), k.index + [SlotIndex(c, |k.pfds|)])
  }

  ghost predicate LiesAt(pfds: seq<Entry>, p: nat, mine: seq<Entry>) {
    p + |mine| <= |pfds| && pfds[p..p + |mine|] == mine
  }

  lemma LiesInLonger(a: seq<Entry>, b: seq<Entry>, p: nat, mine: seq<Entry>)
    requires LiesAt(a, p, mine)
    ensures LiesAt(a + b, p, mine)
  {
    assert (a + b)[p..p + |mine|] == a[p..p + |mine|];
  }

  lemma LiesAtEnd(a: seq<Entry>, mine: seq<Entry>)
    ensures LiesAt(a + mine, |a|, mine)
  {
  }

  /** The entries of slot i lie together, at the place its index was made for. */
  lemma {:induction false} OwnEntries(reserved: seq<Entry>, cs: Slots, i: nat) returns (p: nat)
    requires i < |cs|
    ensures LiesAt(Packed(reserved, cs).pfds, p, SlotEntries(cs[i]))
    ensures Packed(reserved, cs).index[i] == SlotIndex(cs[i], p)
  {
    var (init, c) := (cs[..|cs| - 1], cs[|cs| - 1]);
    var k := Packed(reserved, init);
    if i == |cs| - 1 {
      p := |k.pfds|;
      LiesAtEnd(k.pfds, SlotEntries(c));
    } else {
      p := OwnEntries(reserved, init, i);
      LiesInLonger(k.pfds, SlotEntries(c), p, SlotEntries(cs[i]));
    }
  }

  // ---- the answers

  /** What the kernel knows of a descriptor. */
  datatype Status = Status(readable: bool, writable: bool, gone: bool)

  function Reply(e: Entry, s: Status): Answer {
    Answer(e.pollin && s.readable, e.pollout && s.writable, s.gone)
  }

  function Replies(es: seq<Entry>, st: int -> Status): (r: seq<Answer>)
    ensures |r| == |es|
  {
    seq(|es|, i requires 0 <= i < |es| => Reply(es[i], st(es[i].fd)))
  }

  /** fd_ready: None is its fatal exit. */
  function FdReady(pfds: seq<Entry>, revents: seq<Answer>, p: int, fd: int): Option<Answer>
    requires |pfds| == |revents|
  {
    if fd == -1 then Some(Answer(false, false, false))
    else if !(0 <= p < |pfds|) || pfds[p].fd != fd then None
    else Some(revents[p])
  }

  predicate In(a: Answer) { a.pollin || a.gone }
  predicate Out(a: Answer) { a.pollout || a.gone }

  /** The fatal test of channel_after_poll. */
  predicate SaneFds(c: Chan) {
    !(c.rfd != -1 && c.wfd != -1 && c.rfd != c.wfd && (c.rfd == c.efd || c.rfd == c.sock))
  }

  const Nothing: Answer := Answer(false, false, false)

  /** The answer found through an index, where -1 means that nothing was armed. */
  function Found(pfds: seq<Entry>, revents: seq<Answer>, p: int, fd: int): Option<Answer>
    requires |pfds| == |revents|
  {
    if fd == -1 || p == -1 then Some(Nothing) else FdReady(pfds, revents, p, fd)
  }

  /** The flags made of the answers for the four descriptors. */
  function Flags(want: Io, r: Answer, w: Answer, e: Answer, s: Answer): Io {
    Io(In(r) && want.rfd, Out(w) && want.wfd, In(e) && want.efdR, Out(e) && want.efdW,
       In(s) && want.sockR, Out(s) && want.sockW)
  }

  /** channel_after_poll for one channel. */
  function Ready(c: Chan, x: Index, pfds: seq<Entry>, revents: seq<Answer>): Option<Io>
    requires |pfds| == |revents|
  {
    if !SaneFds(c) then None
    else
      var r := Found(pfds, revents, x.rfd, c.rfd);
      var w := if c.wfd == c.rfd then r else Found(pfds, revents, x.wfd, c.wfd);
      var e := if c.efd == c.rfd then r else Found(pfds, revents, x.efd, c.efd);
      var s := if c.sock == c.rfd then r else Found(pfds, revents, x.sock, c.sock);
      if r == None || w == None || e == None || s == None then None
      else Some(Flags(c.want, r.value, w.value, e.value, s.value))
  }

  /** What the channel asked for: each flag it wants, if the kernel says so of its descriptor. */
  function Wanted(c: Chan, st: int -> Status): Io {
    Io(c.want.rfd && CanRead(c.rfd, st), c.want.wfd && CanWrite(c.wfd, st),
       c.want.efdR && CanRead(c.efd, st), c.want.efdW && CanWrite(c.efd, st),
       c.want.sockR && CanRead(c.sock, st), c.want.sockW && CanWrite(c.sock, st))
  }

  predicate CanRead(fd: int, st: int -> Status) { fd != -1 && (st(fd).readable || st(fd).gone) }
  predicate CanWrite(fd: int, st: int -> Status) { fd != -1 && (st(fd).writable || st(fd).gone) }

  /** The socket is not polled, or it is the read descriptor. */
  predicate SockShared(c: Chan) { c.sock == -1 || c.sock == c.rfd || !(c.want.sockR || c.want.sockW) }

  /** What the channel gets: a socket with an entry of its own is only noticed once it is gone. */
  function Delivered(c: Chan, st: int -> Status): Io {
    var gone := c.sock != -1 && st(c.sock).gone;
    if SockShared(c) then Wanted(c, st) else Wanted(c, st).(sockR := c.want.sockR && gone, sockW := c.want.sockW && gone)
  }

  lemma DeliveredExactly(c: Chan)
    ensures (forall st :: Delivered(c, st) == Wanted(c, st)) <==> SockShared(c)
  {
    if !SockShared(c) {
      var st := (fd: int) => Status(true, true, false);
      assert Delivered(c, st) != Wanted(c, st);
    }
  }

  /** A descriptor's own entry, found where the packing put it. */
  lemma FoundHere(es: seq<Entry>, mine: seq<Entry>, off: nat, k: nat, st: int -> Status)
    requires off + |mine| <= |es| && es[off..off + |mine|] == mine && k < |mine| && mine[k].fd != -1
    ensures Found(es, Replies(es, st), off + k, mine[k].fd) == Some(Reply(mine[k], st(mine[k].fd)))
  {
    assert es[off + k] == es[off..off + |mine|][k];
  }

  function Got(b: seq<Entry>, s: Status): Answer { if b == [] then Nothing else Reply(b[0], s) }

  lemma OneFound(es: seq<Entry>, all: seq<Entry>, off: nat, a: seq<Entry>, b: seq<Entry>, d: seq<Entry>, fd: int,
                 st: int -> Status)
    requires all == a + b + d && LiesAt(es, off, all)
    requires Group(b, fd)
    ensures Found(es, Replies(es, st), At(b, off + |a|), fd) == Some(Got(b, st(fd)))
  {
    if b != [] {
      assert all[|a|] == b[0];
      FoundHere(es, all, off, |a|, st);
    }
  }

  /** The four groups of one channel, each found through its index. */
  lemma FourFound(es: seq<Entry>, off: nat, r: seq<Entry>, w: seq<Entry>, e: seq<Entry>, s: seq<Entry>,
                  fds: Index, st: int -> Status)
    requires LiesAt(es, off, r + w + e + s)
    requires Group(r, fds.rfd) && Group(w, fds.wfd) && Group(e, fds.efd) && Group(s, fds.sock)
    ensures Found(es, Replies(es, st), At(r, off), fds.rfd) == Some(Got(r, st(fds.rfd)))
    ensures Found(es, Replies(es, st), At(w, off + |r|), fds.wfd) == Some(Got(w, st(fds.wfd)))
    ensures Found(es, Replies(es, st), At(e, off + |r| + |w|), fds.efd) == Some(Got(e, st(fds.efd)))
    ensures Found(es, Replies(es, st), At(s, off + |r| + |w| + |e|), fds.sock) == Some(Got(s, st(fds.sock)))
  {
    var all := r + w + e + s;
    Groups(r, w, e, s);
    OneFound(es, all, off, [], r, w + e + s, fds.rfd, st);
    OneFound(es, all, off, r, w, e + s, fds.wfd, st);
    OneFound(es, all, off, r + w, e, s, fds.efd, st);
    OneFound(es, all, off, r + w + e, s, [], fds.sock, st);
  }

  /** At most one entry, for that descriptor. */
  predicate Group(b: seq<Entry>, fd: int) { |b| <= 1 && (b != [] ==> b[0].fd == fd != -1) }

  lemma Groups(r: seq<Entry>, w: seq<Entry>, e: seq<Entry>, s: seq<Entry>)
    ensures var all := r + w + e + s;
      && all == [] + r + (w + e + s) && all == r + w + (e + s)
      && all == (r + w) + e + s && all == (r + w + e) + s + []
  {
  }

  /** The answer for a descriptor: its own, or that of the read descriptor it shares. */
  function AnswerFor(c: Chan, fd: int, own: seq<Entry>, st: int -> Status): Answer {
    if fd == c.rfd then Got(RfdEntries(c), st(c.rfd)) else Got(own, st(fd))
  }

  lemma FlagsAreDelivered(c: Chan, st: int -> Status)
    ensures Flags(c.want, Got(RfdEntries(c), st(c.rfd)), AnswerFor(c, c.wfd, WfdEntries(c), st),
                  AnswerFor(c, c.efd, EfdEntries(c), st), AnswerFor(c, c.sock, SockEntries(c), st)) == Delivered(c, st)
  {
  }

  /** A channel whose lookups succeed gets the flags of what they find. */
  lemma ReadyIs(c: Chan, x: Index, es: seq<Entry>, revents: seq<Answer>, r: Answer, w: Answer, e: Answer, s: Answer)
    requires |es| == |revents| && SaneFds(c)
    requires Found(es, revents, x.rfd, c.rfd) == Some(r)
    requires if c.wfd == c.rfd then w == r else Found(es, revents, x.wfd, c.wfd) == Some(w)
    requires if c.efd == c.rfd then e == r else Found(es, revents, x.efd, c.efd) == Some(e)
    requires if c.sock == c.rfd then s == r else Found(es, revents, x.sock, c.sock) == Some(s)
    ensures Ready(c, x, es, revents) == Some(Flags(c.want, r, w, e, s))
  {
  }

  lemma OwnFound(es: seq<Entry>, c: Chan, off: nat, st: int -> Status)
    requires LiesAt(es, off, Entries(c))
    ensures var (x, a) := (IndexOf(c, off), Replies(es, st));
      && Found(es, a, x.rfd, c.rfd) == Some(Got(RfdEntries(c), st(c.rfd)))
      && Found(es, a, x.wfd, c.wfd) == Some(Got(WfdEntries(c), st(c.wfd)))
      && Found(es, a, x.efd, c.efd) == Some(Got(EfdEntries(c), st(c.efd)))
      && Found(es, a, x.sock, c.sock) == Some(Got(SockEntries(c), st(c.sock)))
  {
    var (r, w, e, s) := (RfdEntries(c), WfdEntries(c), EfdEntries(c), SockEntries(c));
    FourFound(es, off, r, w, e, s, Index(c.rfd, c.wfd, c.efd, c.sock), st);
  }

  /** Packing, polling and unpacking gives a channel exactly the readiness of its own descriptors,
      and none of the consistency checks fails. */
  lemma GetsItsOwn(es: seq<Entry>, c: Chan, off: nat, st: int -> Status)
    requires SaneFds(c)
    requires LiesAt(es, off, Entries(c))
    ensures Ready(c, IndexOf(c, off), es, Replies(es, st)) == Some(Delivered(c, st))
  {
    OwnFound(es, c, off, st);
    ReadyIs(c, IndexOf(c, off), es, Replies(es, st), Got(RfdEntries(c), st(c.rfd)),
            AnswerFor(c, c.wfd, WfdEntries(c), st), AnswerFor(c, c.efd, EfdEntries(c), st),
            AnswerFor(c, c.sock, SockEntries(c), st));
    FlagsAreDelivered(c, st);
  }

  /** For the whole table, whatever the other channels have in the array: a channel gets exactly
      what it asked for under every answer of the kernel if and only if its socket is shared. */
  lemma PollIsLossless(reserved: seq<Entry>, cs: Slots, i: nat)
    requires i < |cs| && cs[i].Some? && SaneFds(cs[i].value)
    ensures var (c, k) := (cs[i].value, Packed(reserved, cs));
      && (forall st :: Ready(c, k.index[i], k.pfds, Replies(k.pfds, st)) == Some(Delivered(c, st)))
      && ((forall st :: Ready(c, k.index[i], k.pfds, Replies(k.pfds, st)) == Some(Wanted(c, st))) <==> SockShared(c))
  {
    var (c, k) := (cs[i].value, Packed(reserved, cs));
    var p := OwnEntries(reserved, cs, i);
    forall st: int -> Status
      ensures Ready(c, k.index[i], k.pfds, Replies(k.pfds, st)) == Some(Delivered(c, st))
    {
      GetsItsOwn(k.pfds, c, p, st);
    }
    DeliveredExactly(c);
    if !SockShared(c) {
      var st: int -> Status :| Delivered(c, st) != Wanted(c, st);
      assert Ready(c, k.index[i], k.pfds, Replies(k.pfds, st)) != Some(Wanted(c, st));
    }
  }

  // ---- the life of a channel's descriptors

  datatype FdEvent =
    | Register(rfd: int, wfd: int, efd: int)   // channel_register_fds
    | Close(fd: int)                           // channel_close_fd
    | Reconnect(sock: int)                     // the next address of a connecting channel, if any
    | Want(io: Io)                             // the channel_pre handlers

  function Registered(c: Chan, rfd: int, wfd: int, efd: int): Chan {
    c.(rfd := rfd, wfd := wfd, sock := if rfd == wfd then rfd else -1, efd := efd)
  }

  function Without(fd: int, x: int): int { if x == fd then -1 else x }

  function Closed(c: Chan, fd: int): Chan {
    Chan(Without(fd, c.rfd), Without(fd, c.wfd), Without(fd, c.efd), Without(fd, c.sock),
         Io(c.want.rfd && c.rfd != fd, c.want.wfd && c.wfd != fd,
            c.want.efdR && c.efd != fd, c.want.efdW && c.efd != fd,
            c.want.sockR && c.sock != fd, c.want.sockW && c.sock != fd))
  }

  function FdStep(c: Chan, e: FdEvent): Chan {
    match e
    case Register(r, w, x) => Registered(c, r, w, x)
    case Close(fd) => if fd == -1 then c else Closed(c, fd)
    case Reconnect(sock) => c.(sock := sock, rfd := sock, wfd := sock)
    case Want(io) => c.(want := io)
  }

  function FdRun(c: Chan, es: seq<FdEvent>): Chan
    decreases |es|
  {
    if es == [] then c else FdRun(FdStep(c, es[0]), es[1..])
  }

  /** A channel with a socket reads from it and writes to it. */
  predicate SockInv(c: Chan) { c.sock != -1 ==> c.rfd == c.sock && c.wfd == c.sock }

  lemma {:induction false} LifeKeepsSock(c: Chan, es: seq<FdEvent>)
    requires SockInv(c)
    ensures SockInv(FdRun(c, es))
    decreases |es|
  {
    if es != [] { LifeKeepsSock(FdStep(c, es[0]), es[1..]); }
  }

  /** Hence every channel gets exactly what it asked for, after any life of its descriptors; the
      fatal test hits one whose stderr is its read but not its write descriptor. */
  lemma EveryChannelIsServed(c0: Chan, life: seq<FdEvent>, reserved: seq<Entry>, cs: Slots, i: nat, st: int -> Status)
    requires SockInv(c0) && i < |cs| && cs[i] == Some(FdRun(c0, life))
    ensures var (c, k) := (FdRun(c0, life), Packed(reserved, cs));
      Ready(c, k.index[i], k.pfds, Replies(k.pfds, st)) ==
        if c.rfd != -1 && c.wfd != -1 && c.wfd != c.rfd && c.efd == c.rfd then None else Some(Wanted(c, st))
  {
    LifeKeepsSock(c0, life);
    if SaneFds(cs[i].value) {
      PollIsLossless(reserved, cs, i);
    }
  }

  /** The indices left by channel_close_fd. */
  function ClosedIndex(c: Chan, x: Index, fd: int): Index {
    Index(if c.rfd == fd then -1 else x.rfd, if c.wfd == fd then -1 else x.wfd,
          if c.efd == fd then -1 else x.efd, if c.sock == fd then -1 else x.sock)
  }

  /** A descriptor closed between packing and unpacking does no harm: the others are still found
      and the closed one is not looked up. */
  lemma ClosedMeanwhile(reserved: seq<Entry>, cs: Slots, i: nat, fd: int, st: int -> Status)
    requires i < |cs| && cs[i].Some? && SaneFds(cs[i].value) && SockInv(cs[i].value) && fd != -1
    ensures var (c, k) := (cs[i].value, Packed(reserved, cs));
      var c' := Closed(c, fd);
      Ready(c', ClosedIndex(c, k.index[i], fd), k.pfds, Replies(k.pfds, st)) == Some(Wanted(c', st))
  {
    var (c, k) := (cs[i].value, Packed(reserved, cs));
    var p := OwnEntries(reserved, cs, i);
    OwnFound(k.pfds, c, p, st);
    ReadyIs(Closed(c, fd), ClosedIndex(c, k.index[i], fd), k.pfds, Replies(k.pfds, st),
            Left(c, fd, c.rfd, RfdEntries(c), st), Left(c, fd, c.wfd, WfdEntries(c), st),
            Left(c, fd, c.efd, EfdEntries(c), st), Left(c, fd, c.sock, SockEntries(c), st));
    FlagsOfTheRest(c, fd, st);
  }

  /** The answer for a descriptor of c once fd is closed. */
  function Left(c: Chan, fd: int, mine: int, own: seq<Entry>, st: int -> Status): Answer {
    if mine == fd || mine == -1 then Nothing else AnswerFor(c, mine, own, st)
  }

  lemma FlagsOfTheRest(c: Chan, fd: int, st: int -> Status)
    requires SockInv(c) && fd != -1
    ensures var c' := Closed(c, fd);
      Flags(c'.want, Left(c, fd, c.rfd, RfdEntries(c), st), Left(c, fd, c.wfd, WfdEntries(c), st),
            Left(c, fd, c.efd, EfdEntries(c), st), Left(c, fd, c.sock, SockEntries(c), st)) == Wanted(c', st)
  {
  }

  function Opened(fd: int): seq<int> { if fd == -1 then [] else [fd] }

  function Distinct(s: int, r: int, w: int, e: int): seq<int> {
    Opened(s) + (if r == s then [] else Opened(r)) + (if w == s || w == r then [] else Opened(w)) +
    (if e == s || e == r || e == w then [] else Opened(e))
  }

  /** Every open descriptor is closed, each of them once. */
  lemma ClosedOnce(s: int, r: int, w: int, e: int)
    ensures var now := Distinct(s, r, w, e);
      && (forall fd :: fd in now <==> fd != -1 && fd in [s, r, w, e])
      && (forall j, k :: 0 <= j < k < |now| ==> now[j] != now[k])
  {
  }

  class ChannelFds {
    var rfd: int
    var wfd: int
    var efd: int
    var sock: int
    var want: Io
    var pfds: Index
    var closed: seq<int>   // the arguments of close(2) so far

    function View(): Chan
      reads this
    {
      Chan(rfd, wfd, efd, sock, want)
    }

    method RegisterFds(rfd: int, wfd: int, efd: int)
      modifies this`rfd, this`wfd, this`sock, this`efd
      ensures View() == FdStep(old(View()), Register(rfd, wfd, efd))
    {
      this.rfd := rfd;
      this.wfd := wfd;
      this.sock := if rfd == wfd then rfd else -1;
      this.efd := efd;
    }

    /** channel_close_fd, given the descriptor. */
    method CloseFd(fd: int)
      modifies this
      ensures View() == FdStep(old(View()), Close(fd))
      ensures rfd == Without(fd, old(rfd)) && wfd == Without(fd, old(wfd))
      ensures efd == Without(fd, old(efd)) && sock == Without(fd, old(sock))
      ensures fd != -1 ==> pfds == ClosedIndex(old(View()), old(pfds), fd)
      ensures closed == old(closed) + Opened(fd)
    {
      if fd == -1 {
        return;
      }
      DropRfd(fd);
      DropWfd(fd);
      DropEfd(fd);
      DropSock(fd);
      closed := closed + [fd];
    }

    method DropRfd(fd: int)
      modifies this`rfd, this`want, this`pfds
      ensures rfd == Without(fd, old(rfd)) && want == old(want).(rfd := old(want.rfd && rfd != fd))
      ensures pfds == old(pfds).(rfd := if old(rfd) == fd then -1 else old(pfds.rfd))
    {
      if fd == rfd {
        want := want.(rfd := false);
        rfd := -1;
        pfds := pfds.(rfd := -1);
      }
    }

    method DropWfd(fd: int)
      modifies this`wfd, this`want, this`pfds
      ensures wfd == Without(fd, old(wfd)) && want == old(want).(wfd := old(want.wfd && wfd != fd))
      ensures pfds == old(pfds).(wfd := if old(wfd) == fd then -1 else old(pfds.wfd))
    {
      if fd == wfd {
        want := want.(wfd := false);
        wfd := -1;
        pfds := pfds.(wfd := -1);
      }
    }

    method DropEfd(fd: int)
      modifies this`efd, this`want, this`pfds
      ensures efd == Without(fd, old(efd))
      ensures want == old(want).(efdR := old(want.efdR && efd != fd), efdW := old(want.efdW && efd != fd))
      ensures pfds == old(pfds).(efd := if old(efd) == fd then -1 else old(pfds.efd))
    {
      if fd == efd {
        want := want.(efdR := false, efdW := false);
        efd := -1;
        pfds := pfds.(efd := -1);
      }
    }

    method DropSock(fd: int)
      modifies this`sock, this`want, this`pfds
      ensures sock == Without(fd, old(sock))
      ensures want == old(want).(sockR := old(want.sockR && sock != fd), sockW := old(want.sockW && sock != fd))
      ensures pfds == old(pfds).(sock := if old(sock) == fd then -1 else old(pfds.sock))
    {
      if fd == sock {
        want := want.(sockR := false, sockW := false);
        sock := -1;
        pfds := pfds.(sock := -1);
      }
    }

    /** channel_close_fds. */
    method CloseFds()
      modifies this
      ensures rfd == -1 && wfd == -1 && efd == -1 && sock == -1
      ensures closed == old(closed) + Distinct(old(sock), old(rfd), old(wfd), old(efd))
    {
      var s, r, w, e := sock, rfd, wfd, efd;
      CloseFd(s);
      CloseUnless(r, r == s);
      CloseUnless(w, w == s || w == r);
      CloseUnless(e, e == s || e == r || e == w);
      Join(old(closed), s, r, w, e);
    }

    method CloseUnless(fd: int, done: bool)
      modifies this
      ensures rfd == (if done then old(rfd) else Without(fd, old(rfd)))
      ensures wfd == (if done then old(wfd) else Without(fd, old(wfd)))
      ensures efd == (if done then old(efd) else Without(fd, old(efd)))
      ensures sock == (if done then old(sock) else Without(fd, old(sock)))
      ensures closed == old(closed) + if done then [] else Opened(fd)
    {
      if !done {
        CloseFd(fd);
      }
    }
  }

  lemma Join(a: seq<int>, s: int, r: int, w: int, e: int)
    ensures a + Opened(s) + (if r == s then [] else Opened(r)) + (if w == s || w == r then [] else Opened(w)) +
      (if e == s || e == r || e == w then [] else Opened(e)) == a + Distinct(s, r, w, e)
  {
  }

  // ---- the code

  /** What follows `done` in the array is the entry, if anything was armed. */
  method Put(pfd: array<Entry>, p: nat, e: Entry, ghost done: seq<Entry>) returns (x: int, next: nat)
    requires p < pfd.Length && pfd[..p] == done
    modifies pfd
    ensures x == p && next == p + 1 && pfd[..next] == done + [e]
  {
    pfd[p] := e;
    assert pfd[..p + 1] == pfd[..p] + [e];
    return p, p + 1;
  }

  method PutRfd(c: Chan, pfd: array<Entry>, p: nat, ghost done: seq<Entry>) returns (x: int, next: nat)
    requires p < pfd.Length && pfd[..p] == done
    modifies pfd
    ensures x == At(RfdEntries(c), p) && next == p + |RfdEntries(c)| && pfd[..next] == done + RfdEntries(c)
  {
    x, next := -1, p;
    if c.rfd != -1 {
      var pollin, pollout := c.want.rfd, false;
      if c.wfd == c.rfd {
        pollout := c.want.wfd;
      }
      if c.efd == c.rfd {
        pollin := pollin || c.want.efdR;
        pollout := pollout || c.want.efdW;
      }
      if c.sock == c.rfd {
        pollin := pollin || c.want.sockR;
        pollout := pollout || c.want.sockW;
      }
      if pollin || pollout {
        x, next := Put(pfd, p, Entry(c.rfd, pollin, pollout), done);
      }
    }
  }

  method PutWfd(c: Chan, pfd: array<Entry>, p: nat, ghost done: seq<Entry>) returns (x: int, next: nat)
    requires p < pfd.Length && pfd[..p] == done
    modifies pfd
    ensures x == At(WfdEntries(c), p) && next == p + |WfdEntries(c)| && pfd[..next] == done + WfdEntries(c)
  {
    x, next := -1, p;
    if c.wfd != -1 && c.rfd != c.wfd && c.want.wfd {
      x, next := Put(pfd, p, Entry(c.wfd, false, true), done);
    }
  }

  method PutEfd(c: Chan, pfd: array<Entry>, p: nat, ghost done: seq<Entry>) returns (x: int, next: nat)
    requires p < pfd.Length && pfd[..p] == done
    modifies pfd
    ensures x == At(EfdEntries(c), p) && next == p + |EfdEntries(c)| && pfd[..next] == done + EfdEntries(c)
  {
    x, next := -1, p;
    if c.efd != -1 && c.rfd != c.efd && (c.want.efdR || c.want.efdW) {
      x, next := Put(pfd, p, Entry(c.efd, c.want.efdR, c.want.efdW), done);
    }
  }

  method PutSock(c: Chan, pfd: array<Entry>, p: nat, ghost done: seq<Entry>) returns (x: int, next: nat)
    requires p < pfd.Length && pfd[..p] == done
    modifies pfd
    ensures x == At(SockEntries(c), p) && next == p + |SockEntries(c)| && pfd[..next] == done + SockEntries(c)
  {
    x, next := -1, p;
    if c.sock != -1 && c.rfd != c.sock && (c.want.sockR || c.want.sockW) {
      x, next := Put(pfd, p, Entry(c.sock, false, false), done);
    }
  }

  lemma Regroup(d: seq<Entry>, r: seq<Entry>, w: seq<Entry>, e: seq<Entry>, s: seq<Entry>)
    ensures d + r + w + e + s == d + (r + w + e + s)
  {
  }

  /** channel_prepare_pollfd. */
  method PreparePollfd(c: Option<Chan>, p: nat, pfd: array<Entry>) returns (x: Index, next: nat)
    requires p + 4 <= pfd.Length
    modifies pfd
    ensures x == SlotIndex(c, p) && next == p + |SlotEntries(c)| && pfd[..next] == old(pfd[..p]) + SlotEntries(c)
  {
    if c == None {
      return Index(-1, -1, -1, -1), p;
    }
    ghost var (done, r, w, e, s) := (pfd[..p], RfdEntries(c.value), WfdEntries(c.value), EfdEntries(c.value),
                                     SockEntries(c.value));
    var x0, p1 := PutRfd(c.value, pfd, p, done);
    var x1, p2 := PutWfd(c.value, pfd, p1, done + r);
    var x2, p3 := PutEfd(c.value, pfd, p2, done + r + w);
    var x3, p4 := PutSock(c.value, pfd, p3, done + r + w + e);
    x, next := Index(x0, x1, x2, x3), p4;
    Regroup(done, r, w, e, s);
  }

  /** channel_prepare_poll: the array is large enough for four entries per slot. */
  method PreparePoll(cs: Slots, reserved: seq<Entry>) returns (pfd: array<Entry>, active: nat, xs: seq<Index>)
    ensures active <= pfd.Length && Packing(pfd[..active], xs) == Packed(reserved, cs)
  {
    var n := |reserved|;
    var npfd := n + 4 * |cs|;
    pfd := new Entry[npfd](i requires 0 <= i < npfd => if i < n then reserved[i] else Entry(-1, false, false));
    xs := [];
    active := n;
    assert pfd[..n] == reserved && cs[..0] == [];
    for i := 0 to |cs|
      invariant fresh(pfd) && pfd.Length == npfd && active <= n + 4 * i
      invariant Packing(pfd[..active], xs) == Packed(reserved, cs[..i])
      modifies pfd
    {
      assert cs[..i + 1][..i] == cs[..i];
      var x, next := PreparePollfd(cs[i], active, pfd);
      xs := xs + [x];
      active := next;
    }
    assert cs[..|cs|] == cs;
  }

  /** channel_after_poll for one channel; nothing is the fatal exit. */
  method AfterPollOne(c: Chan, x: Index, pfds: seq<Entry>, revents: seq<Answer>) returns (io: Option<Io>)
    requires |pfds| == |revents|
    ensures io == Ready(c, x, pfds, revents)
  {
    if c.rfd != -1 && c.wfd != -1 && c.rfd != c.wfd && (c.rfd == c.efd || c.rfd == c.sock) {
      return None;
    }
    var r := Lookup(pfds, revents, x.rfd, c.rfd);
    if r == None {
      return None;
    }
    var w, e, s := r, r, r;
    if c.wfd != c.rfd {
      w := Lookup(pfds, revents, x.wfd, c.wfd);
      if w == None {
        return None;
      }
    }
    if c.efd != c.rfd {
      e := Lookup(pfds, revents, x.efd, c.efd);
      if e == None {
        return None;
      }
    }
    if c.sock != c.rfd {
      s := Lookup(pfds, revents, x.sock, c.sock);
      if s == None {
        return None;
      }
    }
    io := Some(Flags(c.want, r.value, w.value, e.value, s.value));
  }

  /** One of its four blocks, with the checks of fd_ready. */
  method Lookup(pfds: seq<Entry>, revents: seq<Answer>, p: int, fd: int) returns (a: Option<Answer>)
    requires |pfds| == |revents|
    ensures a == Found(pfds, revents, p, fd)
  {
    if fd == -1 || p == -1 {
      return Some(Nothing);
    }
    if p < 0 || p >= |pfds| || pfds[p].fd != fd {
      return None;
    }
    a := Some(revents[p]);
  }

  /** channel_after_poll up to the handlers. */
  method AfterPoll(cs: Slots, k: Packing, revents: seq<Answer>) returns (io: Option<seq<Io>>)
    requires |k.index| == |cs| && |k.pfds| == |revents|
    ensures io.Some? ==> |io.value| == |cs|
    ensures io.Some? ==> forall i :: 0 <= i < |cs| && cs[i].Some? ==>
      Ready(cs[i].value, k.index[i], k.pfds, revents) == Some(io.value[i])
    ensures io == None ==>
      exists i :: 0 <= i < |cs| && cs[i].Some? && Ready(cs[i].value, k.index[i], k.pfds, revents) == None
  {
    var ready: seq<Io> := [];
    for i := 0 to |cs|
      invariant |ready| == i
      invariant forall j :: 0 <= j < i && cs[j].Some? ==>
        Ready(cs[j].value, k.index[j], k.pfds, revents) == Some(ready[j])
    {
      var r := Some(Io(false, false, false, false, false, false));
      if cs[i].Some? {
        r := AfterPollOne(cs[i].value, k.index[i], k.pfds, revents);
      }
      if r == None {
        return None;
      }
      ready := ready + [r.value];
    }
    io := Some(ready);
  }
}
