/**
 * Two channel ends joined by two FIFO links, and every run of them.
 *
 * A run interleaves the handlers of both ends in any order with any outcome of the local
 * reads and writes. The invariant speaks of one direction at a time: octets flow from a
 * sender `S` to a receiver `R` over `fwd`, credit flows back over `back`.
 */
module FlowControl {
  import opened Octets
  import opened ChannelSteps
  import U32

  /** What happened so far at one end; no handler reads it. */
  datatype Hist = Hist(
    readIn: seq<byte>, readErr: seq<byte>,      // octets taken from the local rfd and efd
    wroteOut: seq<byte>, wroteErr: seq<byte>,   // octets delivered to the local wfd and efd
    lostOut: seq<byte>, lostErr: seq<byte>,     // octets thrown away on arrival or on a write error
    uncredited: nat,                            // octets reset from `output` without giving credit
    cleanEof: bool, writeFailed: bool)

  datatype Peer = Peer(c: Chan, h: Hist)

  datatype Sys = Sys(a: Peer, b: Peer, ab: seq<Msg>, ba: seq<Msg>, fault: bool)

  datatype Action =
    | Read(avail: seq<byte>) | ReadEnd
    | ReadErr(avail: seq<byte>) | ReadErrEnd
    | PollInput | PollExtended
    | Write(w: Io) | WriteErr(w: Io)
    | PrePoll | Check | Collect
    | Receive

  // A local handler run at an end: the end afterwards and the message it queued.

  function DoRead(p: Peer, avail: seq<byte>): Peer {
    Peer(HandleRfd(p.c, avail), p.h.(readIn := p.h.readIn + avail[..ReadLen(p.c, |avail|)]))
  }

  function DoReadErr(p: Peer, avail: seq<byte>): Peer {
    var got := if p.c.extUsage == ExtRead then avail[..ExtReadLen(p.c, |avail|)] else [];
    Peer(HandleEfdRead(p.c, avail), p.h.(readErr := p.h.readErr + got))
  }

  function DoPollInput(p: Peer): (Peer, Option<Msg>) {
    var o := PollInputOpen(p.c);
    (Peer(o.c, p.h.(cleanEof := p.h.cleanEof || o.out == Some(Eof))), o.out)
  }

  function DoWriteFailed(p: Peer): (Peer, Option<Msg>) {
    var o := WriteFailed(p.c);
    var h := p.h;
    (Peer(o.c, h.(lostOut := h.lostOut + p.c.output, uncredited := h.uncredited + |p.c.output|, writeFailed := true)),
     o.out)
  }

  function DoWrote(p: Peer, n: nat): Peer
    requires WantsWrite(p.c) && 0 < n <= |p.c.output|
  {
    Peer(HandleWfd(p.c, Moved(n)).c, p.h.(wroteOut := p.h.wroteOut + p.c.output[..n]))
  }

  function DoWrite(p: Peer, w: Io): (Peer, Option<Msg>) {
    if !WantsWrite(p.c) then (p, None)
    else match w
      case Again => (p, None)
      case Failed => DoWriteFailed(p)
      case Moved(n) => if 0 < n <= |p.c.output| then (DoWrote(p, n), None) else (p, None)
  }

  function DoWroteErr(p: Peer, n: nat): Peer
    requires WantsExtWrite(p.c) && 0 < n <= |p.c.extended|
  {
    Peer(HandleEfdWrite(p.c, Moved(n)), p.h.(wroteErr := p.h.wroteErr + p.c.extended[..n]))
  }

  function DoWriteErr(p: Peer, w: Io): Peer {
    if !WantsExtWrite(p.c) then p
    else match w
      case Again => p
      case Failed => p.(c := CloseEfd(p.c))
      case Moved(n) => if 0 < n <= |p.c.extended| then DoWroteErr(p, n) else p
  }

  function Local(p: Peer, act: Action): (Peer, Option<Msg>) {
    match act
    case Read(avail) => (DoRead(p, avail), None)
    case ReadEnd => (p.(c := ReadFailed(p.c)), None)
    case ReadErr(avail) => (DoReadErr(p, avail), None)
    case ReadErrEnd => (p.(c := if p.c.extUsage != ExtWrite then CloseEfd(p.c) else p.c), None)
    case PollInput => DoPollInput(p)
    case PollExtended => var o := PollExtendedRead(p.c); (p.(c := o.c), o.out)
    case Write(w) => DoWrite(p, w)
    case WriteErr(w) => (DoWriteErr(p, w), None)
    case PrePoll => (p.(c := PreOpen(p.c)), None)
    case Check => var o := CheckWindow(p.c); (p.(c := o.c), o.out)
    case Collect => var o := GarbageCollect(p.c); (p.(c := o.c), o.out)
    case Receive => (p, None)
  }

  function Arrive(p: Peer, m: Msg): Peer {
    var h := p.h;
    var h' := if m.Data? && p.c.ostate != OutOpen then h.(lostOut := h.lostOut + m.data)
              else if m.Ext? && !AcceptsExt(p.c) then h.(lostErr := h.lostErr + m.data)
              else h;
    Peer(Input(p.c, m).c, h')
  }

  function Queue(link: seq<Msg>, out: Option<Msg>): seq<Msg> {
    if out.Some? then link + [out.value] else link
  }

  /** End `a` takes one step. */
  function Act(s: Sys, act: Action): Sys {
    if act.Receive? then
      if s.ba == [] then s
      else
        var o := Input(s.a.c, s.ba[0]);
        Sys(Arrive(s.a, s.ba[0]), s.b, Queue(s.ab, o.out), s.ba[1..], s.fault || o.fault)
    else if s.a.c.freed then s
    else
      var (a', out) := Local(s.a, act);
      s.(a := a', ab := Queue(s.ab, out))
  }

  function Swap(s: Sys): Sys { Sys(s.b, s.a, s.ba, s.ab, s.fault) }

  datatype Event = AtA(act: Action) | AtB(act: Action)

  function Step(s: Sys, e: Event): Sys {
    match e
    case AtA(act) => Act(s, act)
    case AtB(act) => Swap(Act(Swap(s), act))
  }

  function Run(s: Sys, trace: seq<Event>): Sys
    decreases |trace|
  {
    if trace == [] then s else Run(Step(s, trace[0]), trace[1..])
  }

  // ---- initial states

  predicate FreshChan(c: Chan) {
    && c.istate == InOpen && c.ostate == OutOpen
    && !c.eofSent && !c.eofRcvd && !c.closeSent && !c.closeRcvd && !c.freed
    && c.input == [] && c.output == [] && c.extended == []
    && c.localWindow == c.localWindowMax < U32.MOD && c.localConsumed == 0
  }

  const NoHist: Hist := Hist([], [], [], [], [], [], 0, false, false)

  /** Both ends have just seen the open and its confirmation, which carry the peer's window
      and packet limit. Nothing else is assumed of the two configurations. */
  predicate Opened(s: Sys) {
    && FreshChan(s.a.c) && FreshChan(s.b.c) && s.a.h == NoHist && s.b.h == NoHist
    && s.a.c.remoteWindow == s.b.c.localWindowMax && s.a.c.remoteMaxpacket == s.b.c.localMaxpacket
    && s.b.c.remoteWindow == s.a.c.localWindowMax && s.b.c.remoteMaxpacket == s.a.c.localMaxpacket
    && s.ab == [] && s.ba == [] && !s.fault
  }

  // ---- what is in flight

  function DataBytes(link: seq<Msg>): seq<byte> {
    if link == [] then [] else (if link[0].Data? then link[0].data else []) + DataBytes(link[1..])
  }

  function ExtBytes(link: seq<Msg>): seq<byte> {
    if link == [] then [] else (if link[0].Ext? then link[0].data else []) + ExtBytes(link[1..])
  }

  function Credit(link: seq<Msg>): nat {
    if link == [] then 0 else (if link[0].Adjust? then link[0].credit else 0) + Credit(link[1..])
  }

  lemma {:induction false} QueueData(link: seq<Msg>, m: Msg)
    ensures DataBytes(link + [m]) == DataBytes(link) + (if m.Data? then m.data else [])
  {
    if link != [] {
      QueueData(link[1..], m);
      assert (link + [m])[1..] == link[1..] + [m];
    }
  }

  lemma {:induction false} QueueExt(link: seq<Msg>, m: Msg)
    ensures ExtBytes(link + [m]) == ExtBytes(link) + (if m.Ext? then m.data else [])
  {
    if link != [] {
      QueueExt(link[1..], m);
      assert (link + [m])[1..] == link[1..] + [m];
    }
  }

  lemma {:induction false} QueueCredit(link: seq<Msg>, m: Msg)
    ensures Credit(link + [m]) == Credit(link) + (if m.Adjust? then m.credit else 0)
  {
    if link != [] {
      QueueCredit(link[1..], m);
      assert (link + [m])[1..] == link[1..] + [m];
    }
  }

  lemma QueueMeasures(link: seq<Msg>, out: Option<Msg>)
    ensures DataBytes(Queue(link, out)) == DataBytes(link) + (if out.Some? && out.value.Data? then out.value.data else [])
    ensures ExtBytes(Queue(link, out)) == ExtBytes(link) + (if out.Some? && out.value.Ext? then out.value.data else [])
    ensures Credit(Queue(link, out)) == Credit(link) + (if out.Some? && out.value.Adjust? then out.value.credit else 0)
  {
    if out.Some? {
      QueueData(link, out.value);
      QueueExt(link, out.value);
      QueueCredit(link, out.value);
    }
  }

  lemma {:induction false} NoPayload(link: seq<Msg>)
    requires forall m :: m in link ==> !m.Data? && !m.Ext?
    ensures DataBytes(link) == [] && ExtBytes(link) == []
  {
    if link != [] {
      NoPayload(link[1..]);
    }
  }

  // ---- the invariant of one end

  function ExtQueue(c: Chan): seq<byte> { if c.extUsage == ExtWrite then c.extended else [] }
  function ExtPending(c: Chan): seq<byte> { if c.extUsage == ExtRead then c.extended else [] }

  /** Every octet of the local window is free, buffered, consumed and not yet credited, or reset. */
  ghost predicate WindowSplit(p: Peer) {
    p.c.localWindow + |p.c.output| + |ExtQueue(p.c)| + p.c.localConsumed + p.h.uncredited == p.c.localWindowMax < U32.MOD
  }

  ghost predicate HalvesInv(c: Chan) {
    && (c.eofSent ==> c.istate == InClosed)
    && (c.closeSent ==> c.istate == InClosed && c.ostate == OutClosed)
    && (c.freed ==> c.closeSent && c.closeRcvd)
    && (c.ostate == OutWaitDrain ==> c.eofRcvd || c.closeRcvd)
    && (c.ostate == OutClosed ==> c.output == [])
  }

  ghost predicate LossInv(p: Peer) {
    && (p.c.ostate == OutClosed ==> p.h.writeFailed || p.c.eofRcvd || p.c.closeRcvd)
    && (p.h.lostOut != [] || p.h.uncredited != 0 ==> p.h.writeFailed)
    && (p.h.writeFailed ==> p.c.ostate == OutClosed && p.h.uncredited > 0)
    && (AcceptsExt(p.c) ==> p.h.lostErr == [])
    && (p.c.ostate == OutClosed && !p.h.writeFailed && AcceptsExt(p.c) ==> p.c.extended == [])
    && (p.c.extUsage != ExtRead ==> p.h.readErr == [])
    && (p.h.cleanEof ==> p.c.eofSent && p.c.input == [] && ExtPending(p.c) == [])
  }

  ghost predicate EndInv(p: Peer) {
    WindowSplit(p) && p.c.remoteWindow < U32.MOD && HalvesInv(p.c) && LossInv(p)
  }

  // ---- what one step of an end does to the two directions it takes part in

  function DataOf(m: Option<Msg>): seq<byte> { if m.Some? && m.value.Data? then m.value.data else [] }
  function ExtOf(m: Option<Msg>): seq<byte> { if m.Some? && m.value.Ext? then m.value.data else [] }
  function CreditOf(m: Option<Msg>): nat { if m.Some? && m.value.Adjust? then m.value.credit else 0 }
  predicate Payload(m: Msg) { m.Data? || m.Ext? || m.Eof? }

  /** As a sender: message `got` came from the peer and `out` was queued for it. */
  ghost predicate SenderMove(p: Peer, p': Peer, got: Option<Msg>, out: Option<Msg>) {
    && p'.c.remoteWindow + |DataOf(out)| + |ExtOf(out)| == p.c.remoteWindow + CreditOf(got)
    && p'.c.remoteMaxpacket == p.c.remoteMaxpacket
    && (out.Some? && out.value.Data? ==> 0 < |out.value.data| <= p.c.remoteMaxpacket)
    && (out == Some(Close) <==> p'.c.closeSent && !p.c.closeSent)
    && (out == Some(Eof) <==> p'.c.eofSent && !p.c.eofSent)
    && (out == Some(Eow) || p.h.writeFailed ==> p'.h.writeFailed)
    && (p.c.closeSent ==> p'.c.closeSent && out.None?)
    && (p.c.eofSent ==> p'.c.eofSent && (out.Some? ==> !Payload(out.value)))
  }

  ghost predicate SenderStream(p: Peer, p': Peer, out: Option<Msg>) {
    && p.h.readIn <= p'.h.readIn && p.h.readErr <= p'.h.readErr
    && DataOf(out) + p'.c.input == p.c.input + p'.h.readIn[|p.h.readIn|..]
    && ExtOf(out) + ExtPending(p'.c) == ExtPending(p.c) + p'.h.readErr[|p.h.readErr|..]
  }

  /** As a receiver. */
  ghost predicate ReceiverMove(p: Peer, p': Peer, got: Option<Msg>, out: Option<Msg>) {
    && p'.c.localWindow + |DataOf(got)| + |ExtOf(got)| + |p.h.lostErr|
       == p.c.localWindow + CreditOf(out) + |p'.h.lostErr|
    && p'.c.localMaxpacket == p.c.localMaxpacket
    && (p'.c.closeRcvd <==> p.c.closeRcvd || got == Some(Close))
    && (p'.c.eofRcvd <==> p.c.eofRcvd || got == Some(Eof))
  }

  ghost predicate ReceiverStream(p: Peer, p': Peer, got: Option<Msg>) {
    && p'.h.wroteOut + p'.h.lostOut + p'.c.output == p.h.wroteOut + p.h.lostOut + p.c.output + DataOf(got)
    && p'.h.wroteErr + ExtQueue(p'.c) + p'.h.lostErr
       == p.h.wroteErr + ExtQueue(p.c) + p.h.lostErr + ExtOf(got)
  }

  predicate SameConfig(c: Chan, c': Chan) {
    && c'.localWindowMax == c.localWindowMax && c'.localMaxpacket == c.localMaxpacket
    && c'.remoteMaxpacket == c.remoteMaxpacket && c'.extUsage == c.extUsage
  }

  ghost predicate Moves(p: Peer, p': Peer, got: Option<Msg>, out: Option<Msg>) {
    && EndInv(p') && SameConfig(p.c, p'.c)
    && SenderMove(p, p', got, out) && SenderStream(p, p', out)
    && ReceiverMove(p, p', got, out) && ReceiverStream(p, p', got)
  }

  lemma SenderIdle(p: Peer, p': Peer, out: Option<Msg>)
    requires p'.c.input == p.c.input && ExtPending(p'.c) == ExtPending(p.c)
    requires p'.h.readIn == p.h.readIn && p'.h.readErr == p.h.readErr
    requires out.None? || !(out.value.Data? || out.value.Ext?)
    ensures SenderStream(p, p', out)
  {
    assert p'.h.readIn[|p.h.readIn|..] == [];
    assert p'.h.readErr[|p.h.readErr|..] == [];
  }

  lemma ReceiverIdle(p: Peer, p': Peer, got: Option<Msg>)
    requires p'.h.wroteOut == p.h.wroteOut && p'.h.lostOut == p.h.lostOut && p'.c.output == p.c.output
    requires p'.h.wroteErr == p.h.wroteErr && p'.h.lostErr == p.h.lostErr && ExtQueue(p'.c) == ExtQueue(p.c)
    requires got.None? || !(got.value.Data? || got.value.Ext?)
    ensures ReceiverStream(p, p', got)
  {
  }

  lemma ReadMoves(p: Peer, avail: seq<byte>)
    requires EndInv(p)
    ensures Moves(p, DoRead(p, avail), None, None)
  {
    var p' := DoRead(p, avail);
    ReceiverIdle(p, p', None);
    assert p'.h.readErr[|p.h.readErr|..] == [];
    assert p'.h.readIn[|p.h.readIn|..] == avail[..ReadLen(p.c, |avail|)];
  }

  lemma ReadErrMoves(p: Peer, avail: seq<byte>)
    requires EndInv(p)
    ensures Moves(p, DoReadErr(p, avail), None, None)
  {
    var p' := DoReadErr(p, avail);
    ReceiverIdle(p, p', None);
    assert p'.h.readIn[|p.h.readIn|..] == [];
    if p.c.extUsage == ExtRead {
      assert p'.h.readErr[|p.h.readErr|..] == avail[..ExtReadLen(p.c, |avail|)];
    } else {
      assert p'.h.readErr[|p.h.readErr|..] == [];
    }
  }

  lemma PollInputMoves(p: Peer)
    requires EndInv(p)
    ensures var (p', out) := DoPollInput(p); Moves(p, p', None, out)
  {
    var (p', out) := DoPollInput(p);
    ReceiverIdle(p, p', None);
    if out.Some? && out.value.Data? {
      SentData(p, p', |out.value.data|);
    } else {
      SenderIdle(p, p', out);
    }
  }

  lemma SentData(p: Peer, p': Peer, n: nat)
    requires 0 < n <= |p.c.input| && p'.h == p.h && p'.c.input == p.c.input[n..]
    requires ExtPending(p'.c) == ExtPending(p.c)
    ensures SenderStream(p, p', Some(Data(p.c.input[..n])))
  {
    assert p.c.input == p.c.input[..n] + p.c.input[n..];
    assert p'.h.readIn[|p.h.readIn|..] == [];
    assert p'.h.readErr[|p.h.readErr|..] == [];
  }

  lemma PollExtendedMoves(p: Peer)
    requires EndInv(p)
    ensures var o := PollExtendedRead(p.c); Moves(p, p.(c := o.c), None, o.out)
  {
    var o := PollExtendedRead(p.c);
    var p' := p.(c := o.c);
    ReceiverIdle(p, p', None);
    if o.out.Some? {
      var n := |o.out.value.data|;
      assert p.c.extended == p.c.extended[..n] + p.c.extended[n..];
      assert p'.h.readIn[|p.h.readIn|..] == [];
      assert p'.h.readErr[|p.h.readErr|..] == [];
    } else {
      SenderIdle(p, p', o.out);
    }
  }

  lemma WriteFailedMoves(p: Peer)
    requires EndInv(p) && WantsWrite(p.c)
    ensures var (p', out) := DoWriteFailed(p); Moves(p, p', None, out)
  {
    var (p', out) := DoWriteFailed(p);
    assert p'.c == p.c.(output := [], ostate := OutClosed);
    SenderIdle(p, p', out);
    assert p.h.lostOut == [];
    assert p'.h.lostOut == p.c.output;
    assert p'.h.wroteOut + p'.h.lostOut + [] == p.h.wroteOut + [] + p.c.output + [];
    assert ReceiverStream(p, p', None);
  }

  lemma WroteMoves(p: Peer, n: nat)
    requires EndInv(p) && WantsWrite(p.c) && 0 < n <= |p.c.output|
    ensures Moves(p, DoWrote(p, n), None, None)
  {
    var p' := DoWrote(p, n);
    SenderIdle(p, p', None);
    assert p.h.lostOut == [];
    assert p.c.output == p.c.output[..n] + p.c.output[n..];
    assert ExtQueue(p'.c) == ExtQueue(p.c);
  }

  lemma WriteMoves(p: Peer, w: Io)
    requires EndInv(p)
    ensures var (p', out) := DoWrite(p, w); Moves(p, p', None, out)
  {
    if WantsWrite(p.c) && w.Failed? {
      WriteFailedMoves(p);
    } else if WantsWrite(p.c) && w.Moved? && 0 < w.n <= |p.c.output| {
      WroteMoves(p, w.n);
    } else {
      Idle(p, p);
    }
  }

  lemma WroteErrMoves(p: Peer, n: nat)
    requires EndInv(p) && WantsExtWrite(p.c) && 0 < n <= |p.c.extended|
    ensures Moves(p, DoWroteErr(p, n), None, None)
  {
    var p' := DoWroteErr(p, n);
    SenderIdle(p, p', None);
    assert p.h.lostErr == [];
    assert p.c.extended == p.c.extended[..n] + p.c.extended[n..];
  }

  lemma Idle(p: Peer, p': Peer)
    requires EndInv(p) && EndInv(p')
    requires p'.h == p.h
    requires p'.c == p.c.(istate := p'.c.istate, ostate := p'.c.ostate, efdOpen := p'.c.efdOpen)
    ensures Moves(p, p', None, None)
  {
    SenderIdle(p, p', None);
    ReceiverIdle(p, p', None);
  }

  lemma WriteErrMoves(p: Peer, w: Io)
    requires EndInv(p)
    ensures Moves(p, DoWriteErr(p, w), None, None)
  {
    if WantsExtWrite(p.c) && w.Moved? && 0 < w.n <= |p.c.extended| {
      WroteErrMoves(p, w.n);
    } else {
      Idle(p, DoWriteErr(p, w));
    }
  }

  lemma PreOpenMoves(p: Peer)
    requires EndInv(p)
    ensures Moves(p, p.(c := PreOpen(p.c)), None, None)
  {
    Idle(p, p.(c := PreOpen(p.c)));
  }

  lemma ReadEndMoves(p: Peer, act: Action)
    requires EndInv(p) && (act.ReadEnd? || act.ReadErrEnd?)
    ensures Moves(p, Local(p, act).0, None, None)
  {
    var p' := Local(p, act).0;
    if act.ReadEnd? {
      InputEndKeeps(p, act);
    } else {
      ErrEndKeeps(p, act);
    }
    Idle(p, p');
  }

  lemma InputEndKeeps(p: Peer, act: Action)
    requires EndInv(p) && act.ReadEnd?
    ensures var p' := Local(p, act).0; EndInv(p') && p'.h == p.h && p'.c == p.c.(istate := p'.c.istate)
  {
  }

  lemma ErrEndKeeps(p: Peer, act: Action)
    requires EndInv(p) && act.ReadErrEnd?
    ensures var p' := Local(p, act).0; EndInv(p') && p'.h == p.h && p'.c == p.c.(efdOpen := p'.c.efdOpen)
  {
  }

  lemma CheckMoves(p: Peer)
    requires EndInv(p)
    ensures var o := CheckWindow(p.c); Moves(p, p.(c := o.c), None, o.out)
  {
    var o := CheckWindow(p.c);
    if WantsAdjust(p.c) {
      assert o.c == p.c.(localWindow := p.c.localWindow + p.c.localConsumed, localConsumed := 0);
      SenderIdle(p, p.(c := o.c), o.out);
      ReceiverIdle(p, p.(c := o.c), None);
    } else {
      Idle(p, p);
    }
  }

  lemma CollectMoves(p: Peer)
    requires EndInv(p)
    ensures var o := GarbageCollect(p.c); Moves(p, p.(c := o.c), None, o.out)
  {
    var o := GarbageCollect(p.c);
    var p' := p.(c := o.c);
    SenderIdle(p, p', o.out);
    ReceiverIdle(p, p', None);
    if o.c != p.c {
      assert p'.c == p.c.(closeSent := true, freed := p'.c.freed);
    }
  }

  /** What the link guarantees about the message it hands over. */
  predicate Deliverable(c: Chan, m: Msg) {
    && !c.closeRcvd
    && (Payload(m) ==> !c.eofRcvd)
    && (m.Data? ==> |m.data| <= c.localMaxpacket)
    && (m.Data? || m.Ext? ==> |m.data| <= c.localWindow)
    && (m.Adjust? ==> c.remoteWindow + m.credit < U32.MOD)
  }

  lemma DataBuffered(p: Peer, m: Msg)
    requires EndInv(p) && Deliverable(p.c, m) && m.Data? && p.c.ostate == OutOpen
    ensures Moves(p, Arrive(p, m), Some(m), Input(p.c, m).out)
    ensures !Input(p.c, m).fault
  {
    SenderIdle(p, Arrive(p, m), None);
    var (u, v, d) := (p.h.wroteOut, p.h.lostOut, m.data);
    assert u + v + (p.c.output + d) == u + v + p.c.output + d;
  }

  lemma DataDropped(p: Peer, m: Msg)
    requires EndInv(p) && Deliverable(p.c, m) && m.Data? && p.c.ostate != OutOpen
    ensures Moves(p, Arrive(p, m), Some(m), Input(p.c, m).out)
    ensures !Input(p.c, m).fault
  {
    SenderIdle(p, Arrive(p, m), None);
    var (u, v, d) := (p.h.wroteOut, p.h.lostOut, m.data);
    assert p.c.output == [];
    assert u + (v + d) + [] == u + v + [] + d;
  }

  lemma DataArrives(p: Peer, m: Msg)
    requires EndInv(p) && Deliverable(p.c, m) && m.Data?
    ensures Moves(p, Arrive(p, m), Some(m), Input(p.c, m).out)
    ensures !Input(p.c, m).fault
  {
    if p.c.ostate == OutOpen {
      DataBuffered(p, m);
    } else {
      DataDropped(p, m);
    }
  }

  lemma ExtArrives(p: Peer, m: Msg)
    requires EndInv(p) && Deliverable(p.c, m) && m.Ext?
    ensures Moves(p, Arrive(p, m), Some(m), Input(p.c, m).out)
    ensures !Input(p.c, m).fault
  {
    if AcceptsExt(p.c) {
      ExtBuffered(p, m);
    } else {
      ExtDropped(p, m);
    }
  }

  lemma ExtBuffered(p: Peer, m: Msg)
    requires EndInv(p) && Deliverable(p.c, m) && m.Ext? && AcceptsExt(p.c)
    ensures Moves(p, Arrive(p, m), Some(m), Input(p.c, m).out) && !Input(p.c, m).fault
  {
    var p' := Arrive(p, m);
    SenderIdle(p, p', None);
    var (u, q) := (p.h.wroteErr, ExtQueue(p.c));
    assert u + (q + m.data) + [] == u + q + [] + m.data;
  }

  lemma ExtDropped(p: Peer, m: Msg)
    requires EndInv(p) && Deliverable(p.c, m) && m.Ext? && !AcceptsExt(p.c)
    ensures Moves(p, Arrive(p, m), Some(m), Input(p.c, m).out) && !Input(p.c, m).fault
  {
    var p' := Arrive(p, m);
    SenderIdle(p, p', None);
    var (u, q) := (p.h.wroteErr, ExtQueue(p.c));
    assert u + q + (p.h.lostErr + m.data) == u + q + p.h.lostErr + m.data;
  }

  lemma AdjustArrives(p: Peer, m: Msg)
    requires EndInv(p) && Deliverable(p.c, m) && m.Adjust?
    ensures Moves(p, Arrive(p, m), Some(m), Input(p.c, m).out)
    ensures !Input(p.c, m).fault
  {
  }

  lemma EofArrives(p: Peer, m: Msg)
    requires EndInv(p) && Deliverable(p.c, m) && m.Eof?
    ensures Moves(p, Arrive(p, m), Some(m), Input(p.c, m).out)
    ensures !Input(p.c, m).fault
  {
    var p' := Arrive(p, m);
    assert p'.h == p.h && p'.c == p.c.(eofRcvd := true, ostate := p'.c.ostate, efdOpen := p'.c.efdOpen);
    SenderIdle(p, p', None);
    ReceiverIdle(p, p', Some(m));
  }

  lemma CloseArrives(p: Peer, m: Msg)
    requires EndInv(p) && Deliverable(p.c, m) && m.Close?
    ensures Moves(p, Arrive(p, m), Some(m), Input(p.c, m).out)
    ensures !Input(p.c, m).fault
  {
    var p' := Arrive(p, m);
    var out := Input(p.c, m).out;
    assert p'.c == p.c.(closeRcvd := true, ostate := p'.c.ostate, istate := InClosed, efdOpen := p'.c.efdOpen,
                        eofSent := p'.c.eofSent);
    SenderIdle(p, p', out);
    ReceiverIdle(p, p', Some(m));
  }

  lemma EowArrives(p: Peer, m: Msg)
    requires EndInv(p) && Deliverable(p.c, m) && m.Eow?
    ensures Moves(p, Arrive(p, m), Some(m), Input(p.c, m).out)
    ensures !Input(p.c, m).fault
  {
  }

  lemma ArriveMoves(p: Peer, m: Msg)
    requires EndInv(p) && Deliverable(p.c, m)
    ensures Moves(p, Arrive(p, m), Some(m), Input(p.c, m).out)
    ensures !Input(p.c, m).fault
  {
    match m
    case Data(_) => DataArrives(p, m);
    case Ext(_) => ExtArrives(p, m);
    case Adjust(_) => AdjustArrives(p, m);
    case Eof => EofArrives(p, m);
    case Close => CloseArrives(p, m);
    case Eow => EowArrives(p, m);
  }

  lemma LocalMoves(p: Peer, act: Action)
    requires EndInv(p) && !p.c.freed && !act.Receive?
    ensures Moves(p, Local(p, act).0, None, Local(p, act).1)
  {
    match act
    case Read(avail) => ReadMoves(p, avail);
    case ReadEnd => ReadEndMoves(p, act);
    case ReadErr(avail) => ReadErrMoves(p, avail);
    case ReadErrEnd => ReadEndMoves(p, act);
    case PollInput => PollInputMoves(p);
    case PollExtended => PollExtendedMoves(p);
    case Write(w) => WriteMoves(p, w);
    case WriteErr(w) => WriteErrMoves(p, w);
    case PrePoll => PreOpenMoves(p);
    case Check => CheckMoves(p);
    case Collect => CollectMoves(p);
  }

  // ---- the invariant of one direction

  /** Section 5.2 of RFC 4254: the sender's window, what is in flight, and the receiver's window. */
  ghost predicate WindowInv(S: Peer, R: Peer, fwd: seq<Msg>, back: seq<Msg>) {
    && S.c.remoteWindow + |DataBytes(fwd)| + |ExtBytes(fwd)| + Credit(back) + |R.h.lostErr| == R.c.localWindow
    && S.c.remoteMaxpacket == R.c.localMaxpacket
    && (forall m :: m in fwd && m.Data? ==> 0 < |m.data| <= R.c.localMaxpacket)
  }

  /** No octet of either stream is duplicated, reordered or dropped without being counted as lost. */
  ghost predicate StreamInv(S: Peer, R: Peer, fwd: seq<Msg>) {
    && R.h.wroteOut + R.h.lostOut + R.c.output + DataBytes(fwd) + S.c.input == S.h.readIn
    && R.h.wroteErr + ExtQueue(R.c) + R.h.lostErr + ExtBytes(fwd) + ExtPending(S.c) == S.h.readErr
  }

  /** EOF follows all payload and CLOSE follows everything. */
  ghost predicate OrderInv(S: Peer, R: Peer, fwd: seq<Msg>) {
    && (forall i :: 0 <= i < |fwd| - 1 ==> fwd[i] != Close)
    && (forall i, j :: 0 <= i < j < |fwd| && fwd[i] == Eof ==> !Payload(fwd[j]))
    && (R.c.closeRcvd ==> fwd == [])
    && (R.c.eofRcvd ==> forall m :: m in fwd ==> !Payload(m))
    && (S.c.closeSent <==> R.c.closeRcvd || Close in fwd)
    && (S.c.eofSent <==> R.c.eofRcvd || Eof in fwd)
    && (Eow in fwd ==> S.h.writeFailed)
  }

  ghost predicate DirInv(S: Peer, R: Peer, fwd: seq<Msg>, back: seq<Msg>) {
    WindowInv(S, R, fwd, back) && StreamInv(S, R, fwd) && OrderInv(S, R, fwd)
  }

  ghost predicate Inv(s: Sys) {
    && !s.fault && EndInv(s.a) && EndInv(s.b)
    && DirInv(s.a, s.b, s.ab, s.ba) && DirInv(s.b, s.a, s.ba, s.ab)
  }

  lemma OpenedInv(s: Sys)
    requires Opened(s)
    ensures Inv(s)
  {
  }

  /** The message taken from the head of a link by a step, if any, and the link left behind. */
  ghost predicate Takes(link: seq<Msg>, link': seq<Msg>, got: Option<Msg>) {
    match got
    case None => link' == link
    case Some(m) => link != [] && m == link[0] && link' == link[1..]
  }

  lemma SenderStep(S: Peer, S': Peer, R: Peer, fwd: seq<Msg>, back: seq<Msg>, back': seq<Msg>,
                   got: Option<Msg>, out: Option<Msg>)
    requires DirInv(S, R, fwd, back) && Takes(back, back', got)
    requires SenderMove(S, S', got, out) && SenderStream(S, S', out)
    ensures DirInv(S', R, Queue(fwd, out), back')
  {
    QueueMeasures(fwd, out);
    SenderWindow(S, S', R, fwd, back, back', got, out);
    SenderBytes(S, S', R, fwd, out);
    SenderOrder(S, S', R, fwd, got, out);
  }

  lemma SenderWindow(S: Peer, S': Peer, R: Peer, fwd: seq<Msg>, back: seq<Msg>, back': seq<Msg>,
                     got: Option<Msg>, out: Option<Msg>)
    requires WindowInv(S, R, fwd, back) && Takes(back, back', got) && SenderMove(S, S', got, out)
    ensures WindowInv(S', R, Queue(fwd, out), back')
  {
    QueueMeasures(fwd, out);
  }

  lemma AppendAtTail(u: seq<byte>, d: seq<byte>, o: seq<byte>, i: seq<byte>, i': seq<byte>, r: seq<byte>, r': seq<byte>)
    requires u + d + i == r <= r' && o + i' == i + r'[|r|..]
    ensures u + (d + o) + i' == r'
  {
    var x := r'[|r|..];
    assert u + (d + o) + i' == u + d + (o + i');
    assert u + d + (i + x) == u + d + i + x;
    assert r + x == r';
  }

  lemma SenderBytes(S: Peer, S': Peer, R: Peer, fwd: seq<Msg>, out: Option<Msg>)
    requires StreamInv(S, R, fwd) && SenderStream(S, S', out)
    ensures StreamInv(S', R, Queue(fwd, out))
  {
    QueueMeasures(fwd, out);
    AppendAtTail(R.h.wroteOut + R.h.lostOut + R.c.output, DataBytes(fwd), DataOf(out), S.c.input, S'.c.input,
                 S.h.readIn, S'.h.readIn);
    AppendAtTail(R.h.wroteErr + ExtQueue(R.c) + R.h.lostErr, ExtBytes(fwd), ExtOf(out), ExtPending(S.c), ExtPending(S'.c),
                 S.h.readErr, S'.h.readErr);
  }

  lemma SenderOrder(S: Peer, S': Peer, R: Peer, fwd: seq<Msg>, got: Option<Msg>, out: Option<Msg>)
    requires OrderInv(S, R, fwd) && SenderMove(S, S', got, out)
    ensures OrderInv(S', R, Queue(fwd, out))
  {
  }

  lemma ReceiverWindow(S: Peer, R: Peer, R': Peer, fwd: seq<Msg>, fwd': seq<Msg>, back: seq<Msg>,
                       got: Option<Msg>, out: Option<Msg>)
    requires WindowInv(S, R, fwd, back) && Takes(fwd, fwd', got) && ReceiverMove(R, R', got, out)
    ensures WindowInv(S, R', fwd', Queue(back, out))
  {
    QueueMeasures(back, out);
  }

  lemma TakeFromHead(u: seq<byte>, u': seq<byte>, d: seq<byte>, d': seq<byte>, g: seq<byte>, i: seq<byte>)
    requires u' == u + g && d == g + d'
    ensures u' + d' + i == u + d + i
  {
    assert u' + d' == u + d;
  }

  lemma ReceiverBytes(S: Peer, R: Peer, R': Peer, fwd: seq<Msg>, fwd': seq<Msg>, got: Option<Msg>)
    requires StreamInv(S, R, fwd) && Takes(fwd, fwd', got) && ReceiverStream(R, R', got)
    ensures StreamInv(S, R', fwd')
  {
    assert DataBytes(fwd) == DataOf(got) + DataBytes(fwd');
    assert ExtBytes(fwd) == ExtOf(got) + ExtBytes(fwd');
    TakeFromHead(R.h.wroteOut + R.h.lostOut + R.c.output, R'.h.wroteOut + R'.h.lostOut + R'.c.output,
                 DataBytes(fwd), DataBytes(fwd'), DataOf(got), S.c.input);
    TakeFromHead(R.h.wroteErr + ExtQueue(R.c) + R.h.lostErr, R'.h.wroteErr + ExtQueue(R'.c) + R'.h.lostErr,
                 ExtBytes(fwd), ExtBytes(fwd'), ExtOf(got), ExtPending(S.c));
  }

  lemma ReceiverOrder(S: Peer, R: Peer, R': Peer, fwd: seq<Msg>, fwd': seq<Msg>,
                      got: Option<Msg>, out: Option<Msg>)
    requires OrderInv(S, R, fwd) && Takes(fwd, fwd', got) && ReceiverMove(R, R', got, out)
    ensures OrderInv(S, R', fwd')
  {
  }

  lemma ReceiverStep(S: Peer, R: Peer, R': Peer, fwd: seq<Msg>, fwd': seq<Msg>, back: seq<Msg>,
                     got: Option<Msg>, out: Option<Msg>)
    requires DirInv(S, R, fwd, back) && Takes(fwd, fwd', got)
    requires ReceiverMove(R, R', got, out) && ReceiverStream(R, R', got)
    ensures DirInv(S, R', fwd', Queue(back, out))
  {
    ReceiverWindow(S, R, R', fwd, fwd', back, got, out);
    ReceiverBytes(S, R, R', fwd, fwd', got);
    ReceiverOrder(S, R, R', fwd, fwd', got, out);
  }

  lemma HeadDeliverable(s: Sys)
    requires Inv(s) && s.ba != []
    ensures Deliverable(s.a.c, s.ba[0])
  {
  }

  lemma ArrivalInv(s: Sys)
    requires Inv(s) && s.ba != []
    ensures var (a', out) := (Arrive(s.a, s.ba[0]), Input(s.a.c, s.ba[0]).out);
      && !Input(s.a.c, s.ba[0]).fault && EndInv(a') && SameConfig(s.a.c, a'.c)
      && DirInv(a', s.b, Queue(s.ab, out), s.ba[1..]) && DirInv(s.b, a', s.ba[1..], Queue(s.ab, out))
  {
    var m := s.ba[0];
    HeadDeliverable(s);
    ArriveMoves(s.a, m);
    var (a', out) := (Arrive(s.a, m), Input(s.a.c, m).out);
    SenderStep(s.a, a', s.b, s.ab, s.ba, s.ba[1..], Some(m), out);
    ReceiverStep(s.b, s.a, a', s.ba, s.ba[1..], s.ab, Some(m), out);
  }

  lemma LocalInv(s: Sys, act: Action)
    requires Inv(s) && !act.Receive? && !s.a.c.freed
    ensures var (a', out) := Local(s.a, act);
      && EndInv(a') && SameConfig(s.a.c, a'.c)
      && DirInv(a', s.b, Queue(s.ab, out), s.ba) && DirInv(s.b, a', s.ba, Queue(s.ab, out))
  {
    LocalMoves(s.a, act);
    var (a', out) := Local(s.a, act);
    SenderStep(s.a, a', s.b, s.ab, s.ba, s.ba, None, out);
    ReceiverStep(s.b, s.a, a', s.ba, s.ba, s.ab, None, out);
  }

  /** Every step of either end keeps the invariant, in particular raises no fault. */
  lemma ActInv(s: Sys, act: Action)
    requires Inv(s)
    ensures Inv(Act(s, act))
    ensures SameConfig(s.a.c, Act(s, act).a.c) && Act(s, act).b == s.b
  {
    if act.Receive? && s.ba != [] {
      ArrivalInv(s);
    } else if !act.Receive? && !s.a.c.freed {
      LocalInv(s, act);
    }
  }

  lemma {:induction false} RunInv(s: Sys, trace: seq<Event>)
    requires Inv(s)
    ensures Inv(Run(s, trace))
    ensures SameConfig(s.a.c, Run(s, trace).a.c) && SameConfig(s.b.c, Run(s, trace).b.c)
    decreases |trace|
  {
    if trace != [] {
      match trace[0] {
        case AtA(act) => ActInv(s, act);
        case AtB(act) => ActInv(Swap(s), act);
      }
      RunInv(Step(s, trace[0]), trace[1..]);
    }
  }

  // ---- the theorems

  /** Conservation: what the receiver of one direction has not lost it can account for. */
  ghost predicate Conserved(S: Peer, R: Peer, fwd: seq<Msg>, back: seq<Msg>) {
    && S.c.remoteWindow + |DataBytes(fwd)| + |ExtBytes(fwd)| + Credit(back) == R.c.localWindow
    && R.c.localWindow + |R.c.output| + |ExtQueue(R.c)| + R.c.localConsumed == R.c.localWindowMax
    && R.h.wroteOut + R.c.output + DataBytes(fwd) + S.c.input == S.h.readIn
    && R.h.wroteErr + ExtQueue(R.c) + ExtBytes(fwd) + ExtPending(S.c) == S.h.readErr
  }

  /** The receiver's descriptors are still usable. */
  predicate Sound(R: Peer) { !R.h.writeFailed && (AcceptsExt(R.c) || R.h.lostErr == []) }

  lemma SoundIsConserved(S: Peer, R: Peer, fwd: seq<Msg>, back: seq<Msg>)
    requires EndInv(R) && DirInv(S, R, fwd, back) && Sound(R)
    ensures Conserved(S, R, fwd, back)
  {
    assert R.h.lostOut == [] && R.h.lostErr == [];
    assert R.h.wroteOut + [] == R.h.wroteOut;
    assert R.h.wroteErr + ExtQueue(R.c) + [] == R.h.wroteErr + ExtQueue(R.c);
  }

  /** In every run no packet is over-long or exceeds the window, no window wraps, no message
      reaches a freed channel, and each direction with a sound receiver is conserved. */
  lemma FlowIsSafe(s0: Sys, trace: seq<Event>)
    requires Opened(s0)
    ensures var s := Run(s0, trace);
      && !s.fault
      && (Sound(s.b) ==> Conserved(s.a, s.b, s.ab, s.ba))
      && (Sound(s.a) ==> Conserved(s.b, s.a, s.ba, s.ab))
      && (s.a.c.freed ==> s.ba == [] && s.b.c.closeSent)
      && (s.b.c.freed ==> s.ab == [] && s.a.c.closeSent)
  {
    OpenedInv(s0);
    RunInv(s0, trace);
    var s := Run(s0, trace);
    if Sound(s.b) { SoundIsConserved(s.a, s.b, s.ab, s.ba); }
    if Sound(s.a) { SoundIsConserved(s.b, s.a, s.ba, s.ab); }
  }

  // ---- when the law fails

  lemma ConservedUnlessLost(S: Peer, R: Peer, fwd: seq<Msg>, back: seq<Msg>)
    requires EndInv(R) && DirInv(S, R, fwd, back)
    ensures Conserved(S, R, fwd, back) <==> !Lost(R)
  {
    var out := R.h.wroteOut + R.h.lostOut + R.c.output + DataBytes(fwd) + S.c.input;
    if Conserved(S, R, fwd, back) {
      assert |out| == |R.h.wroteOut| + |R.h.lostOut| + |R.c.output| + |DataBytes(fwd)| + |S.c.input|;
      assert |R.h.lostOut| == 0;
    } else if R.h.lostOut == [] && R.h.lostErr == [] {
      assert R.h.wroteOut + [] == R.h.wroteOut;
      assert R.h.wroteErr + ExtQueue(R.c) + [] == R.h.wroteErr + ExtQueue(R.c);
    }
  }

  predicate Lost(R: Peer) { R.h.lostOut != [] || R.h.lostErr != [] || R.h.uncredited > 0 }

  /** End `a` is about to take a stderr message although it has no open descriptor to write it to,
      or its write of pending output is about to fail. */
  predicate Loses(s: Sys, act: Action) {
    if act.Receive? then
      s.ba != [] && s.ba[0].Ext? && s.ba[0].data != [] && !AcceptsExt(s.a.c)
    else
      act == Write(Failed) && !s.a.c.freed && WantsWrite(s.a.c)
  }

  lemma LostByEnd(s: Sys, act: Action)
    requires Inv(s) && !Lost(s.a)
    ensures Lost(Act(s, act).a) <==> Loses(s, act)
  {
    if act.Receive? && s.ba != [] {
      HeadDeliverable(s);
    }
  }

  /** What one end has lost stays lost, and the other end does not touch its books. */
  lemma LossesGrow(s: Sys, act: Action)
    ensures Act(s, act).b == s.b
    ensures var (h, h') := (s.a.h, Act(s, act).a.h);
      h.lostOut <= h'.lostOut && h.lostErr <= h'.lostErr && h.uncredited <= h'.uncredited
  {
  }

  /** A step towards `a` breaks conservation exactly if it is one of these two. */
  lemma BrokenByStep(s: Sys, act: Action)
    requires Inv(s) && Conserved(s.b, s.a, s.ba, s.ab)
    ensures var s' := Act(s, act); Conserved(s'.b, s'.a, s'.ba, s'.ab) <==> !Loses(s, act)
  {
    var s' := Act(s, act);
    ActInv(s, act);
    ConservedUnlessLost(s.b, s.a, s.ba, s.ab);
    LostByEnd(s, act);
    ConservedUnlessLost(s'.b, s'.a, s'.ba, s'.ab);
  }

  /** Some step of the run is one of these two at end `b`. */
  ghost predicate SomeLoss(s: Sys, trace: seq<Event>)
    decreases |trace|
  {
    trace != [] && ((trace[0].AtB? && Loses(Swap(s), trace[0].act)) || SomeLoss(Step(s, trace[0]), trace[1..]))
  }

  lemma LostByStep(s: Sys, e: Event)
    requires Inv(s)
    ensures var s' := Step(s, e);
      && Inv(s') && s.b.h.lostErr <= s'.b.h.lostErr
      && (Lost(s'.b) <==> Lost(s.b) || (e.AtB? && Loses(Swap(s), e.act)))
  {
    match e {
      case AtA(act) =>
        ActInv(s, act);
      case AtB(act) =>
        ActInv(Swap(s), act);
        LossesGrow(Swap(s), act);
        if !Lost(s.b) { LostByEnd(Swap(s), act); }
    }
  }

  lemma {:induction false} LostByRun(s: Sys, trace: seq<Event>)
    requires Inv(s)
    ensures var s' := Run(s, trace);
      && (Lost(s'.b) <==> Lost(s.b) || SomeLoss(s, trace))
      && s.b.h.lostErr <= s'.b.h.lostErr
    decreases |trace|
  {
    if trace != [] {
      LostByStep(s, trace[0]);
      LostByRun(Step(s, trace[0]), trace[1..]);
    }
  }

  /** Over runs: direction a -> b is conserved exactly if no step of the run took stderr data at an
      end without a descriptor for it and no write of pending output failed there. */
  lemma ConservedExactly(s0: Sys, trace: seq<Event>)
    requires Opened(s0)
    ensures var s := Run(s0, trace); Conserved(s.a, s.b, s.ab, s.ba) <==> !SomeLoss(s0, trace)
  {
    OpenedInv(s0);
    RunInv(s0, trace);
    LostByRun(s0, trace);
    var s := Run(s0, trace);
    ConservedUnlessLost(s.a, s.b, s.ab, s.ba);
  }

  /** What stderr data took from the window never comes back: in every continuation the sender's
      window, what is in flight and the credit fall short of the receiver's window by as much. */
  lemma WindowLostForGood(s: Sys, more: seq<Event>)
    requires Inv(s)
    ensures var s' := Run(s, more);
      s'.a.c.remoteWindow + |DataBytes(s'.ab)| + |ExtBytes(s'.ab)| + Credit(s'.ba) + |s.b.h.lostErr| <= s'.b.c.localWindow
  {
    RunInv(s, more);
    LostByRun(s, more);
  }

  /** Once a whole window of stderr was dropped the sender is stopped for good, with no credit on
      the way. */
  lemma StoppedForGood(s: Sys, more: seq<Event>)
    requires Inv(s) && |s.b.h.lostErr| >= s.b.c.localWindowMax
    ensures var s' := Run(s, more); s'.a.c.remoteWindow == 0 && Credit(s'.ba) == 0
  {
    RunInv(s, more);
    WindowLostForGood(s, more);
  }

  /** End `a` reads and sends stderr that end `b` does not take. */
  predicate Leaking(s: Sys) {
    && s.a.c.extUsage == ExtRead && s.a.c.efdOpen && s.a.c.extended == [] && s.a.c.istate == InOpen
    && !s.a.c.eofSent && !s.a.c.closeSent && !s.a.c.closeRcvd && !s.a.c.freed
    && s.a.c.remoteMaxpacket > 0 && s.a.c.remoteWindow < U32.MOD
    && !AcceptsExt(s.b.c) && !s.b.c.eofRcvd && !s.b.c.freed && s.ab == []
  }

  /** One octet is read, sent and dropped. */
  function Leak(x: byte): seq<Event> { [AtA(ReadErr([x])), AtA(PollExtended), AtB(Receive)] }

  lemma OneLost(s0: Sys, x: byte)
    requires Leaking(s0) && s0.a.c.remoteWindow > 0
    ensures var s := Run(s0, Leak(x));
      && Leaking(s) && s.b.h.lostErr == s0.b.h.lostErr + [x] && s.b.c == s0.b.c
      && s.a.c.remoteWindow == s0.a.c.remoteWindow - 1
  {
    var trace := Leak(x);
    assert [x][..1] == [x] && [] + [x] == [x] && [x][1..] == [];
    assert ExtReadLen(s0.a.c, 1) == 1;
    var s1 := Step(s0, trace[0]);
    assert s1 == s0.(a := DoReadErr(s0.a, [x])) && s1.a.c == s0.a.c.(extended := [x]);
    var s2 := Step(s1, trace[1]);
    assert s2 == s1.(a := s1.a.(c := s0.a.c.(remoteWindow := s0.a.c.remoteWindow - 1)), ab := [Ext([x])]);
    var s := Step(s2, trace[2]);
    assert trace[1..] == [trace[1], trace[2]] && trace[1..][1..] == [trace[2]] && trace[1..][1..][1..] == [];
    assert Run(s0, trace) == Run(s1, trace[1..]) == Run(s2, trace[1..][1..]) == Run(s, []) == s;
  }

  /** It happens: stderr data for an end that does not take any is dropped without touching the
      receiver's window, so the sender's window is short by that much ever after. */
  lemma StderrLost(s0: Sys, x: byte, more: seq<Event>)
    requires Opened(s0) && Leaking(s0) && s0.a.c.remoteWindow > 0
    ensures var s := Run(s0, Leak(x) + more);
      && !Conserved(s.a, s.b, s.ab, s.ba)
      && s.a.c.remoteWindow + |DataBytes(s.ab)| + |ExtBytes(s.ab)| + Credit(s.ba) < s.b.c.localWindow
  {
    OneLost(s0, x);
    OpenedInv(s0);
    RunInv(s0, Leak(x));
    RunSplit(s0, Leak(x), more);
    WindowLostForGood(Run(s0, Leak(x)), more);
  }

  lemma {:induction false} AllLost(s: Sys, x: byte) returns (trace: seq<Event>)
    requires Leaking(s)
    ensures var s' := Run(s, trace);
      s'.b.c == s.b.c && |s'.b.h.lostErr| == |s.b.h.lostErr| + s.a.c.remoteWindow
    decreases s.a.c.remoteWindow
  {
    if s.a.c.remoteWindow == 0 {
      trace := [];
    } else {
      OneLost(s, x);
      var rest := AllLost(Run(s, Leak(x)), x);
      RunSplit(s, Leak(x), rest);
      trace := Leak(x) + rest;
    }
  }

  /** So every channel whose peer takes no stderr has a run after which it can never send again. */
  lemma StderrStops(s0: Sys, x: byte) returns (trace: seq<Event>)
    requires Opened(s0) && Leaking(s0)
    ensures forall more: seq<Event> :: Run(s0, trace + more).a.c.remoteWindow == 0
  {
    trace := AllLost(s0, x);
    OpenedInv(s0);
    RunInv(s0, trace);
    forall more: seq<Event> ensures Run(s0, trace + more).a.c.remoteWindow == 0 {
      RunSplit(s0, trace, more);
      StoppedForGood(Run(s0, trace), more);
    }
  }

  /** With losses, the same law: every octet and every unit of window is free, buffered, in
      flight, waiting to be credited, or counted as lost; and delivery is always a prefix. */
  lemma LossesAreAccounted(s0: Sys, trace: seq<Event>)
    requires Opened(s0)
    ensures var s := Run(s0, trace);
      && s.a.c.remoteWindow + |DataBytes(s.ab)| + |ExtBytes(s.ab)| + Credit(s.ba) + |s.b.h.lostErr| == s.b.c.localWindow
      && WindowSplit(s.b)
      && s.b.h.wroteOut <= s.a.h.readIn
      && s.b.h.wroteErr <= s.a.h.readErr
      && (s.b.h.lostOut != [] || s.b.h.uncredited > 0 ==> s.b.h.writeFailed)
      && (s.b.h.lostErr != [] ==> !AcceptsExt(s.b.c))
  {
    OpenedInv(s0);
    RunInv(s0, trace);
    var s := Run(s0, trace);
    PrefixOfSum(s.b.h.wroteOut, s.b.h.lostOut, s.b.c.output, DataBytes(s.ab), s.a.c.input);
    PrefixOfSum(s.b.h.wroteErr, ExtQueue(s.b.c), s.b.h.lostErr, ExtBytes(s.ab), ExtPending(s.a.c));
  }

  lemma PrefixOfSum(u: seq<byte>, v: seq<byte>, w: seq<byte>, x: seq<byte>, y: seq<byte>)
    ensures u <= u + v + w + x + y
  {
    assert u + v + w + x + y == u + (v + w + x + y);
  }

  /** Orderly half-close: once a sender has drained and sent EOF, a receiver whose writes did not
      fail closes its output only after delivering every octet the sender read, and the same for
      stderr when the descriptor is still open. */
  lemma EofDeliversAll(s0: Sys, trace: seq<Event>)
    requires Opened(s0)
    ensures var s := Run(s0, trace);
      s.a.h.cleanEof && s.b.c.ostate == OutClosed && !s.b.h.writeFailed ==>
        && s.b.h.wroteOut == s.a.h.readIn
        && (AcceptsExt(s.b.c) ==> s.b.h.wroteErr == s.a.h.readErr)
  {
    OpenedInv(s0);
    RunInv(s0, trace);
    var s := Run(s0, trace);
    if s.a.h.cleanEof && s.b.c.ostate == OutClosed && !s.b.h.writeFailed {
      NoPayload(s.ab);
      OnlyHead(s.b.h.wroteOut, s.b.h.lostOut, s.b.c.output, DataBytes(s.ab), s.a.c.input);
      if AcceptsExt(s.b.c) {
        OnlyHead(s.b.h.wroteErr, ExtQueue(s.b.c), s.b.h.lostErr, ExtBytes(s.ab), ExtPending(s.a.c));
      }
    }
  }

  lemma OnlyHead(u: seq<byte>, v: seq<byte>, w: seq<byte>, x: seq<byte>, y: seq<byte>)
    requires v == [] && w == [] && x == [] && y == []
    ensures u + v + w + x + y == u
  {
  }

  // ---- no deadlock

  predicate Drained(c: Chan) { c.output == [] && ExtQueue(c) == [] }

  /** After channel_check_window on a drained end the window is fully open, up to what a failed
      write took away, or at least half open and within three packets of the maximum. */
  lemma CheckReopens(p: Peer)
    requires EndInv(p) && Drained(p.c) && !p.c.closeSent && !p.c.closeRcvd
    ensures var c := CheckWindow(p.c).c;
      || c.localWindow + p.h.uncredited == c.localWindowMax
      || (c.localWindow >= c.localWindowMax / 2 && c.localWindowMax - c.localWindow <= 3 * c.localMaxpacket)
  {
  }

  lemma CheckedAtZero(S: Peer, p: Peer, fwd: seq<Msg>, back: seq<Msg>)
    requires EndInv(p) && Drained(p.c) && !p.c.closeSent && !p.c.closeRcvd && Sound(p) && p.c.localWindowMax >= 2
    requires WindowInv(S, p.(c := CheckWindow(p.c).c), fwd, back)
    requires S.c.remoteWindow == 0 && DataBytes(fwd) == [] && ExtBytes(fwd) == []
    ensures Credit(back) >= p.c.localWindowMax / 2 > 0
  {
    CheckReopens(p);
  }

  /** The receiver b is idle and healthy, yet a may not send and nothing is on its way to b. */
  predicate Stalled(s: Sys) {
    && Sound(s.b) && Drained(s.b.c) && !s.b.c.closeSent && !s.b.c.closeRcvd
    && s.a.c.remoteWindow == 0 && DataBytes(s.ab) == [] && ExtBytes(s.ab) == []
  }

  lemma CheckUnstalls(t: Sys)
    requires Inv(t) && t.b.c.localWindowMax >= 2
    ensures var s := Step(t, AtB(Check)); Stalled(s) ==> Credit(s.ba) >= s.b.c.localWindowMax / 2 > 0
  {
    var s := Step(t, AtB(Check));
    ActInv(Swap(t), Check);
    if Stalled(s) {
      assert !t.b.c.freed;
      assert s.b == t.b.(c := CheckWindow(t.b.c).c);
      CheckedAtZero(s.a, t.b, s.ab, s.ba);
    }
  }

  /** A sender stopped at window zero with nothing in flight has been sent at least half a window
      of credit as soon as its drained receiver has run channel_check_window. */
  lemma StalledSenderHasCredit(s0: Sys, trace: seq<Event>)
    requires Opened(s0) && s0.b.c.localWindowMax >= 2
    ensures var s := Run(s0, trace + [AtB(Check)]); Stalled(s) ==> Credit(s.ba) >= s.b.c.localWindowMax / 2 > 0
  {
    OpenedInv(s0);
    RunInv(s0, trace);
    RunSplit(s0, trace, [AtB(Check)]);
    var t := Run(s0, trace);
    assert Run(t, [AtB(Check)]) == Run(Step(t, AtB(Check)), []);
    CheckUnstalls(t);
  }

  lemma {:induction false} RunSplit(s: Sys, t1: seq<Event>, t2: seq<Event>)
    ensures Run(s, t1 + t2) == Run(Run(s, t1), t2)
    decreases |t1|
  {
    if t1 == [] {
      assert t1 + t2 == t2;
    } else {
      assert (t1 + t2)[1..] == t1[1..] + t2;
      RunSplit(Step(s, t1[0]), t1[1..], t2);
    }
  }

  // ---- progress

  /** Neither end has begun to close direction a -> b and b's descriptors work. */
  ghost predicate Flowing(s: Sys) {
    && Inv(s)
    && s.a.c.istate != InClosed && !s.a.c.closeRcvd
    && s.b.c.ostate == OutOpen && !s.b.c.closeSent
    && (AcceptsExt(s.b.c) || s.a.c.extUsage != ExtRead)
    && s.a.c.remoteMaxpacket >= 1 && s.b.c.localWindowMax >= 2
  }

  /** A message other than EOF and CLOSE leaves the receiver's halves and descriptors alone. */
  lemma ArrivesQuietly(p: Peer, m: Msg)
    requires !m.Close? && !m.Eof? && !p.c.freed && p.c.ostate == OutOpen
    ensures var p' := Arrive(p, m);
      && p'.c.ostate == OutOpen && p'.c.closeSent == p.c.closeSent
      && p'.c.localWindowMax == p.c.localWindowMax && AcceptsExt(p'.c) == AcceptsExt(p.c)
    ensures Input(p.c, m).out == None
  {
    match m
    case Data(d) =>
    case Ext(d) =>
    case Adjust(n) =>
    case Eow =>
  }

  lemma StepAtB(s: Sys, act: Action)
    requires Inv(s)
    ensures var s' := Step(s, AtB(act)); Inv(s') && s'.a == s.a
  {
    ActInv(Swap(s), act);
  }

  /** What is on its way to b while a has not begun to close. */
  lemma HeadIsOrdinary(s: Sys)
    requires Flowing(s) && s.ab != []
    ensures !s.ab[0].Close? && !s.ab[0].Eof? && !s.b.c.freed
  {
    assert s.ab[0] in s.ab;
  }

  lemma ReceiverArrival(s: Sys)
    requires Flowing(s) && s.ab != []
    ensures var s' := Step(s, AtB(Receive));
      Flowing(s') && s'.a == s.a && s'.ab == s.ab[1..]
  {
    StepAtB(s, Receive);
    HeadIsOrdinary(s);
    ArrivesQuietly(s.b, s.ab[0]);
  }

  /** The same octets are still to be sent. */
  predicate SameLoad(p: Peer, p': Peer) {
    && p'.c.input == p.c.input && ExtPending(p'.c) == ExtPending(p.c)
    && p'.h.readIn == p.h.readIn && p'.h.readErr == p.h.readErr
  }

  lemma KeepsSending(p: Peer, m: Msg)
    requires m != Close && m != Eow
    ensures var (p', o) := (Arrive(p, m), Input(p.c, m));
      o.out == None && p'.c.istate == p.c.istate && p'.c.closeRcvd == p.c.closeRcvd && SameLoad(p, p')
  {
    if m.Data? || m.Ext? {
      PayloadKeepsSending(p, m);
    }
  }

  lemma PayloadKeepsSending(p: Peer, m: Msg)
    requires m.Data? || m.Ext?
    ensures var (p', o) := (Arrive(p, m), Input(p.c, m));
      o.out == None && p'.c.istate == p.c.istate && p'.c.closeRcvd == p.c.closeRcvd && SameLoad(p, p')
  {
  }

  lemma SenderArrival(s: Sys)
    requires Flowing(s) && s.ba != []
    ensures var s' := Step(s, AtA(Receive));
      && Flowing(s') && s'.b == s.b && s'.ab == s.ab && s'.ba == s.ba[1..] && SameLoad(s.a, s'.a)
  {
    ActInv(s, Receive);
    var m := s.ba[0];
    assert m in s.ba;
    KeepsSending(s.a, m);
  }

  lemma {:induction false} EmptyForward(s: Sys) returns (trace: seq<Event>)
    requires Flowing(s)
    ensures var s' := Run(s, trace); Flowing(s') && s'.a == s.a && s'.ab == []
    decreases |s.ab|
  {
    if s.ab == [] {
      trace := [];
    } else {
      ReceiverArrival(s);
      var rest := EmptyForward(Step(s, AtB(Receive)));
      trace := [AtB(Receive)] + rest;
      assert trace[1..] == rest;
    }
  }

  lemma {:induction false} EmptyBack(s: Sys) returns (trace: seq<Event>)
    requires Flowing(s)
    ensures var s' := Run(s, trace);
      && Flowing(s') && s'.b == s.b && s'.ab == s.ab && s'.ba == [] && SameLoad(s.a, s'.a)
    decreases |s.ba|
  {
    if s.ba == [] {
      trace := [];
    } else {
      SenderArrival(s);
      var rest := EmptyBack(Step(s, AtA(Receive)));
      trace := [AtA(Receive)] + rest;
      assert trace[1..] == rest;
    }
  }

  lemma WriteOutput(s: Sys, e: Event)
    requires Flowing(s) && e == AtB(Write(Moved(|s.b.c.output|)))
    ensures var s' := Step(s, e);
      Flowing(s') && s'.a == s.a && s'.ab == s.ab && s'.b.c.output == []
  {
    StepAtB(s, e.act);
    WroteAll(s.b);
  }

  lemma WroteAll(p: Peer)
    requires !p.c.freed && p.c.ostate == OutOpen
    ensures var (p', out) := DoWrite(p, Moved(|p.c.output|));
      && out == None && p'.c.output == [] && p'.c.ostate == OutOpen && p'.c.closeSent == p.c.closeSent
      && AcceptsExt(p'.c) == AcceptsExt(p.c) && p'.c.localWindowMax == p.c.localWindowMax
  {
  }

  lemma WriteExtended(s: Sys, e: Event)
    requires Flowing(s) && s.b.c.output == [] && e == AtB(WriteErr(Moved(|s.b.c.extended|)))
    ensures var s' := Step(s, e);
      Flowing(s') && s'.a == s.a && s'.ab == s.ab && Drained(s'.b.c)
  {
    StepAtB(s, e.act);
    WroteAllErr(s.b);
  }

  lemma WroteAllErr(p: Peer)
    requires !p.c.freed && p.c.ostate == OutOpen && p.c.output == []
    ensures var p' := DoWriteErr(p, Moved(|p.c.extended|));
      && p'.h.lostErr == p.h.lostErr && p'.c.ostate == OutOpen && p'.c.closeSent == p.c.closeSent
      && AcceptsExt(p'.c) == AcceptsExt(p.c) && p'.c.output == [] && p'.c.localWindowMax == p.c.localWindowMax
      && (AcceptsExt(p.c) ==> ExtQueue(p'.c) == []) && (!AcceptsExt(p.c) ==> ExtQueue(p'.c) == ExtQueue(p.c))
  {
  }

  lemma WriteAll(s: Sys) returns (trace: seq<Event>)
    requires Flowing(s)
    ensures var s' := Run(s, trace);
      Flowing(s') && s'.a == s.a && s'.ab == s.ab && Drained(s'.b.c)
  {
    var e1 := AtB(Write(Moved(|s.b.c.output|)));
    WriteOutput(s, e1);
    var s1 := Step(s, e1);
    var e2 := AtB(WriteErr(Moved(|s1.b.c.extended|)));
    WriteExtended(s1, e2);
    trace := [e1, e2];
    assert trace[1..] == [e2];
    assert Run(s1, [e2]) == Run(Step(s1, e2), []);
  }

  /** The receiver's window check on a drained end with nothing on its way to it. */
  lemma CheckOpens(s: Sys)
    requires Flowing(s) && Drained(s.b.c) && s.ab == []
    ensures var s' := Step(s, AtB(Check));
      Flowing(s') && Drained(s'.b.c) && s'.a == s.a && s'.ab == [] && s'.b.c.localWindow > 0
  {
    var o := CheckWindow(s.b.c);
    assert Step(s, AtB(Check)) == s.(b := s.b.(c := o.c), ba := Queue(s.ba, o.out)) by { CheckedWindow(s.b); }
    StepAtB(s, Check);
    CheckedWindow(s.b);
  }

  lemma CheckedWindow(p: Peer)
    requires EndInv(p) && Drained(p.c) && !p.c.closeSent && !p.c.closeRcvd
    requires p.c.ostate == OutOpen && p.c.localWindowMax >= 2
    ensures var c := CheckWindow(p.c).c; c.localWindow > 0 && c == p.c.(localWindow := c.localWindow, localConsumed := c.localConsumed)
  {
    CheckReopens(p);
    assert p.h.uncredited == 0;
  }

  /** With both links empty all of the receiver's window is the sender's. */
  lemma WindowArrived(s: Sys)
    requires Flowing(s) && s.ab == [] && s.ba == [] && s.b.c.localWindow > 0
    ensures s.a.c.remoteWindow > 0
  {
    assert s.b.h.lostErr == [];
  }

  lemma RunOne(s: Sys, e: Event)
    ensures Run(s, [e]) == Step(s, e)
  {
    assert [e][1..] == [];
  }

  /** From any flowing state there is a continuation that opens the sender's window. */
  lemma Refill(s: Sys) returns (trace: seq<Event>)
    requires Flowing(s)
    ensures var s' := Run(s, trace);
      && Flowing(s') && SameLoad(s.a, s'.a)
      && s'.ab == [] && Drained(s'.b.c) && s'.a.c.remoteWindow > 0
  {
    var t1 := EmptyForward(s);
    var s1 := Run(s, t1);
    var t2 := WriteAll(s1);
    var s2 := Run(s1, t2);
    CheckOpens(s2);
    RunOne(s2, AtB(Check));
    var s3 := Step(s2, AtB(Check));
    var t4 := EmptyBack(s3);
    WindowArrived(Run(s3, t4));
    RunSplit(s, t1, t2);
    RunSplit(s, t1 + t2, [AtB(Check)]);
    RunSplit(s, t1 + t2 + [AtB(Check)], t4);
    trace := t1 + t2 + [AtB(Check)] + t4;
  }

  lemma AllDelivered(s: Sys)
    requires Flowing(s) && s.a.c.input == [] && ExtPending(s.a.c) == [] && s.ab == [] && Drained(s.b.c)
    ensures s.b.h.wroteOut == s.a.h.readIn && s.b.h.wroteErr == s.a.h.readErr
  {
    SoundIsConserved(s.a, s.b, s.ab, s.ba);
    assert s.b.h.wroteOut + [] + [] + [] == s.b.h.wroteOut;
    assert s.b.h.wroteErr + [] + [] + [] == s.b.h.wroteErr;
  }

  function Load(p: Peer): nat { |p.c.input| + |ExtPending(p.c)| }

  /** With an open window the sender gets rid of something. */
  lemma SendInput(s: Sys)
    requires Flowing(s) && s.a.c.remoteWindow > 0 && s.a.c.input != []
    ensures var s' := Step(s, AtA(PollInput));
      && Flowing(s') && Load(s'.a) < Load(s.a)
      && s'.a.h.readIn == s.a.h.readIn && s'.a.h.readErr == s.a.h.readErr
  {
    ActInv(s, PollInput);
    var n := SendLen(s.a.c, |s.a.c.input|);
    assert 0 < n && !s.a.c.closeSent;
    assert PollInputOpen(s.a.c).c == s.a.c.(input := s.a.c.input[n..], remoteWindow := U32.Sub(s.a.c.remoteWindow, n));
  }

  lemma SendExtended(s: Sys)
    requires Flowing(s) && s.a.c.remoteWindow > 0 && ExtPending(s.a.c) != []
    ensures var s' := Step(s, AtA(PollExtended));
      && Flowing(s') && Load(s'.a) < Load(s.a)
      && s'.a.h.readIn == s.a.h.readIn && s'.a.h.readErr == s.a.h.readErr
  {
    ActInv(s, PollExtended);
  }

  /** No reachable state is stuck: every octet the sender holds can still be delivered. */
  lemma {:induction false} Deliver(s: Sys) returns (trace: seq<Event>)
    requires Flowing(s)
    ensures var s' := Run(s, trace); s'.b.h.wroteOut == s.a.h.readIn && s'.b.h.wroteErr == s.a.h.readErr
    decreases Load(s.a)
  {
    var t1 := Refill(s);
    var s1 := Run(s, t1);
    if Load(s1.a) == 0 {
      trace := t1;
      AllDelivered(s1);
    } else {
      var e := AtA(if s1.a.c.input != [] then PollInput else PollExtended);
      if s1.a.c.input != [] { SendInput(s1); } else { SendExtended(s1); }
      RunOne(s1, e);
      var rest := Deliver(Step(s1, e));
      RunSplit(s, t1, [e]);
      RunSplit(s, t1 + [e], rest);
      trace := t1 + [e] + rest;
    }
  }

  /** In s' the receiver has written out what the sender had read in s. */
  predicate DeliversAll(s': Sys, s: Sys) {
    s'.b.h.wroteOut == s.a.h.readIn && s'.b.h.wroteErr == s.a.h.readErr
  }

  /** The same over runs: a run that has not begun to close direction a -> b has a continuation
      that delivers everything a has read, on both streams. */
  lemma FlowNeverSticks(s0: Sys, trace: seq<Event>)
    requires Opened(s0) && s0.a.c.remoteMaxpacket >= 1 && s0.b.c.localWindowMax >= 2
    ensures var s := Run(s0, trace);
      && s.a.c.istate != InClosed && !s.a.c.closeRcvd && s.b.c.ostate == OutOpen && !s.b.c.closeSent
      && (AcceptsExt(s.b.c) || s.a.c.extUsage != ExtRead)
      ==> exists more :: DeliversAll(Run(s0, trace + more), s)
  {
    OpenedInv(s0);
    RunInv(s0, trace);
    var s := Run(s0, trace);
    if Flowing(s) {
      var more := Deliver(s);
      RunSplit(s0, trace, more);
      assert DeliversAll(Run(s0, trace + more), s);
    }
  }
}
