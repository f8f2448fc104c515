/**
 * One end of an SSH stream channel: flow control (channels.c) and the half-close
 * automaton (nchan.c).
 *
 * `ChannelSteps` gives every handler as a function on the value of a channel;
 * `ChannelObject` is the mutable channel whose methods are proved to compute them.
 * Unsigned C fields use the wrapping operators of `U32`.
 */
module ChannelSteps {
  import opened Octets
  import U32

  const CHANNEL_MAX_READ: nat := 32 * 1024
  const CHAN_RBUF: nat := 16 * 1024
  const CHAN_INPUT_MAX: nat := 16 * 1024 * 1024

  datatype InState = InOpen | InWaitDrain | InClosed
  datatype OutState = OutOpen | OutWaitDrain | OutClosed
  datatype ExtUsage = ExtIgnore | ExtRead | ExtWrite

  /** Channel messages of RFC 4254 that one end sends to the other. */
  datatype Msg =
    | Data(data: seq<byte>)
    | Ext(data: seq<byte>)
    | Adjust(credit: nat)
    | Eof
    | Close
    | Eow

  /** What a read(2) or write(2) on one of the channel's descriptors did. */
  datatype Io = Again | Failed | Moved(n: nat)

  datatype Chan = Chan(
    istate: InState, ostate: OutState,
    eofSent: bool, eofRcvd: bool, closeSent: bool, closeRcvd: bool, freed: bool,
    input: seq<byte>, output: seq<byte>, extended: seq<byte>,
    remoteWindow: nat, remoteMaxpacket: nat,
    localWindow: nat, localWindowMax: nat, localConsumed: nat, localMaxpacket: nat,
    extUsage: ExtUsage, efdOpen: bool, session: bool)

  /** The result of a handler: the channel afterwards, the message it queued, and whether
      it ended in a `fatal`, a disconnect or a "too much data" drop. */
  datatype Outcome = Outcome(c: Chan, out: Option<Msg>, fault: bool)

  function Quiet(c: Chan): Outcome { Outcome(c, None, false) }

  predicate ExtInputActive(c: Chan) {
    c.extUsage == ExtRead && (c.efdOpen || |c.extended| > 0)
  }

  predicate ExtOutputActive(c: Chan) {
    c.extUsage == ExtWrite && c.efdOpen && (!(c.eofRcvd || c.closeRcvd) || |c.extended| > 0)
  }

  // ---- reading from the local descriptors

  /** How many of `avail` readable octets channel_handle_rfd takes. */
  function ReadLen(c: Chan, avail: nat): (n: nat)
    ensures n <= avail
    ensures n > 0 ==> |c.input| + n <= c.remoteWindow
  {
    if c.istate == InOpen && |c.input| < c.remoteWindow && |c.input| + CHAN_RBUF <= CHAN_INPUT_MAX then
      U32.Min(avail, U32.Min(CHANNEL_MAX_READ,
                             U32.Min(c.remoteWindow - |c.input|, CHAN_INPUT_MAX - |c.input|)))
    else 0
  }

  function HandleRfd(c: Chan, avail: seq<byte>): Chan {
    c.(input := c.input + avail[..ReadLen(c, |avail|)])
  }

  function ReadFailed(c: Chan): Chan {
    if c.istate == InOpen then c.(istate := InWaitDrain) else c
  }

  function ExtReadLen(c: Chan, avail: nat): (n: nat)
    ensures n <= avail
  {
    if c.efdOpen && c.extUsage != ExtWrite && !c.eofSent && |c.extended| < c.remoteWindow
       && !(c.istate == InClosed && c.ostate == OutClosed)
    then U32.Min(avail, CHAN_RBUF) else 0
  }

  function HandleEfdRead(c: Chan, avail: seq<byte>): Chan {
    if c.extUsage == ExtRead then c.(extended := c.extended + avail[..ExtReadLen(c, |avail|)]) else c
  }

  function CloseEfd(c: Chan): Chan { c.(efdOpen := false) }

  // ---- sending to the peer

  function SendEof(c: Chan): Outcome {
    Outcome(c.(eofSent := true), Some(Eof), false)
  }

  function IbufEmpty(c: Chan): Outcome {
    if |c.input| == 0 && c.istate == InWaitDrain then
      var o := if !c.closeSent then SendEof(c) else Quiet(c);
      o.(c := o.c.(istate := InClosed))
    else Quiet(c)
  }

  function SendLen(c: Chan, have: nat): (n: nat)
    ensures n <= have && n <= c.remoteWindow && n <= c.remoteMaxpacket
  {
    U32.Min(U32.Min(have, c.remoteWindow), c.remoteMaxpacket)
  }

  function PollInputOpen(c: Chan): Outcome {
    if c.closeSent || c.closeRcvd || c.istate == InClosed then Quiet(c)
    else if |c.input| == 0 then
      if c.istate == InWaitDrain && !ExtInputActive(c) then IbufEmpty(c) else Quiet(c)
    else
      var len := SendLen(c, |c.input|);
      if len == 0 then Quiet(c)
      else Outcome(c.(input := c.input[len..], remoteWindow := U32.Sub(c.remoteWindow, len)),
                   Some(Data(c.input[..len])), false)
  }

  function PollExtendedRead(c: Chan): Outcome {
    if c.closeSent || c.closeRcvd || c.eofSent || c.extUsage != ExtRead then Quiet(c)
    else
      var len := SendLen(c, |c.extended|);
      if len == 0 then Quiet(c)
      else Outcome(c.(extended := c.extended[len..], remoteWindow := U32.Sub(c.remoteWindow, len)),
                   Some(Ext(c.extended[..len])), false)
  }

  predicate WantsAdjust(c: Chan) {
    && !c.closeSent && !c.closeRcvd
    && (U32.Sub(c.localWindowMax, c.localWindow) > U32.Mul(c.localMaxpacket, 3)
        || c.localWindow < c.localWindowMax / 2)
    && c.localConsumed > 0
  }

  function CheckWindow(c: Chan): Outcome {
    if WantsAdjust(c) then
      Outcome(c.(localWindow := U32.Add(c.localWindow, c.localConsumed), localConsumed := 0),
              Some(Adjust(c.localConsumed)), false)
    else Quiet(c)
  }

  // ---- writing to the local descriptors

  /** The pre-poll test that lets channel_handle_wfd run at all. */
  predicate WantsWrite(c: Chan) {
    c.ostate != OutClosed && |c.output| > 0
  }

  function ShutdownWrite(c: Chan): Chan { c.(output := []) }

  function WriteFailed(c: Chan): Outcome {
    if c.ostate == OutClosed then Quiet(c)
    else Outcome(ShutdownWrite(c).(ostate := OutClosed), if c.session then Some(Eow) else None, false)
  }

  function HandleWfd(c: Chan, w: Io): Outcome {
    if !WantsWrite(c) then Quiet(c)
    else match w
      case Again => Quiet(c)
      case Failed => WriteFailed(c)
      case Moved(n) =>
        if 0 < n <= |c.output| then
          Quiet(c.(output := c.output[n..], localConsumed := U32.Add(c.localConsumed, n)))
        else Quiet(c)
  }

  predicate WantsExtWrite(c: Chan) {
    c.efdOpen && c.extUsage == ExtWrite && |c.extended| > 0 && !(c.istate == InClosed && c.ostate == OutClosed)
  }

  function HandleEfdWrite(c: Chan, w: Io): Chan {
    if !WantsExtWrite(c) then c
    else match w
      case Again => c
      case Failed => CloseEfd(c)
      case Moved(n) =>
        if 0 < n <= |c.extended| then
          c.(extended := c.extended[n..], localConsumed := U32.Add(c.localConsumed, n))
        else c
  }

  function ObufEmpty(c: Chan): Chan {
    if |c.output| == 0 && c.ostate == OutWaitDrain then ShutdownWrite(c).(ostate := OutClosed) else c
  }

  /** The draining test of channel_pre_open. */
  function PreOpen(c: Chan): Chan {
    if c.ostate == OutWaitDrain && |c.output| == 0 && !ExtOutputActive(c) then ObufEmpty(c) else c
  }

  /** channel_garbage_collect: send our CLOSE when both halves are closed, free when both passed. */
  function GarbageCollect(c: Chan): Outcome {
    if c.freed || c.istate != InClosed || c.ostate != OutClosed then Quiet(c)
    else
      var o := if c.closeSent then Quiet(c) else Outcome(c.(closeSent := true), Some(Close), false);
      if o.c.closeRcvd then o.(c := o.c.(freed := true)) else o
  }

  // ---- messages from the peer

  function InputData(c: Chan, data: seq<byte>): Outcome {
    if c.ostate != OutOpen then
      Quiet(c.(localWindow := U32.Sub(c.localWindow, |data|),
               localConsumed := U32.Add(c.localConsumed, |data|)))
    else if |data| > c.localMaxpacket || |data| > c.localWindow then Outcome(c, None, true)
    else Quiet(c.(localWindow := U32.Sub(c.localWindow, |data|), output := c.output + data))
  }

  predicate AcceptsExt(c: Chan) { c.efdOpen && c.extUsage == ExtWrite }

  function InputExtendedData(c: Chan, data: seq<byte>): Outcome {
    if c.eofRcvd then Outcome(c, None, true)
    else if !AcceptsExt(c) then Quiet(c)
    else if |data| > c.localWindow then Outcome(c, None, true)
    else Quiet(c.(extended := c.extended + data, localWindow := U32.Sub(c.localWindow, |data|)))
  }

  function InputWindowAdjust(c: Chan, credit: nat): Outcome {
    var rwin := U32.Add(c.remoteWindow, credit);
    if rwin < c.remoteWindow then Outcome(c, None, true) else Quiet(c.(remoteWindow := rwin))
  }

  function RcvdIeof(c: Chan): Chan {
    var c1 := c.(eofRcvd := true);
    var c2 := if c1.ostate == OutOpen then c1.(ostate := OutWaitDrain) else c1;
    if c2.ostate == OutWaitDrain && |c2.output| == 0 && !ExtOutputActive(c2) then ObufEmpty(c2) else c2
  }

  function RcvdOclose(c: Chan): Outcome {
    var c1 := c.(closeRcvd := true, ostate := if c.ostate == OutOpen then OutWaitDrain else c.ostate);
    CloseInput(c1)
  }

  function CloseInput(c: Chan): Outcome {
    if c.istate == InClosed then Quiet(c)
    else
      var c2 := c.(istate := InClosed, efdOpen := c.efdOpen && c.extUsage == ExtWrite);
      if c.istate == InWaitDrain then SendEof(c2) else Quiet(c2)
  }

  function RcvdEow(c: Chan): Chan {
    if c.istate == InOpen then c.(istate := InClosed) else c
  }

  /** Dispatch of one message; a freed channel has no slot, so any message to it is an error. */
  function Input(c: Chan, m: Msg): Outcome {
    if c.freed then Outcome(c, None, true)
    else match m
      case Data(d) => InputData(c, d)
      case Ext(d) => InputExtendedData(c, d)
      case Adjust(n) => InputWindowAdjust(c, n)
      case Eof => Quiet(RcvdIeof(c))
      case Close => RcvdOclose(c)
      case Eow => Quiet(RcvdEow(c))
  }
}

/** The mutable channel: each method updates the fields in place as its C counterpart does. */
module ChannelObject {
  import opened Octets
  import opened ChannelSteps
  import U32

  class Channel {
    var istate: InState
    var ostate: OutState
    var eofSent: bool
    var eofRcvd: bool
    var closeSent: bool
    var closeRcvd: bool
    var freed: bool
    var input: seq<byte>
    var output: seq<byte>
    var extended: seq<byte>
    var remoteWindow: nat
    var remoteMaxpacket: nat
    var localWindow: nat
    var localWindowMax: nat
    var localConsumed: nat
    var localMaxpacket: nat
    var extUsage: ExtUsage
    var efdOpen: bool
    var session: bool

    function View(): Chan
      reads this
    {
      Chan(istate, ostate, eofSent, eofRcvd, closeSent, closeRcvd, freed, input, output, extended,
           remoteWindow, remoteMaxpacket, localWindow, localWindowMax, localConsumed, localMaxpacket,
           extUsage, efdOpen, session)
    }

    /** `avail` is what read(2) could return; `taken` is what it does return. */
    method DoHandleRfd(avail: seq<byte>) returns (taken: seq<byte>)
      modifies this`input
      ensures View() == HandleRfd(old(View()), avail)
      ensures taken <= avail && input == old(input) + taken
      ensures istate == InOpen ==> |input| <= remoteWindow || taken == []
    {
      taken := [];
      if istate != InOpen || |input| + CHAN_RBUF > CHAN_INPUT_MAX {
        return;
      }
      var maxlen := CHANNEL_MAX_READ;
      var have := |input|;
      if have >= remoteWindow {
        return;
      }
      if maxlen > remoteWindow - have {
        maxlen := remoteWindow - have;
      }
      if maxlen > CHAN_INPUT_MAX - have {
        maxlen := CHAN_INPUT_MAX - have;
      }
      taken := avail[..U32.Min(|avail|, maxlen)];
      input := input + taken;
    }

    method DoPollInputOpen() returns (out: Option<Msg>)
      modifies this
      ensures PollInputOpen(old(View())) == Outcome(View(), out, false)
    {
      out := None;
      if closeSent || closeRcvd || istate == InClosed {
        return;
      }
      var len := |input|;
      if len == 0 {
        if istate == InWaitDrain && !(extUsage == ExtRead && (efdOpen || |extended| > 0)) {
          out := Some(Eof);
          eofSent := true;
          istate := InClosed;
        }
        return;
      }
      if len > remoteWindow {
        len := remoteWindow;
      }
      if len > remoteMaxpacket {
        len := remoteMaxpacket;
      }
      if len == 0 {
        return;
      }
      out := Some(Data(input[..len]));
      input := input[len..];
      remoteWindow := U32.Sub(remoteWindow, len);
    }

    method DoPollExtendedRead() returns (out: Option<Msg>)
      modifies this`extended, this`remoteWindow
      ensures PollExtendedRead(old(View())) == Outcome(View(), out, false)
    {
      out := None;
      if closeSent || closeRcvd || eofSent || extUsage != ExtRead {
        return;
      }
      var len := |extended|;
      if len > remoteWindow {
        len := remoteWindow;
      }
      if len > remoteMaxpacket {
        len := remoteMaxpacket;
      }
      if len == 0 {
        return;
      }
      out := Some(Ext(extended[..len]));
      extended := extended[len..];
      remoteWindow := U32.Sub(remoteWindow, len);
    }

    method DoWriteFailed() returns (out: Option<Msg>)
      modifies this`output, this`ostate
      ensures WriteFailed(old(View())) == Outcome(View(), out, false)
    {
      out := None;
      if ostate != OutClosed {
        output := [];
        if session {
          out := Some(Eow);
        }
        ostate := OutClosed;
      }
    }

    method DoHandleWfd(w: Io) returns (out: Option<Msg>)
      modifies this`output, this`ostate, this`localConsumed
      ensures HandleWfd(old(View()), w) == Outcome(View(), out, false)
    {
      out := None;
      if ostate == OutClosed || |output| == 0 {
        return;
      }
      var olen := |output|;
      match w
      case Again =>
      case Failed => out := DoWriteFailed();
      case Moved(n) =>
        if 0 < n <= olen {
          output := output[n..];
          localConsumed := U32.Add(localConsumed, olen - |output|);
        }
    }

    method DoHandleEfdWrite(w: Io)
      modifies this`extended, this`efdOpen, this`localConsumed
      ensures HandleEfdWrite(old(View()), w) == View()
    {
      if !efdOpen || extUsage != ExtWrite || |extended| == 0 || (istate == InClosed && ostate == OutClosed) {
        return;
      }
      match w
      case Again =>
      case Failed => efdOpen := false;
      case Moved(n) =>
        if 0 < n <= |extended| {
          extended := extended[n..];
          localConsumed := U32.Add(localConsumed, n);
        }
    }

    method DoCheckWindow() returns (out: Option<Msg>)
      modifies this`localWindow, this`localConsumed
      ensures CheckWindow(old(View())) == Outcome(View(), out, false)
    {
      out := None;
      if !closeSent && !closeRcvd
         && (U32.Sub(localWindowMax, localWindow) > U32.Mul(localMaxpacket, 3) || localWindow < localWindowMax / 2)
         && localConsumed > 0
      {
        out := Some(Adjust(localConsumed));
        localWindow := U32.Add(localWindow, localConsumed);
        localConsumed := 0;
      }
    }

    method DoInputData(data: seq<byte>) returns (fault: bool)
      modifies this`localWindow, this`localConsumed, this`output
      ensures InputData(old(View()), data) == Outcome(View(), None, fault)
    {
      fault := false;
      var winLen := |data|;
      if ostate != OutOpen {
        localWindow := U32.Sub(localWindow, winLen);
        localConsumed := U32.Add(localConsumed, winLen);
        return;
      }
      if winLen > localMaxpacket {
        return true;
      }
      if winLen > localWindow {
        return true;
      }
      localWindow := U32.Sub(localWindow, winLen);
      output := output + data;
    }

    method DoInputExtendedData(data: seq<byte>) returns (fault: bool)
      modifies this`localWindow, this`extended
      ensures InputExtendedData(old(View()), data) == Outcome(View(), None, fault)
    {
      fault := false;
      if eofRcvd {
        return true;
      }
      if !efdOpen || extUsage != ExtWrite {
        return;
      }
      if |data| > localWindow {
        return true;
      }
      extended := extended + data;
      localWindow := U32.Sub(localWindow, |data|);
    }

    method DoInputWindowAdjust(adjust: nat) returns (fault: bool)
      modifies this`remoteWindow
      ensures InputWindowAdjust(old(View()), adjust) == Outcome(View(), None, fault)
    {
      var newRwin := U32.Add(remoteWindow, adjust);
      fault := newRwin < remoteWindow;
      if !fault {
        remoteWindow := newRwin;
      }
    }

    method DoObufEmpty()
      modifies this`output, this`ostate
      ensures View() == ObufEmpty(old(View()))
    {
      if |output| == 0 && ostate == OutWaitDrain {
        output := [];
        ostate := OutClosed;
      }
    }

    method DoRcvdIeof()
      modifies this`eofRcvd, this`ostate, this`output
      ensures View() == RcvdIeof(old(View()))
    {
      eofRcvd := true;
      if ostate == OutOpen {
        ostate := OutWaitDrain;
      }
      if ostate == OutWaitDrain && |output| == 0 && !ExtOutputActive(View()) {
        DoObufEmpty();
      }
    }

    method DoRcvdOclose() returns (out: Option<Msg>)
      modifies this`closeRcvd, this`ostate, this`istate, this`efdOpen, this`eofSent
      ensures RcvdOclose(old(View())) == Outcome(View(), out, false)
    {
      closeRcvd := true;
      if ostate == OutOpen {
        ostate := OutWaitDrain;
      }
      out := DoCloseInput();
    }

    /** The second half of chan_rcvd_oclose: the input is closed without being drained. */
    method DoCloseInput() returns (out: Option<Msg>)
      modifies this`istate, this`efdOpen, this`eofSent
      ensures CloseInput(old(View())) == Outcome(View(), out, false)
    {
      out := None;
      match istate
      case InOpen =>
        DoShutdownExtendedRead();
        istate := InClosed;
      case InWaitDrain =>
        out := Some(Eof);
        eofSent := true;
        DoShutdownExtendedRead();
        istate := InClosed;
      case InClosed =>
    }

    /** A stderr descriptor that is only read from is closed. */
    method DoShutdownExtendedRead()
      modifies this`efdOpen
      ensures efdOpen == (old(efdOpen) && extUsage == ExtWrite)
    {
      if extUsage != ExtWrite {
        efdOpen := false;
      }
    }

    /** chan_is_dead with do_send, then channel_free. */
    method DoGarbageCollect() returns (out: Option<Msg>)
      modifies this`closeSent, this`freed
      ensures GarbageCollect(old(View())) == Outcome(View(), out, false)
    {
      out := None;
      if freed || istate != InClosed || ostate != OutClosed {
        return;
      }
      if !closeSent {
        out := Some(Close);
        closeSent := true;
      }
      if closeSent && closeRcvd {
        freed := true;
      }
    }
  }
}
