/**
 * The channel table of channels.c and the mux proxy that lets several mux clients share one
 * connection by rewriting channel ids. A pointer to a channel is the slot it was allocated in
 * together with a serial number that is never given out again, so a pointer kept after a free is
 * distinguishable from one to a later channel in the same slot.
 */
module MuxTable {
  import opened Octets
  import opened Wire

  const CHANNELS_MAX_CHANNELS: nat := 16 * 1024

  const GLOBAL_REQUEST: nat := 80
  const OPEN: nat := 90
  const OPEN_CONFIRMATION: nat := 91
  const OPEN_FAILURE: nat := 92
  const WINDOW_ADJUST: nat := 93
  const DATA: nat := 94
  const EXTENDED_DATA: nat := 95
  const EOF: nat := 96
  const CLOSE: nat := 97
  const REQUEST: nat := 98
  const SUCCESS: nat := 99
  const FAILURE: nat := 100

  /** "tcpip-forward". */
  const TCPIP_FORWARD: cstring := [116, 99, 112, 105, 112, 45, 102, 111, 114, 119, 97, 114, 100]

  datatype Kind = MuxClient | MuxProxy | Open | Public | Private | Zombie

  datatype Ptr = Ptr(slot: nat, serial: nat)

  /** The flags CHAN_CLOSE_SENT and CHAN_CLOSE_RCVD. */
  datatype Closes = Closes(sent: bool, rcvd: bool)

  /** `shut` says that both halves of the channel are closed. */
  datatype Chan = Chan(self: nat, serial: nat, kind: Kind, ctx: Option<Ptr>, downId: nat,
                       remote: Option<nat>, closes: Closes, shut: bool)

  datatype Perm = Perm(host: cstring, port: nat, downstream: Option<Ptr>)

  type Slots = seq<Option<Chan>>

  datatype Table = Table(slots: Slots, perms: seq<Perm>, next: nat)

  /** A packet sent to the server, or queued for a mux client. */
  datatype Out = Up(kind: nat, body: seq<byte>) | Down(client: Ptr, kind: nat, body: seq<byte>)

  function PtrTo(c: Chan): Ptr { Ptr(c.self, c.serial) }

  predicate Used(s: Slots, i: nat) { i < |s| && s[i].Some? }

  /** The pointer leads to the channel it was taken from. */
  predicate Live(s: Slots, p: Ptr) { Used(s, p.slot) && s[p.slot].value.serial == p.serial }

  predicate LiveClient(s: Slots, p: Ptr) { Live(s, p) && s[p.slot].value.kind == MuxClient }

  // ---- allocation

  function FreeSlot(s: Slots, i: nat): (r: nat)
    requires i <= |s|
    ensures i <= r <= |s| && (r < |s| ==> s[r] == None)
    ensures forall k :: i <= k < r ==> s[k].Some?
    decreases |s| - i
  {
    if i == |s| || s[i] == None then i else FreeSlot(s, i + 1)
  }

  const TEN_FREE: Slots := [None, None, None, None, None, None, None, None, None, None]

  function Blank(self: nat, serial: nat, kind: Kind): Chan {
    Chan(self, serial, kind, None, 0, None, Closes(false, false), false)
  }

  /** channel_new: None is the fatal exit for a table that is already too large. */
  function New(t: Table, c: Chan): Option<Table> {
    var i := FreeSlot(t.slots, 0);
    if i == |t.slots| && |t.slots| > CHANNELS_MAX_CHANNELS then None
    else
      var s := if i == |t.slots| then t.slots + TEN_FREE else t.slots;
      Some(t.(slots := s[i := Some(c.(self := i, serial := t.next))], next := t.next + 1))
  }

  // ---- freeing

  /** A proxy of the client being freed becomes a plain channel about to close. */
  function Detach(o: Option<Chan>, c: Chan): Option<Chan> {
    if o.Some? && c.kind == MuxClient && o.value.kind == MuxProxy && o.value.ctx == Some(PtrTo(c))
    then Some(o.value.(kind := Open, ctx := None, shut := true))
    else o
  }

  function DetachAll(s: Slots, c: Chan, n: nat): (r: Slots)
    requires n <= |s|
    ensures |r| == |s|
    ensures forall i :: 0 <= i < n ==> r[i] == Detach(s[i], c)
    ensures forall i :: n <= i < |s| ==> r[i] == s[i]
  {
    if n == 0 then s else DetachAll(s, c, n - 1)[n - 1 := Detach(s[n - 1], c)]
  }

  function ClearPerm(p: Perm, c: Chan): Perm {
    if p.downstream == Some(PtrTo(c)) then Perm([], 0, None) else p
  }

  function ClearPerms(ps: seq<Perm>, c: Chan, n: nat): (r: seq<Perm>)
    requires n <= |ps|
    ensures |r| == |ps|
    ensures forall i :: 0 <= i < n ==> r[i] == ClearPerm(ps[i], c)
    ensures forall i :: n <= i < |ps| ==> r[i] == ps[i]
  {
    if n == 0 then ps else ClearPerms(ps, c, n - 1)[n - 1 := ClearPerm(ps[n - 1], c)]
  }

  /** channel_free of the channel in slot i. */
  function Free(t: Table, i: nat): Table
    requires Used(t.slots, i)
  {
    var c := t.slots[i].value;
    t.(slots := DetachAll(t.slots, c, |t.slots|)[i := None],
       perms := if c.kind == MuxClient then ClearPerms(t.perms, c, |t.perms|) else t.perms)
  }

  // ---- lookup

  function ByRemote(s: Slots, r: nat, i: nat): (k: nat)
    requires i <= |s|
    ensures i <= k <= |s| && (k < |s| ==> s[k].Some? && s[k].value.remote == Some(r))
    ensures forall j :: i <= j < k && s[j].Some? ==> s[j].value.remote != Some(r)
    decreases |s| - i
  {
    if i == |s| || (s[i].Some? && s[i].value.remote == Some(r)) then i else ByRemote(s, r, i + 1)
  }

  /** channel_lookup: the channels that may receive protocol messages. */
  predicate Reachable(s: Slots, id: nat) {
    Used(s, id) && (s[id].value.kind == MuxProxy || s[id].value.kind == Open || s[id].value.kind == Public)
  }

  // ---- messages

  datatype Next = Next(t: Table, outs: seq<Out>)

  /** The answer of a mux client callback: refusal makes the caller mark the client dead. */
  datatype Answer = Sent(next: Next) | Refused | Fatal

  function AddProxy(t: Table, c: Chan, kind: nat, before: seq<byte>, after: seq<byte>): Answer {
    match New(t, c)
    case None => Fatal
    case Some(t') => Sent(Next(t', [Up(kind, before + U32(FreeSlot(t.slots, 0)) + after)]))
  }

  function Proxy(client: Ptr, id: nat, remote: Option<nat>): Chan {
    Blank(0, 0, MuxProxy).(ctx := Some(client), downId := id, remote := remote)
  }

  function DownOpen(t: Table, client: Ptr, body: seq<byte>): Answer {
    match GetCStr(body)
    case None => Refused
    case Some(ctype) =>
      match GetInt(ctype.rest, 4)
      case None => Refused
      case Some(id) => AddProxy(t, Proxy(client, id.value, None), OPEN, Str(ctype.value), id.rest)
  }

  function DownConfirm(t: Table, client: Ptr, body: seq<byte>): Answer {
    match GetInt(body, 4)
    case None => Refused
    case Some(remote) =>
      match GetInt(remote.rest, 4)
      case None => Refused
      case Some(id) =>
        AddProxy(t, Proxy(client, id.value, Some(remote.value)), OPEN_CONFIRMATION, U32(remote.value), id.rest)
  }

  function DownForward(t: Table, client: Ptr, body: seq<byte>): Answer {
    match GetCStr(body)
    case None => Refused
    case Some(ctype) =>
      if ctype.value != TCPIP_FORWARD then Refused
      else match GetInt(ctype.rest, 1)
        case None => Refused
        case Some(want) =>
          match GetCStr(want.rest)
          case None => Refused
          case Some(host) =>
            match GetInt(host.rest, 4)
            case None => Refused
            case Some(port) =>
              if port.value > 65535 then Refused
              else Sent(Next(t.(perms := t.perms + [Perm(host.value, port.value, Some(client))]),
                             [Up(GLOBAL_REQUEST, body)]))
  }

  /** A CLOSE passing from a client to the server. */
  function CloseSent(t: Table, r: nat): Table {
    var i := ByRemote(t.slots, r, 0);
    if i == |t.slots| then t
    else
      var c := t.slots[i].value;
      if c.closes.rcvd then Free(t, i)
      else t.(slots := t.slots[i := Some(c.(closes := c.closes.(sent := true)))])
  }

  /** channel_proxy_downstream on one packet of a mux client. */
  function Downstream(t: Table, client: Ptr, packet: seq<byte>): Answer {
    if |packet| < 2 then Refused
    else
      var (kind, body) := (packet[1], packet[2..]);
      if kind == OPEN then DownOpen(t, client, body)
      else if kind == OPEN_CONFIRMATION then DownConfirm(t, client, body)
      else if kind == GLOBAL_REQUEST then DownForward(t, client, body)
      else if kind == CLOSE && |body| >= 4 then Sent(Next(CloseSent(t, GetBE(body[..4])), [Up(CLOSE, body)]))
      else Sent(Next(t, [Up(kind, body)]))
  }

  /** The messages that are passed on to mux clients. */
  predicate Proxied(kind: nat) {
    || kind == CLOSE || kind == DATA || kind == EOF || kind == EXTENDED_DATA || kind == OPEN_CONFIRMATION
    || kind == OPEN_FAILURE || kind == WINDOW_ADJUST || kind == SUCCESS || kind == FAILURE || kind == REQUEST
  }

  /** channel_proxy_upstream for the channel in slot i, once it is known to be a proxy. */
  function Upstream(t: Table, i: nat, kind: nat, payload: seq<byte>): Next
    requires Used(t.slots, i) && t.slots[i].value.ctx.Some?
  {
    var c := t.slots[i].value;
    var outs := [Down(c.ctx.value, kind, U32(c.downId) + payload)];
    if kind == OPEN_CONFIRMATION && |payload| > 4 then
      Next(t.(slots := t.slots[i := Some(c.(remote := Some(GetBE(payload[..4]))))]), outs)
    else if kind == CLOSE then
      Next(if c.closes.sent then Free(t, i)
           else t.(slots := t.slots[i := Some(c.(closes := c.closes.(rcvd := true)))]), outs)
    else Next(t, outs)
  }

  /** A channel message from the server: proxied, or handled locally where only CLOSE matters here.
      A message for no channel, or an EOF with a payload, at most ends the connection. */
  function FromServer(t: Table, kind: nat, id: nat, payload: seq<byte>): Next {
    if !Reachable(t.slots, id) || (kind == EOF && payload != []) then Next(t, [])
    else
      var c := t.slots[id].value;
      if c.kind == MuxProxy && c.ctx.Some? && Proxied(kind) then Upstream(t, id, kind, payload)
      else if kind == CLOSE then
        Next(t.(slots := t.slots[id := Some(c.(closes := c.closes.(rcvd := true)))]), [])
      else Next(t, [])
  }

  /** channel_garbage_collect for channels other than mux clients; None is the fatal exit of
      chan_send_close2 for a channel that never learnt its remote id. */
  function Collect(t: Table, i: nat): Option<Next>
    requires Used(t.slots, i)
  {
    var c := t.slots[i].value;
    if c.kind == Zombie then Some(Next(Free(t, i), []))
    else if !c.shut then Some(Next(t, []))
    else if c.closes.sent then Some(Next(if c.closes.rcvd then Free(t, i) else t, []))
    else if c.remote == None then None
    else
      var t' := t.(slots := t.slots[i := Some(c.(closes := c.closes.(sent := true)))]);
      Some(Next(if c.closes.rcvd then Free(t', i) else t', [Up(CLOSE, U32(c.remote.value))]))
  }

  function MarkDead(t: Table, i: nat): Table
    requires Used(t.slots, i)
  {
    t.(slots := t.slots[i := Some(t.slots[i].value.(kind := Zombie))])
  }

  // ---- the invariant

  ghost predicate ChanOk(s: Slots, next: nat, i: nat, c: Chan) {
    && c.self == i && c.serial < next
    && (c.kind == MuxProxy ==> c.ctx.Some? && LiveClient(s, c.ctx.value) && !c.shut)
    && (c.kind == MuxClient ==> !c.closes.rcvd)
    && (c.kind == Open ==> c.ctx == None)
  }

  ghost predicate PermOk(s: Slots, p: Perm) { p.downstream.Some? ==> LiveClient(s, p.downstream.value) }

  /** Every channel sits in the slot it is named after, every proxy and permission belongs to a
      mux client that is still there, and the table is bounded. */
  ghost predicate Inv(t: Table) {
    && |t.slots| <= CHANNELS_MAX_CHANNELS + 10
    && (forall i :: 0 <= i < |t.slots| && t.slots[i].Some? ==> ChanOk(t.slots, t.next, i, t.slots[i].value))
    && (forall k :: 0 <= k < |t.perms| ==> PermOk(t.slots, t.perms[k]))
  }

  /** `s'` keeps all mux clients of `s`. */
  ghost predicate KeepsClients(s: Slots, s': Slots) {
    forall p: Ptr :: LiveClient(s, p) ==> LiveClient(s', p)
  }

  lemma NewKeeps(t: Table, c: Chan)
    requires Inv(t) && New(t, c).Some?
    requires c.kind == MuxProxy ==> c.ctx.Some? && LiveClient(t.slots, c.ctx.value)
    requires !c.closes.rcvd && !c.shut && (c.kind == Open ==> c.ctx == None)
    ensures Inv(New(t, c).value) && KeepsClients(t.slots, New(t, c).value.slots)
    ensures !Used(t.slots, FreeSlot(t.slots, 0))
    ensures forall j: nat :: Used(t.slots, j) ==> Used(New(t, c).value.slots, j) && New(t, c).value.slots[j] == t.slots[j]
  {
  }

  /** Freeing keeps the invariant, whatever kind of channel it is. */
  lemma FreeKeeps(t: Table, i: nat)
    requires Inv(t) && Used(t.slots, i)
    ensures Inv(Free(t, i))
  {
    var (s, c, t') := (t.slots, t.slots[i].value, Free(t, i));
    forall p: Ptr | LiveClient(s, p) && p != PtrTo(c) ensures LiveClient(t'.slots, p) {
      assert p.slot != i;
    }
    forall j | 0 <= j < |s| && t'.slots[j].Some? ensures ChanOk(t'.slots, t'.next, j, t'.slots[j].value) {
      assert ChanOk(s, t.next, j, s[j].value);
    }
    forall k | 0 <= k < |t.perms| ensures PermOk(t'.slots, t'.perms[k]) {
      assert PermOk(s, t.perms[k]);
    }
  }

  /** An update of one channel's bookkeeping. */
  lemma UpdateKeeps(t: Table, i: nat, c: Chan)
    requires Inv(t) && Used(t.slots, i)
    requires var o := t.slots[i].value; c == o.(remote := c.remote, closes := c.closes)
    requires c.kind == MuxClient ==> !c.closes.rcvd
    ensures Inv(t.(slots := t.slots[i := Some(c)]))
  {
    var s' := t.slots[i := Some(c)];
    assert forall p: Ptr :: LiveClient(t.slots, p) ==> LiveClient(s', p);
    forall j | 0 <= j < |s'| && s'[j].Some? ensures ChanOk(s', t.next, j, s'[j].value) {
      assert ChanOk(t.slots, t.next, j, t.slots[j].value);
    }
    forall k | 0 <= k < |t.perms| ensures PermOk(s', t.perms[k]) {
      assert PermOk(t.slots, t.perms[k]);
    }
  }

  /** Some proxy or permission points to the channel in slot i. */
  predicate Referenced(t: Table, i: nat)
    requires Used(t.slots, i)
  {
    var p := PtrTo(t.slots[i].value);
    || (exists j :: 0 <= j < |t.slots| && t.slots[j].Some? && t.slots[j].value.kind == MuxProxy &&
          t.slots[j].value.ctx == Some(p))
    || (exists k :: 0 <= k < |t.perms| && t.perms[k].downstream == Some(p))
  }

  /** chan_mark_dead keeps the invariant exactly when nothing refers to the channel. */
  lemma MarkDeadKeeps(t: Table, i: nat)
    requires Inv(t) && Used(t.slots, i)
    ensures Inv(MarkDead(t, i)) <==> !Referenced(t, i)
  {
    var (s, c, s') := (t.slots, t.slots[i].value, MarkDead(t, i).slots);
    assert ChanOk(s, t.next, i, c);
    if Referenced(t, i) {
      assert !LiveClient(s', PtrTo(c));
      if j :| 0 <= j < |s| && s[j].Some? && s[j].value.kind == MuxProxy && s[j].value.ctx == Some(PtrTo(c)) {
        assert ChanOk(s, t.next, j, s[j].value);
        assert !ChanOk(s', t.next, j, s'[j].value);
      } else {
        var k :| 0 <= k < |t.perms| && t.perms[k].downstream == Some(PtrTo(c));
        assert !PermOk(s', t.perms[k]);
      }
    } else {
      forall p: Ptr | LiveClient(s, p) && p != PtrTo(c) ensures LiveClient(s', p) {
        assert p.slot != i;
      }
      forall j | 0 <= j < |s'| && s'[j].Some? ensures ChanOk(s', t.next, j, s'[j].value) {
        assert ChanOk(s, t.next, j, s[j].value);
      }
      forall k | 0 <= k < |t.perms| ensures PermOk(s', t.perms[k]) {
        assert PermOk(s, t.perms[k]);
      }
    }
  }

  // ---- runs

  datatype Event =
    | Alloc(kind: Kind)                                       // channel_new by any other part of the program
    | Learn(slot: nat, remote: nat)                           // a local channel is told its remote id
    | Packet(slot: nat, bytes: seq<byte>)                     // a mux client sends a packet
    | Message(code: nat, id: nat, payload: seq<byte>)         // the server sends a channel message
    | Leave(slot: nat)                                        // a mux client is freed
    | Gc(slot: nat)                                           // a garbage collection round reaches a slot
    | Kill(slot: nat)                                         // chan_mark_dead

  predicate IsClient(s: Slots, i: nat) { Used(s, i) && s[i].value.kind == MuxClient }

  predicate Enabled(t: Table, e: Event) {
    match e
    case Alloc(kind) => kind != MuxProxy
    case Learn(i, r) => Used(t.slots, i) && t.slots[i].value.kind != MuxProxy
    case Packet(i, _) => IsClient(t.slots, i)
    case Message(_, _, _) => true
    case Leave(i) => IsClient(t.slots, i)
    case Gc(i) => Used(t.slots, i) && t.slots[i].value.kind != MuxClient
    case Kill(i) => Used(t.slots, i)
  }

  /** None is the exit of the process. */
  function Step(t: Table, e: Event): Option<Next>
    requires Enabled(t, e)
  {
    match e
    case Alloc(kind) => (match New(t, Blank(0, 0, kind)) case None => None case Some(t') => Some(Next(t', [])))
    case Learn(i, r) =>
      Some(Next(t.(slots := t.slots[i := Some(t.slots[i].value.(remote := Some(r)))]), []))
    case Packet(i, bytes) =>
      (match Downstream(t, PtrTo(t.slots[i].value), bytes)
       case Sent(n) => Some(n)
       case Refused => Some(Next(MarkDead(t, i), []))
       case Fatal => None)
    case Message(kind, id, payload) => Some(FromServer(t, kind, id, payload))
    case Leave(i) => Some(Next(Free(t, i), []))
    case Gc(i) => Collect(t, i)
    case Kill(i) => Some(Next(MarkDead(t, i), []))
  }

  /** The event marks a channel dead while a proxy or permission still points to it. */
  predicate KillsReferenced(t: Table, e: Event)
    requires Enabled(t, e)
  {
    match e
    case Packet(i, bytes) => Downstream(t, PtrTo(t.slots[i].value), bytes) == Refused && Referenced(t, i)
    case Kill(i) => Referenced(t, i)
    case _ => false
  }

  lemma CloseSentKeeps(t: Table, r: nat)
    requires Inv(t)
    ensures Inv(CloseSent(t, r))
  {
    var i := ByRemote(t.slots, r, 0);
    if i < |t.slots| {
      var c := t.slots[i].value;
      if c.closes.rcvd {
        FreeKeeps(t, i);
      } else {
        assert ChanOk(t.slots, t.next, i, c);
        UpdateKeeps(t, i, c.(closes := c.closes.(sent := true)));
      }
    }
  }

  lemma AddProxyKeeps(t: Table, client: Ptr, id: nat, remote: Option<nat>, kind: nat, a: seq<byte>, b: seq<byte>)
    requires Inv(t) && LiveClient(t.slots, client)
    ensures var r := AddProxy(t, Proxy(client, id, remote), kind, a, b); r.Sent? ==> Inv(r.next.t)
  {
    var c := Proxy(client, id, remote);
    if New(t, c).Some? { NewKeeps(t, c); }
  }

  lemma DownstreamKeeps(t: Table, client: Ptr, packet: seq<byte>)
    requires Inv(t) && LiveClient(t.slots, client)
    ensures var r := Downstream(t, client, packet); r.Sent? ==> Inv(r.next.t)
  {
    if |packet| >= 2 {
      var (kind, body) := (packet[1], packet[2..]);
      if kind == OPEN {
        DownOpenKeeps(t, client, body);
      } else if kind == OPEN_CONFIRMATION {
        DownConfirmKeeps(t, client, body);
      } else if kind == CLOSE && |body| >= 4 {
        CloseSentKeeps(t, GetBE(body[..4]));
      }
    }
  }

  lemma DownOpenKeeps(t: Table, client: Ptr, body: seq<byte>)
    requires Inv(t) && LiveClient(t.slots, client)
    ensures var r := DownOpen(t, client, body); r.Sent? ==> Inv(r.next.t)
  {
    var ctype := GetCStr(body);
    if ctype.Some? {
      var id := GetInt(ctype.value.rest, 4);
      if id.Some? {
        AddProxyKeeps(t, client, id.value.value, None, OPEN, Str(ctype.value.value), id.value.rest);
      }
    }
  }

  lemma DownConfirmKeeps(t: Table, client: Ptr, body: seq<byte>)
    requires Inv(t) && LiveClient(t.slots, client)
    ensures var r := DownConfirm(t, client, body); r.Sent? ==> Inv(r.next.t)
  {
    var remote := GetInt(body, 4);
    if remote.Some? {
      var id := GetInt(remote.value.rest, 4);
      if id.Some? {
        AddProxyKeeps(t, client, id.value.value, Some(remote.value.value), OPEN_CONFIRMATION,
                      U32(remote.value.value), id.value.rest);
      }
    }
  }

  lemma FromServerKeeps(t: Table, kind: nat, id: nat, payload: seq<byte>)
    requires Inv(t)
    ensures Inv(FromServer(t, kind, id, payload).t)
  {
    if Reachable(t.slots, id) {
      var c := t.slots[id].value;
      UpdateKeeps(t, id, c.(closes := c.closes.(rcvd := true)));
      if |payload| > 4 { UpdateKeeps(t, id, c.(remote := Some(GetBE(payload[..4])))); }
      FreeKeeps(t, id);
    }
  }

  lemma CollectKeeps(t: Table, i: nat)
    requires Inv(t) && Used(t.slots, i) && Collect(t, i).Some?
    ensures Inv(Collect(t, i).value.t)
  {
    var c := t.slots[i].value;
    assert ChanOk(t.slots, t.next, i, c);
    FreeKeeps(t, i);
    if c.shut && !c.closes.sent {
      var c' := c.(closes := c.closes.(sent := true));
      UpdateKeeps(t, i, c');
      FreeKeeps(t.(slots := t.slots[i := Some(c')]), i);
    }
  }

  /** Each step keeps the invariant exactly when it does not mark a referenced channel dead. */
  lemma StepKeeps(t: Table, e: Event)
    requires Inv(t) && Enabled(t, e) && Step(t, e).Some?
    ensures Inv(Step(t, e).value.t) <==> !KillsReferenced(t, e)
  {
    match e
    case Alloc(kind) => NewKeeps(t, Blank(0, 0, kind));
    case Learn(i, r) =>
      assert ChanOk(t.slots, t.next, i, t.slots[i].value);
      UpdateKeeps(t, i, t.slots[i].value.(remote := Some(r)));
    case Packet(i, bytes) =>
      assert ChanOk(t.slots, t.next, i, t.slots[i].value);
      DownstreamKeeps(t, PtrTo(t.slots[i].value), bytes);
      MarkDeadKeeps(t, i);
    case Message(kind, id, payload) => FromServerKeeps(t, kind, id, payload);
    case Leave(i) => FreeKeeps(t, i);
    case Gc(i) => CollectKeeps(t, i);
    case Kill(i) => MarkDeadKeeps(t, i);
  }

  /** Runs in which no referenced channel is marked dead. */
  ghost predicate Runs(t: Table, es: seq<Event>, t': Table)
    decreases |es|
  {
    if es == [] then t' == t
    else
      && Enabled(t, es[0]) && !KillsReferenced(t, es[0])
      && Step(t, es[0]).Some? && Runs(Step(t, es[0]).value.t, es[1..], t')
  }

  /** The invariant holds after every run from an empty table. */
  lemma {:induction false} RunKeeps(t: Table, es: seq<Event>, t': Table)
    requires Inv(t) && Runs(t, es, t')
    ensures Inv(t')
    decreases |es|
  {
    if es != [] {
      StepKeeps(t, es[0]);
      RunKeeps(Step(t, es[0]).value.t, es[1..], t');
    }
  }

  /** In particular after every run from the empty table a process starts with. */
  lemma EveryRunKeeps(es: seq<Event>, t': Table)
    requires Runs(Table([], [], 0), es, t')
    ensures Inv(t')
  {
    RunKeeps(Table([], [], 0), es, t');
  }
}
