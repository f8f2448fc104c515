/**
 * What the mux proxy is for: each proxied channel behaves as if its client had the connection to
 * itself, as long as the other clients close only channels of their own.
 */
module MuxSessions {
  import opened Octets
  import opened Wire
  import opened MuxTable

  /** A proxied channel as its client and the server see it. */
  datatype Session =
    | Serving(client: Ptr, downId: nat, remote: Option<nat>, closes: Closes)
    | Draining(remote: Option<nat>, closes: Closes)
    | Gone

  function SessionOf(s: Slots, p: Ptr): Session {
    if !Live(s, p) then Gone
    else
      var c := s[p.slot].value;
      if c.kind == MuxProxy && c.ctx.Some? then Serving(c.ctx.value, c.downId, c.remote, c.closes)
      else Draining(c.remote, c.closes)
  }

  /** The remote id named by a CLOSE packet of a client. */
  function ClosedBy(bytes: seq<byte>): Option<nat> {
    if |bytes| >= 6 && bytes[1] == CLOSE then Some(GetBE(bytes[2..6])) else None
  }

  function ConfirmedId(kind: nat, payload: seq<byte>): Option<nat> {
    if kind == OPEN_CONFIRMATION && |payload| > 4 then Some(GetBE(payload[..4])) else None
  }

  function WithCloses(x: Session, c: Closes): Session {
    match x
    case Serving(client, id, remote, _) => Serving(client, id, remote, c)
    case Draining(remote, _) => Draining(remote, c)
    case Gone => Gone
  }

  /** A CLOSE passes to the server. */
  function PassUp(x: Session): Session
    requires !x.Gone?
  {
    if x.closes.rcvd then Gone else WithCloses(x, Closes(true, x.closes.rcvd))
  }

  function OnPacket(x: Session, bytes: seq<byte>): Session
    requires !x.Gone?
  {
    if ClosedBy(bytes).Some? && ClosedBy(bytes) == x.remote then PassUp(x) else x
  }

  function OnMessage(x: Session, kind: nat, payload: seq<byte>): Session {
    match x
    case Serving(client, id, remote, closes) =>
      if kind == CLOSE then
        if closes.sent then Gone else WithCloses(x, Closes(closes.sent, true))
      else if ConfirmedId(kind, payload).Some? then Serving(client, id, ConfirmedId(kind, payload), closes)
      else x
    case Draining(remote, closes) => if kind == CLOSE then Draining(remote, Closes(closes.sent, true)) else x
    case Gone => Gone
  }

  /** One session's traffic: what names its ids, and the fate of its client. */
  function Track(x: Session, slot: nat, e: Event): Session {
    if x.Gone? then Gone
    else match e
      case Packet(_, bytes) => OnPacket(x, bytes)
      case Message(kind, id, payload) => if id == slot then OnMessage(x, kind, payload) else x
      case Leave(i) => if x.Serving? && i == x.client.slot then Draining(x.remote, x.closes) else x
      case Gc(i) => if i == slot && x.Draining? then PassUp(x) else x
      case _ => x
  }

  function TrackAll(x: Session, slot: nat, es: seq<Event>): Session
    decreases |es|
  {
    if es == [] then x else TrackAll(Track(x, slot, es[0]), slot, es[1..])
  }

  // ---- what the server promises

  ghost predicate Unused(s: Slots, r: nat, i: nat) {
    forall j :: 0 <= j < |s| && j != i && s[j].Some? ==> s[j].value.remote != Some(r)
  }

  /** No two channels have the same remote id. */
  ghost predicate Unique(s: Slots) {
    forall i :: 0 <= i < |s| && s[i].Some? && s[i].value.remote.Some? ==> Unused(s, s[i].value.remote.value, i)
  }

  /** The remote id that a packet from a client confirms. */
  function AcceptedId(bytes: seq<byte>): Option<nat> {
    if |bytes| >= 6 && bytes[1] == OPEN_CONFIRMATION then Some(GetBE(bytes[2..6])) else None
  }

  /** A remote id is announced only while no other channel has it. */
  ghost predicate Fair(s: Slots, e: Event) {
    match e
    case Learn(i, r) => Unused(s, r, i)
    case Message(kind, id, payload) => ConfirmedId(kind, payload).Some? ==> Unused(s, ConfirmedId(kind, payload).value, id)
    case Packet(_, bytes) => AcceptedId(bytes).Some? ==> Unused(s, AcceptedId(bytes).value, |s|)
    case _ => true
  }

  // ---- each operation, seen from one session

  ghost predicate Settled(s: Slots, p: Ptr) {
    Live(s, p) ==> var c := s[p.slot].value;
      (c.kind == MuxProxy && c.ctx.Some?) || (c.kind == Open && c.shut)
  }

  lemma {:induction false} RemoteIsFound(s: Slots, r: nat, i: nat)
    requires Unique(s) && Used(s, i) && s[i].value.remote == Some(r)
    ensures ByRemote(s, r, 0) == i
  {
    assert Unused(s, r, i);
  }

  /** Freeing a channel ends its own session, detaches its proxies and touches no other. */
  lemma FreeSeen(t: Table, i: nat, p: Ptr)
    requires Inv(t) && Used(t.slots, i) && Settled(t.slots, p)
    ensures Settled(Free(t, i).slots, p)
    ensures var (x, x', c) := (SessionOf(t.slots, p), SessionOf(Free(t, i).slots, p), t.slots[i].value);
      x' == if x.Gone? || p.slot == i then Gone
            else if x.Serving? && x.client.slot == i then Draining(x.remote, x.closes)
            else x
  {
    if Live(t.slots, p) {
      var o := t.slots[p.slot].value;
      assert ChanOk(t.slots, t.next, p.slot, o) && ChanOk(t.slots, t.next, i, t.slots[i].value);
    }
  }

  lemma NewSeen(t: Table, c: Chan, p: Ptr)
    requires Inv(t) && New(t, c).Some? && p.serial < t.next && Settled(t.slots, p)
    ensures SessionOf(New(t, c).value.slots, p) == SessionOf(t.slots, p) && Settled(New(t, c).value.slots, p)
  {
  }

  lemma UpdateSeen(s: Slots, i: nat, c: Chan, p: Ptr)
    requires Used(s, i) && Settled(s, p) && c.serial == s[i].value.serial && p.slot != i
    ensures SessionOf(s[i := Some(c)], p) == SessionOf(s, p) && Settled(s[i := Some(c)], p)
  {
  }

  lemma CloseSentSeen(t: Table, r: nat, p: Ptr)
    requires Inv(t) && Unique(t.slots) && Settled(t.slots, p)
    ensures Settled(CloseSent(t, r).slots, p)
    ensures var x := SessionOf(t.slots, p);
      SessionOf(CloseSent(t, r).slots, p) ==
        if !x.Gone? && x.remote == Some(r) then PassUp(x) else x
  {
    var i := ByRemote(t.slots, r, 0);
    if Live(t.slots, p) && t.slots[p.slot].value.remote == Some(r) {
      RemoteIsFound(t.slots, r, p.slot);
    }
    if i < |t.slots| {
      assert ChanOk(t.slots, t.next, i, t.slots[i].value);
      FreeSeen(t, i, p);
    }
  }

  lemma MessageSeen(t: Table, kind: nat, id: nat, payload: seq<byte>, p: Ptr)
    requires Inv(t) && Settled(t.slots, p)
    ensures Settled(FromServer(t, kind, id, payload).t.slots, p)
    ensures SessionOf(FromServer(t, kind, id, payload).t.slots, p) ==
      Track(SessionOf(t.slots, p), p.slot, Message(kind, id, payload))
  {
    if Reachable(t.slots, id) {
      assert ChanOk(t.slots, t.next, id, t.slots[id].value);
      FreeSeen(t, id, p);
    }
  }

  lemma CollectSeen(t: Table, i: nat, p: Ptr)
    requires Inv(t) && Settled(t.slots, p) && Used(t.slots, i) && t.slots[i].value.kind != MuxClient
    requires Collect(t, i).Some?
    ensures Settled(Collect(t, i).value.t.slots, p)
    ensures SessionOf(Collect(t, i).value.t.slots, p) == Track(SessionOf(t.slots, p), p.slot, Gc(i))
  {
    var c := t.slots[i].value;
    assert ChanOk(t.slots, t.next, i, c);
    FreeSeen(t, i, p);
    if c.shut && !c.closes.sent {
      var c' := c.(closes := c.closes.(sent := true));
      UpdateKeeps(t, i, c');
      FreeSeen(t.(slots := t.slots[i := Some(c')]), i, p);
    }
  }

  lemma AddProxySeen(t: Table, c: Chan, kind: nat, a: seq<byte>, b: seq<byte>, p: Ptr)
    requires Inv(t) && Settled(t.slots, p) && p.serial < t.next
    ensures var r := AddProxy(t, c, kind, a, b); r.Sent? ==>
      SessionOf(r.next.t.slots, p) == SessionOf(t.slots, p) && Settled(r.next.t.slots, p)
  {
    if New(t, c).Some? { NewSeen(t, c, p); }
  }

  lemma DownOpenSeen(t: Table, client: Ptr, body: seq<byte>, p: Ptr)
    requires Inv(t) && Settled(t.slots, p) && p.serial < t.next
    ensures var r := DownOpen(t, client, body); r.Sent? ==>
      SessionOf(r.next.t.slots, p) == SessionOf(t.slots, p) && Settled(r.next.t.slots, p)
  {
    var ctype := GetCStr(body);
    if ctype.Some? {
      var id := GetInt(ctype.value.rest, 4);
      if id.Some? {
        AddProxySeen(t, Proxy(client, id.value.value, None), OPEN, Str(ctype.value.value), id.value.rest, p);
      }
    }
  }

  lemma DownConfirmSeen(t: Table, client: Ptr, body: seq<byte>, p: Ptr)
    requires Inv(t) && Settled(t.slots, p) && p.serial < t.next
    ensures var r := DownConfirm(t, client, body); r.Sent? ==>
      SessionOf(r.next.t.slots, p) == SessionOf(t.slots, p) && Settled(r.next.t.slots, p)
  {
    var remote := GetInt(body, 4);
    if remote.Some? {
      var id := GetInt(remote.value.rest, 4);
      if id.Some? {
        AddProxySeen(t, Proxy(client, id.value.value, Some(remote.value.value)), OPEN_CONFIRMATION,
                     U32(remote.value.value), id.value.rest, p);
      }
    }
  }

  lemma PacketSeen(t: Table, client: Ptr, bytes: seq<byte>, p: Ptr)
    requires Inv(t) && Unique(t.slots) && Settled(t.slots, p) && p.serial < t.next
    ensures var r := Downstream(t, client, bytes); r.Sent? ==>
      && Settled(r.next.t.slots, p)
      && (forall i :: SessionOf(r.next.t.slots, p) == Track(SessionOf(t.slots, p), p.slot, Packet(i, bytes)))
  {
    if |bytes| >= 2 {
      var (kind, body) := (bytes[1], bytes[2..]);
      if kind == OPEN {
        DownOpenSeen(t, client, body, p);
      } else if kind == OPEN_CONFIRMATION {
        DownConfirmSeen(t, client, body, p);
      } else if kind == CLOSE && |body| >= 4 {
        assert body[..4] == bytes[2..6];
        CloseSentSeen(t, GetBE(body[..4]), p);
      }
    }
  }

  /** Every step moves a session by its own traffic alone. */
  lemma StepSeen(t: Table, e: Event, p: Ptr)
    requires Inv(t) && Unique(t.slots) && Settled(t.slots, p) && p.serial < t.next
    requires Enabled(t, e) && !KillsReferenced(t, e) && Step(t, e).Some? && Undisturbed(e, p.slot)
    ensures Settled(Step(t, e).value.t.slots, p)
    ensures SessionOf(Step(t, e).value.t.slots, p) == Track(SessionOf(t.slots, p), p.slot, e)
  {
    match e
    case Alloc(kind) => NewSeen(t, Blank(0, 0, kind), p);
    case Learn(i, r) => UpdateSeen(t.slots, i, t.slots[i].value.(remote := Some(r)), p);
    case Packet(i, bytes) =>
      PacketSeen(t, PtrTo(t.slots[i].value), bytes, p);
      if Downstream(t, PtrTo(t.slots[i].value), bytes) == Refused {
        RefusedIsNoClose(t, PtrTo(t.slots[i].value), bytes);
        MarkDeadSeen(t, i, p);
      }
    case Message(kind, id, payload) => MessageSeen(t, kind, id, payload, p);
    case Leave(i) => FreeSeen(t, i, p);
    case Gc(i) => CollectSeen(t, i, p);
    case Kill(i) => MarkDeadSeen(t, i, p);
  }

  /** The rest of the program leaves the session's slot alone. */
  predicate Undisturbed(e: Event, slot: nat) {
    match e
    case Learn(i, _) => i != slot
    case Kill(i) => i != slot
    case _ => true
  }

  lemma RefusedIsNoClose(t: Table, client: Ptr, bytes: seq<byte>)
    requires Downstream(t, client, bytes) == Refused
    ensures ClosedBy(bytes) == None
  {
  }

  lemma MarkDeadSeen(t: Table, i: nat, p: Ptr)
    requires Inv(t) && Settled(t.slots, p) && Used(t.slots, i)
    requires t.slots[i].value.kind == MuxClient || i != p.slot
    ensures Settled(MarkDead(t, i).slots, p)
    ensures SessionOf(MarkDead(t, i).slots, p) == SessionOf(t.slots, p)
  {
  }

  // ---- remote ids stay unique

  lemma SetRemoteUnique(s: Slots, i: nat, c: Chan)
    requires Unique(s) && i < |s| && (c.remote.Some? ==> Unused(s, c.remote.value, i))
    ensures Unique(s[i := Some(c)])
  {
    var s' := s[i := Some(c)];
    forall j | 0 <= j < |s'| && s'[j].Some? && s'[j].value.remote.Some?
      ensures Unused(s', s'[j].value.remote.value, j)
    {
      if j != i { assert Unused(s, s[j].value.remote.value, j); }
    }
  }

  lemma NewUnique(t: Table, c: Chan)
    requires Unique(t.slots) && New(t, c).Some? && (c.remote.Some? ==> Unused(t.slots, c.remote.value, |t.slots|))
    ensures Unique(New(t, c).value.slots)
  {
    var i := FreeSlot(t.slots, 0);
    var s := if i == |t.slots| then t.slots + TEN_FREE else t.slots;
    forall j | 0 <= j < |s| && s[j].Some? && s[j].value.remote.Some? ensures Unused(s, s[j].value.remote.value, j) {
      assert Unused(t.slots, t.slots[j].value.remote.value, j);
    }
    SetRemoteUnique(s, i, c.(self := i, serial := t.next));
  }

  lemma FreeUnique(t: Table, i: nat)
    requires Unique(t.slots) && Used(t.slots, i)
    ensures Unique(Free(t, i).slots)
  {
    var (s, s') := (t.slots, Free(t, i).slots);
    forall j | 0 <= j < |s'| && s'[j].Some? && s'[j].value.remote.Some?
      ensures Unused(s', s'[j].value.remote.value, j)
    {
      assert Unused(s, s[j].value.remote.value, j);
    }
  }

  lemma KeepRemoteUnique(s: Slots, i: nat, c: Chan)
    requires Unique(s) && Used(s, i) && c.remote == s[i].value.remote
    ensures Unique(s[i := Some(c)])
  {
    if c.remote.Some? { assert Unused(s, c.remote.value, i); }
    SetRemoteUnique(s, i, c);
  }

  lemma CloseSentUnique(t: Table, r: nat)
    requires Unique(t.slots)
    ensures Unique(CloseSent(t, r).slots)
  {
    var i := ByRemote(t.slots, r, 0);
    if i < |t.slots| {
      FreeUnique(t, i);
      var c := t.slots[i].value;
      KeepRemoteUnique(t.slots, i, c.(closes := c.closes.(sent := true)));
    }
  }

  lemma DownstreamUnique(t: Table, client: Ptr, bytes: seq<byte>)
    requires Unique(t.slots) && (AcceptedId(bytes).Some? ==> Unused(t.slots, AcceptedId(bytes).value, |t.slots|))
    ensures var r := Downstream(t, client, bytes); r.Sent? ==> Unique(r.next.t.slots)
  {
    if |bytes| >= 2 {
      var (kind, body) := (bytes[1], bytes[2..]);
      if kind == OPEN {
        DownOpenUnique(t, client, body);
      } else if kind == OPEN_CONFIRMATION {
        if |body| >= 4 { assert body[..4] == bytes[2..6]; }
        DownConfirmUnique(t, client, body);
      } else if kind == CLOSE && |body| >= 4 {
        CloseSentUnique(t, GetBE(body[..4]));
      }
    }
  }

  lemma DownOpenUnique(t: Table, client: Ptr, body: seq<byte>)
    requires Unique(t.slots)
    ensures var r := DownOpen(t, client, body); r.Sent? ==> Unique(r.next.t.slots)
  {
    var ctype := GetCStr(body);
    if ctype.Some? {
      var id := GetInt(ctype.value.rest, 4);
      if id.Some? && New(t, Proxy(client, id.value.value, None)).Some? {
        NewUnique(t, Proxy(client, id.value.value, None));
      }
    }
  }

  lemma DownConfirmUnique(t: Table, client: Ptr, body: seq<byte>)
    requires Unique(t.slots) && (|body| >= 4 ==> Unused(t.slots, GetBE(body[..4]), |t.slots|))
    ensures var r := DownConfirm(t, client, body); r.Sent? ==> Unique(r.next.t.slots)
  {
    var remote := GetInt(body, 4);
    if remote.Some? {
      var id := GetInt(remote.value.rest, 4);
      if id.Some? {
        var c := Proxy(client, id.value.value, Some(remote.value.value));
        if New(t, c).Some? { NewUnique(t, c); }
      }
    }
  }

  lemma StepUnique(t: Table, e: Event)
    requires Unique(t.slots) && Enabled(t, e) && Fair(t.slots, e) && Step(t, e).Some?
    ensures Unique(Step(t, e).value.t.slots)
  {
    match e
    case Alloc(kind) => NewUnique(t, Blank(0, 0, kind));
    case Learn(i, r) => SetRemoteUnique(t.slots, i, t.slots[i].value.(remote := Some(r)));
    case Packet(i, bytes) =>
      DownstreamUnique(t, PtrTo(t.slots[i].value), bytes);
      KeepRemoteUnique(t.slots, i, t.slots[i].value.(kind := Zombie));
    case Message(kind, id, payload) => MessageUnique(t, kind, id, payload);
    case Leave(i) => FreeUnique(t, i);
    case Gc(i) => CollectUnique(t, i);
    case Kill(i) => KeepRemoteUnique(t.slots, i, t.slots[i].value.(kind := Zombie));
  }

  lemma MessageUnique(t: Table, kind: nat, id: nat, payload: seq<byte>)
    requires Unique(t.slots) && Fair(t.slots, Message(kind, id, payload))
    ensures Unique(FromServer(t, kind, id, payload).t.slots)
  {
    if Reachable(t.slots, id) {
      var c := t.slots[id].value;
      FreeUnique(t, id);
      KeepRemoteUnique(t.slots, id, c.(closes := c.closes.(rcvd := true)));
      if ConfirmedId(kind, payload).Some? {
        SetRemoteUnique(t.slots, id, c.(remote := ConfirmedId(kind, payload)));
      }
    }
  }

  lemma CollectUnique(t: Table, i: nat)
    requires Unique(t.slots) && Used(t.slots, i) && Collect(t, i).Some?
    ensures Unique(Collect(t, i).value.t.slots)
  {
    var c := t.slots[i].value;
    FreeUnique(t, i);
    var c' := c.(closes := c.closes.(sent := true));
    KeepRemoteUnique(t.slots, i, c');
    FreeUnique(t.(slots := t.slots[i := Some(c')]), i);
  }

  // ---- runs

  /** Runs in which the server keeps its ids apart and nothing else touches `slot`. */
  ghost predicate FairRuns(t: Table, es: seq<Event>, slot: nat, t': Table)
    decreases |es|
  {
    if es == [] then t' == t
    else
      && Enabled(t, es[0]) && !KillsReferenced(t, es[0]) && Fair(t.slots, es[0]) && Undisturbed(es[0], slot)
      && Step(t, es[0]).Some? && FairRuns(Step(t, es[0]).value.t, es[1..], slot, t')
  }

  lemma SerialsGrow(t: Table, e: Event)
    requires Enabled(t, e) && Step(t, e).Some?
    ensures t.next <= Step(t, e).value.t.next
  {
    match e
    case Packet(i, bytes) => DownstreamSerials(t, PtrTo(t.slots[i].value), bytes);
    case _ =>
  }

  lemma DownstreamSerials(t: Table, client: Ptr, bytes: seq<byte>)
    ensures var r := Downstream(t, client, bytes); r.Sent? ==> t.next <= r.next.t.next
  {
  }

  /** Over any run a session is a function of the messages that name it: CLOSE packets with its
      remote id, whoever sends them, server messages for its slot, and the fate of its client. */
  lemma {:induction false} SessionsFollowTheirIds(t: Table, es: seq<Event>, p: Ptr, t': Table)
    requires Inv(t) && Unique(t.slots) && Settled(t.slots, p) && p.serial < t.next
    requires FairRuns(t, es, p.slot, t')
    ensures Inv(t') && Unique(t'.slots) && Settled(t'.slots, p)
    ensures SessionOf(t'.slots, p) == TrackAll(SessionOf(t.slots, p), p.slot, es)
    decreases |es|
  {
    if es != [] {
      StepKeeps(t, es[0]);
      StepUnique(t, es[0]);
      StepSeen(t, es[0], p);
      SerialsGrow(t, es[0]);
      SessionsFollowTheirIds(Step(t, es[0]).value.t, es[1..], p, t');
    }
  }

  /** A client's OPEN: the server sees the same message with the client's id replaced by the new
      slot, and a session for that client and id begins there. */
  lemma OpenBegins(t: Table, client: Ptr, pad: byte, ctype: cstring, id: nat, rest: seq<byte>)
    requires Inv(t) && |ctype| <= SSHBUF_SIZE_MAX - 4 && id < 0x1_0000_0000
    requires FreeSlot(t.slots, 0) < |t.slots| || |t.slots| <= CHANNELS_MAX_CHANNELS
    ensures var slot := FreeSlot(t.slots, 0);
      var r := Downstream(t, client, [pad, 90] + (Str(ctype) + (U32(id) + rest)));
      && !Used(t.slots, slot)
      && r.Sent? && r.next.outs == [Up(OPEN, Str(ctype) + U32(slot) + rest)]
      && SessionOf(r.next.t.slots, Ptr(slot, t.next)) == Serving(client, id, None, Closes(false, false))
  {
    var body := Str(ctype) + (U32(id) + rest);
    var bytes := [pad, 90] + body;
    assert bytes[1] == OPEN && bytes[2..] == body;
    GetPutCStr(ctype, U32(id) + rest);
    Powers();
    GetPutInt(id, 4, rest);
  }

  /** A client's OPEN_CONFIRMATION of a channel the server opened, likewise. */
  lemma ConfirmBegins(t: Table, client: Ptr, pad: byte, remote: nat, id: nat, rest: seq<byte>)
    requires Inv(t) && remote < 0x1_0000_0000 && id < 0x1_0000_0000
    requires FreeSlot(t.slots, 0) < |t.slots| || |t.slots| <= CHANNELS_MAX_CHANNELS
    ensures var slot := FreeSlot(t.slots, 0);
      var r := Downstream(t, client, [pad, 91] + (U32(remote) + (U32(id) + rest)));
      && !Used(t.slots, slot)
      && r.Sent? && r.next.outs == [Up(OPEN_CONFIRMATION, U32(remote) + U32(slot) + rest)]
      && SessionOf(r.next.t.slots, Ptr(slot, t.next)) == Serving(client, id, Some(remote), Closes(false, false))
  {
    var body := U32(remote) + (U32(id) + rest);
    var bytes := [pad, 91] + body;
    assert bytes[1] == OPEN_CONFIRMATION && bytes[2..] == body;
    Powers();
    GetPutInt(remote, 4, U32(id) + rest);
    GetPutInt(id, 4, rest);
  }

  lemma {:induction false} TrackKeepsOwner(x: Session, slot: nat, es: seq<Event>)
    requires x.Serving?
    ensures var y := TrackAll(x, slot, es); y.Serving? ==> y.client == x.client && y.downId == x.downId
    decreases |es|
  {
    if es != [] {
      var y := Track(x, slot, es[0]);
      if y.Serving? {
        TrackKeepsOwner(y, slot, es[1..]);
      } else {
        NeverServedAgain(y, slot, es[1..]);
      }
    }
  }

  lemma {:induction false} NeverServedAgain(x: Session, slot: nat, es: seq<Event>)
    requires !x.Serving?
    ensures !TrackAll(x, slot, es).Serving?
    decreases |es|
  {
    if es != [] { NeverServedAgain(Track(x, slot, es[0]), slot, es[1..]); }
  }

  /** Every later message of the server for that slot reaches the client that opened it, under the
      id it opened it with, for as long as the session is served. */
  lemma MessagesReachTheirOpener(t: Table, es: seq<Event>, p: Ptr, t': Table, kind: nat, payload: seq<byte>)
    requires Inv(t) && Unique(t.slots) && Settled(t.slots, p) && p.serial < t.next
    requires FairRuns(t, es, p.slot, t') && SessionOf(t.slots, p).Serving? && Proxied(kind)
    requires kind == EOF ==> payload == []
    requires TrackAll(SessionOf(t.slots, p), p.slot, es).Serving?
    ensures var x := SessionOf(t.slots, p);
      LiveClient(t'.slots, x.client) &&
      FromServer(t', kind, p.slot, payload).outs == [Down(x.client, kind, U32(x.downId) + payload)]
  {
    SessionsFollowTheirIds(t, es, p, t');
    TrackKeepsOwner(SessionOf(t.slots, p), p.slot, es);
    assert ChanOk(t'.slots, t'.next, p.slot, t'.slots[p.slot].value);
  }

  // ---- whose packets move a session

  /** A CLOSE with the remote id of x that is not a mere repetition. */
  predicate Hits(x: Session, bytes: seq<byte>) {
    !x.Gone? && x.remote.Some? && ClosedBy(bytes) == x.remote && (x.closes.rcvd || !x.closes.sent)
  }

  /** A packet of any client moves a session exactly if it is a CLOSE naming that session's remote id. */
  lemma OnlyCloseMoves(t: Table, i: nat, bytes: seq<byte>, p: Ptr)
    requires Inv(t) && Unique(t.slots) && Settled(t.slots, p) && p.serial < t.next
    requires var e := Packet(i, bytes); Enabled(t, e) && !KillsReferenced(t, e) && Step(t, e).Some?
    ensures SessionOf(Step(t, Packet(i, bytes)).value.t.slots, p) != SessionOf(t.slots, p) <==>
      Hits(SessionOf(t.slots, p), bytes)
  {
    StepSeen(t, Packet(i, bytes), p);
  }

  /** Two clients, of which the first has a channel with remote id 5. */
  function TwoClients(): Table {
    Table([Some(Blank(0, 0, MuxClient)), Some(Blank(1, 1, MuxClient)),
           Some(Proxy(Ptr(0, 0), 7, Some(5)).(self := 2, serial := 2))], [], 3)
  }

  lemma TwoClientsGood()
    ensures Inv(TwoClients()) && Unique(TwoClients().slots) && Settled(TwoClients().slots, Ptr(2, 2))
  {
  }

  /** So the code does not check whose channel a client closes: here the CLOSE of client 1 marks the
      channel of client 0 as closed by its client. */
  lemma ForeignCloseMoves()
    ensures var (t, e) := (TwoClients(), Packet(1, [0, 97, 0, 0, 0, 5]));
      && Inv(t) && Unique(t.slots) && Settled(t.slots, Ptr(2, 2))
      && Enabled(t, e) && !KillsReferenced(t, e) && Fair(t.slots, e) && Undisturbed(e, 2) && Step(t, e).Some?
      && SessionOf(t.slots, Ptr(2, 2)) == Serving(Ptr(0, 0), 7, Some(5), Closes(false, false))
      && SessionOf(Step(t, e).value.t.slots, Ptr(2, 2)) == Serving(Ptr(0, 0), 7, Some(5), Closes(true, false))
  {
    var (t, bytes) := (TwoClients(), [0, 97, 0, 0, 0, 5]);
    FiveIsFive();
    TwoClientsGood();
    assert bytes[2..6] == [0, 0, 0, 5] && ClosedBy(bytes) == Some(5);
    assert Downstream(t, Ptr(1, 1), bytes).Sent?;
    StepSeen(t, Packet(1, bytes), Ptr(2, 2));
  }

  lemma FiveIsFive()
    ensures GetBE([0, 0, 0, 5]) == 5
  {
    assert [0, 0, 0, 5][..3] == [0, 0, 0] && [0, 0, 0][..2] == [0, 0] && [0, 0][..1] == [0] && [0][..0] == [];
    assert GetBE([0]) == 0 && GetBE([0, 0]) == 0 && GetBE([0, 0, 0]) == 0;
  }

  /** A client closes the channel of session p only if it is its own. */
  ghost predicate Behaves(s: Slots, e: Event, p: Ptr) {
    var x := SessionOf(s, p);
    e.Packet? && ClosedBy(e.bytes).Some? && !x.Gone? && ClosedBy(e.bytes) == x.remote ==>
      x.Serving? && x.client.slot == e.slot
  }

  ghost predicate BehavedRuns(t: Table, es: seq<Event>, p: Ptr, t': Table)
    decreases |es|
  {
    if es == [] then t' == t
    else
      && Enabled(t, es[0]) && !KillsReferenced(t, es[0]) && Fair(t.slots, es[0]) && Undisturbed(es[0], p.slot)
      && Behaves(t.slots, es[0], p)
      && Step(t, es[0]).Some? && BehavedRuns(Step(t, es[0]).value.t, es[1..], p, t')
  }

  /** The packets of one client, the server's messages for one slot, and what happens to the two. */
  predicate Own(e: Event, owner: nat, slot: nat) {
    match e
    case Packet(i, _) => i == owner
    case Message(_, id, _) => id == slot
    case Leave(i) => i == owner
    case Gc(i) => i == slot
    case _ => false
  }

  function Only(es: seq<Event>, owner: nat, slot: nat): (r: seq<Event>)
    ensures forall e :: e in r <==> e in es && Own(e, owner, slot)
  {
    if es == [] then []
    else if Own(es[0], owner, slot) then [es[0]] + Only(es[1..], owner, slot)
    else Only(es[1..], owner, slot)
  }

  /** The session is served by the client in slot `owner`, if by any. */
  predicate OwnedBy(x: Session, owner: nat) { x.Serving? ==> x.client.slot == owner }

  lemma TrackKeepsOwned(x: Session, owner: nat, slot: nat, e: Event)
    requires OwnedBy(x, owner)
    ensures OwnedBy(Track(x, slot, e), owner)
  {
  }

  lemma ForeignIsIgnored(s: Slots, p: Ptr, owner: nat, e: Event)
    requires OwnedBy(SessionOf(s, p), owner) && Behaves(s, e, p) && !Own(e, owner, p.slot)
    ensures Track(SessionOf(s, p), p.slot, e) == SessionOf(s, p)
  {
  }

  /** Among clients that close only channels of their own, each proxied channel evolves as if its
      client had the connection to itself: the packets of all others may be left out. */
  lemma {:induction false} SessionsAreIndependent(t: Table, es: seq<Event>, p: Ptr, owner: nat, t': Table)
    requires Inv(t) && Unique(t.slots) && Settled(t.slots, p) && p.serial < t.next
    requires BehavedRuns(t, es, p, t') && OwnedBy(SessionOf(t.slots, p), owner)
    ensures SessionOf(t'.slots, p) == TrackAll(SessionOf(t.slots, p), p.slot, Only(es, owner, p.slot))
    decreases |es|
  {
    if es != [] {
      var (e, x) := (es[0], SessionOf(t.slots, p));
      StepKeeps(t, e);
      StepUnique(t, e);
      StepSeen(t, e, p);
      SerialsGrow(t, e);
      TrackKeepsOwned(x, owner, p.slot, e);
      SessionsAreIndependent(Step(t, e).value.t, es[1..], p, owner, t');
      if Own(e, owner, p.slot) {
        TrackFirst(x, p.slot, e, Only(es[1..], owner, p.slot));
      } else {
        ForeignIsIgnored(t.slots, p, owner, e);
      }
    }
  }

  lemma TrackFirst(x: Session, slot: nat, e: Event, rest: seq<Event>)
    ensures TrackAll(x, slot, [e] + rest) == TrackAll(Track(x, slot, e), slot, rest)
  {
    assert ([e] + rest)[1..] == rest;
  }

  // ---- the end of a session

  predicate ClosesUp(e: Event, r: nat) { e.Packet? && ClosedBy(e.bytes) == Some(r) }

  predicate ClosesDown(e: Event, slot: nat) { e.Message? && e.id == slot && e.code == CLOSE }

  /** The client stays and the server does not rename the channel. */
  predicate Steady(e: Event, client: Ptr, slot: nat) {
    match e
    case Leave(i) => i != client.slot
    case Message(kind, id, payload) => id != slot || ConfirmedId(kind, payload) == None
    case _ => true
  }

  lemma {:induction false} TrackEnds(x: Session, slot: nat, es: seq<Event>)
    requires x.Serving? && x.remote.Some? && !(x.closes.sent && x.closes.rcvd)
    requires forall e :: e in es ==> Steady(e, x.client, slot)
    ensures TrackAll(x, slot, es) == Gone <==>
      && (x.closes.sent || exists e :: e in es && ClosesUp(e, x.remote.value))
      && (x.closes.rcvd || exists e :: e in es && ClosesDown(e, slot))
    decreases |es|
  {
    if es != [] {
      var (e, rest) := (es[0], es[1..]);
      var y := Track(x, slot, e);
      assert es == [e] + rest;
      assert Steady(e, x.client, slot);
      if y == Gone {
        GoneStays(slot, rest);
        assert e in es;
      } else {
        TrackEnds(y, slot, rest);
        EitherHere(es, x.remote.value, slot);
      }
    }
  }

  /** While its client stays, a proxy is freed exactly when CLOSE has passed in both directions, in
      either order: up in a packet of its own client, down in a message of the server. */
  lemma EndsWhenBothClosed(t: Table, es: seq<Event>, p: Ptr, t': Table)
    requires Inv(t) && Unique(t.slots) && Settled(t.slots, p) && p.serial < t.next && BehavedRuns(t, es, p, t')
    requires var x := SessionOf(t.slots, p);
      && x.Serving? && x.remote.Some? && !(x.closes.sent && x.closes.rcvd)
      && forall e :: e in es ==> Steady(e, x.client, p.slot)
    ensures var x := SessionOf(t.slots, p);
      SessionOf(t'.slots, p) == Gone <==>
        && (x.closes.sent || exists e :: e in es && ClosesUp(e, x.remote.value) && e.slot == x.client.slot)
        && (x.closes.rcvd || exists e :: e in es && ClosesDown(e, p.slot))
  {
    var x := SessionOf(t.slots, p);
    var own := Only(es, x.client.slot, p.slot);
    SessionsAreIndependent(t, es, p, x.client.slot, t');
    TrackEnds(x, p.slot, own);
    assert forall e :: ClosesUp(e, x.remote.value) ==> (e in own <==> e in es && e.slot == x.client.slot);
    assert forall e :: ClosesDown(e, p.slot) ==> (e in own <==> e in es);
  }

  lemma {:induction false} GoneStays(slot: nat, es: seq<Event>)
    ensures TrackAll(Gone, slot, es) == Gone
    decreases |es|
  {
    if es != [] { GoneStays(slot, es[1..]); }
  }

  lemma EitherHere(es: seq<Event>, r: nat, slot: nat)
    requires es != []
    ensures (exists e :: e in es && ClosesUp(e, r)) <==>
      ClosesUp(es[0], r) || exists e :: e in es[1..] && ClosesUp(e, r)
    ensures (exists e :: e in es && ClosesDown(e, slot)) <==>
      ClosesDown(es[0], slot) || exists e :: e in es[1..] && ClosesDown(e, slot)
  {
    assert es == [es[0]] + es[1..];
  }

  // ---- detached sessions

  /** A collection of the slot after the server's CLOSE. */
  predicate CollectedAfterClose(rcvd: bool, slot: nat, es: seq<Event>)
    decreases |es|
  {
    es != [] &&
    (if es[0] == Gc(slot) && rcvd then true
     else CollectedAfterClose(rcvd || ClosesDown(es[0], slot), slot, es[1..]))
  }

  lemma {:induction false} TrackDrains(x: Session, slot: nat, es: seq<Event>)
    requires x.Draining? && forall e :: e in es ==> !(e.Packet? && ClosedBy(e.bytes).Some? && ClosedBy(e.bytes) == x.remote)
    ensures TrackAll(x, slot, es) == Gone <==> CollectedAfterClose(x.closes.rcvd, slot, es)
    decreases |es|
  {
    if es != [] {
      var y := Track(x, slot, es[0]);
      assert es[0] in es;
      if y == Gone {
        GoneStays(slot, es[1..]);
      } else {
        TrackDrains(y, slot, es[1..]);
      }
    }
  }

  /** A session whose client has left is freed exactly by a collection after the server's CLOSE. */
  lemma DrainingEnds(t: Table, es: seq<Event>, p: Ptr, t': Table)
    requires Inv(t) && Unique(t.slots) && Settled(t.slots, p) && p.serial < t.next && FairRuns(t, es, p.slot, t')
    requires SessionOf(t.slots, p).Draining?
    requires forall e :: e in es ==>
      !(e.Packet? && ClosedBy(e.bytes).Some? && ClosedBy(e.bytes) == SessionOf(t.slots, p).remote)
    ensures SessionOf(t'.slots, p) == Gone <==> CollectedAfterClose(SessionOf(t.slots, p).closes.rcvd, p.slot, es)
  {
    SessionsFollowTheirIds(t, es, p, t');
    TrackDrains(SessionOf(t.slots, p), p.slot, es);
  }

  /** Its collection ends the process exactly if the channel never learnt its remote id and no CLOSE
      was sent for it. */
  lemma CollectionIsFatal(t: Table, p: Ptr)
    requires Inv(t) && Settled(t.slots, p) && SessionOf(t.slots, p).Draining?
    ensures Enabled(t, Gc(p.slot))
    ensures var x := SessionOf(t.slots, p); Step(t, Gc(p.slot)) == None <==> x.remote == None && !x.closes.sent
  {
  }

  /** Nothing saves such a channel: no run that goes on has collected it. */
  lemma {:induction false} NeverCollected(t: Table, es: seq<Event>, p: Ptr, t': Table)
    requires Inv(t) && Unique(t.slots) && Settled(t.slots, p) && p.serial < t.next && FairRuns(t, es, p.slot, t')
    requires var x := SessionOf(t.slots, p); x.Draining? && x.remote == None && !x.closes.sent
    ensures Gc(p.slot) !in es
    ensures var x := SessionOf(t'.slots, p); x.Draining? && x.remote == None && !x.closes.sent
    decreases |es|
  {
    if es != [] {
      var e := es[0];
      CollectionIsFatal(t, p);
      assert e != Gc(p.slot) && es == [e] + es[1..];
      StepKeeps(t, e);
      StepUnique(t, e);
      StepSeen(t, e, p);
      SerialsGrow(t, e);
      NeverCollected(Step(t, e).value.t, es[1..], p, t');
    }
  }

  // ---- the one way to lose a client

  /** An OPEN with an empty type and id 7. */
  function OpenSeven(): seq<byte> { [0, 90] + (Str([]) + (U32(7) + [])) }

  lemma OneClientOneProxy() returns (t: Table)
    ensures Inv(t) && Runs(Table([], [], 0), [Alloc(MuxClient), Packet(0, OpenSeven())], t)
    ensures |t.slots| > 1 && t.slots[0] == Some(Blank(0, 0, MuxClient))
    ensures t.slots[1] == Some(Proxy(Ptr(0, 0), 7, None).(self := 1, serial := 1))
  {
    var t0 := Table([], [], 0);
    var t1 := New(t0, Blank(0, 0, MuxClient)).value;
    assert t1.slots[0] == Some(Blank(0, 0, MuxClient));
    assert FreeSlot(t1.slots, 0) == 1;
    OpenBegins(t1, Ptr(0, 0), 0, [], 7, []);
    t := Downstream(t1, Ptr(0, 0), OpenSeven()).next.t;
    var es := [Alloc(MuxClient), Packet(0, OpenSeven())];
    assert es[1..] == [Packet(0, OpenSeven())] && es[1..][1..] == [];
    DownstreamKeeps(t1, Ptr(0, 0), OpenSeven());
  }

  /** Four events after which a proxy points to a channel that is no longer there: a client that
      opened a channel sends a packet too short to parse, is marked dead and then collected. */
  lemma DeadClientLeavesProxy() returns (t: Table, dead: Table, after: Table)
    ensures Runs(Table([], [], 0), [Alloc(MuxClient), Packet(0, OpenSeven())], t)
    ensures Inv(t) && Enabled(t, Packet(0, [])) && KillsReferenced(t, Packet(0, []))
    ensures Step(t, Packet(0, [])) == Some(Next(dead, []))
    ensures Enabled(dead, Gc(0)) && Step(dead, Gc(0)) == Some(Next(after, []))
    ensures SessionOf(after.slots, Ptr(1, 1)) == Serving(Ptr(0, 0), 7, None, Closes(false, false))
    ensures !Live(after.slots, Ptr(0, 0))
  {
    t := OneClientOneProxy();
    dead, after := DeadIsFreed(t);
  }

  lemma DeadIsFreed(t: Table) returns (dead: Table, after: Table)
    requires |t.slots| > 1 && t.slots[0] == Some(Blank(0, 0, MuxClient))
    requires t.slots[1] == Some(Proxy(Ptr(0, 0), 7, None).(self := 1, serial := 1))
    ensures Enabled(t, Packet(0, [])) && KillsReferenced(t, Packet(0, []))
    ensures Step(t, Packet(0, [])) == Some(Next(dead, []))
    ensures Enabled(dead, Gc(0)) && Step(dead, Gc(0)) == Some(Next(after, []))
    ensures SessionOf(after.slots, Ptr(1, 1)) == Serving(Ptr(0, 0), 7, None, Closes(false, false))
    ensures !Live(after.slots, Ptr(0, 0))
  {
    assert t.slots[1].value.ctx == Some(PtrTo(t.slots[0].value));
    dead := MarkDead(t, 0);
    after := Free(dead, 0);
  }

  /** A client that opens a channel and leaves before the server has answered takes the process with
      it: the next collection is fatal. */
  lemma UnansweredOpenIsFatal() returns (t: Table, left: Table)
    ensures Runs(Table([], [], 0), [Alloc(MuxClient), Packet(0, OpenSeven())], t)
    ensures Inv(t) && Enabled(t, Leave(0)) && Step(t, Leave(0)) == Some(Next(left, []))
    ensures SessionOf(left.slots, Ptr(1, 1)) == Draining(None, Closes(false, false))
    ensures Enabled(left, Gc(1)) && Step(left, Gc(1)) == None
  {
    t := OneClientOneProxy();
    left := Free(t, 0);
    FreeKeeps(t, 0);
    FreeSeen(t, 0, Ptr(1, 1));
    CollectionIsFatal(left, Ptr(1, 1));
  }
}
