/**
 * channel_new, channel_free, channel_by_remote_id and the two proxy handlers of channels.c as they
 * are written: loops over the table and updates in place, each proved to compute the step of
 * `MuxTable`.
 */
module MuxObject {
  import opened Octets
  import opened Wire
  import opened MuxTable

  /** Every channel is named after its slot. */
  predicate Named(s: Slots) { forall i :: 0 <= i < |s| && s[i].Some? ==> s[i].value.self == i }

  /** The remote forwardings of client c among the first n permissions, in order. */
  function Cancelled(ps: seq<Perm>, c: Chan, n: nat): seq<Perm>
    requires n <= |ps|
  {
    if n == 0 then []
    else if ps[n - 1].downstream == Some(PtrTo(c)) then Cancelled(ps, c, n - 1) + [ps[n - 1]]
    else Cancelled(ps, c, n - 1)
  }

  /** What is cancelled on the server is exactly what disappears from the permissions. */
  lemma {:induction false} CancelledAreCleared(ps: seq<Perm>, c: Chan, n: nat)
    requires n <= |ps|
    ensures forall p :: p in Cancelled(ps, c, n) <==> p in ps[..n] && p.downstream == Some(PtrTo(c))
    ensures forall p :: p in ClearPerms(ps, c, n)[..n] && p.downstream.Some? <==>
      p in ps[..n] && p.downstream.Some? && p !in Cancelled(ps, c, n)
  {
    if n > 0 {
      CancelledAreCleared(ps, c, n - 1);
      assert ps[..n] == ps[..n - 1] + [ps[n - 1]];
      var (q, r) := (ClearPerms(ps, c, n - 1), ClearPerms(ps, c, n));
      assert r[..n] == q[..n - 1] + [ClearPerm(ps[n - 1], c)];
    }
  }

  class ChannelTable {
    var channels: Slots
    var perms: seq<Perm>
    var next: nat
    var sent: seq<Out>
    var cancelled: seq<Perm>   // the forwardings cancelled on the server so far

    ghost function View(): Table reads this { Table(channels, perms, next) }

    constructor (n: nat)
      ensures View() == Table(seq(n, i => None), [], 0) && sent == [] && cancelled == []
    {
      channels, perms, next, sent, cancelled := seq(n, i => None), [], 0, [], [];
    }

    /** channel_new; the result is the slot, or nothing on the fatal exit. */
    method NewChannel(c: Chan) returns (r: Option<nat>)
      modifies this`channels, this`next
      ensures match New(old(View()), c)
        case None => r == None && View() == old(View())
        case Some(t) => r == Some(FreeSlot(old(channels), 0)) && View() == t
    {
      var i := 0;
      while i < |channels| && channels[i].Some?
        invariant i <= |channels| && FreeSlot(channels, 0) == FreeSlot(channels, i)
      {
        i := i + 1;
      }
      var found := i;
      if i >= |channels| {
        if |channels| > CHANNELS_MAX_CHANNELS {
          return None;
        }
        channels := channels + TEN_FREE;
      }
      channels := channels[found := Some(c.(self := found, serial := next))];
      next := next + 1;
      r := Some(found);
    }

    /** The detaching loop of channel_free. */
    method DetachProxies(c: Chan)
      modifies this`channels
      ensures channels == DetachAll(old(channels), c, |old(channels)|)
    {
      var i := 0;
      while i < |channels|
        invariant i <= |channels| == |old(channels)| && channels == DetachAll(old(channels), c, i)
      {
        if channels[i].Some? {
          var other := channels[i].value;
          if c.kind == MuxClient && other.kind == MuxProxy && other.ctx == Some(PtrTo(c)) {
            channels := channels[i := Some(other.(ctx := None, kind := Open, shut := true))];
          }
        }
        i := i + 1;
      }
    }

    /** mux_remove_remote_forwardings. */
    method RemoveForwardings(c: Chan)
      modifies this`perms, this`cancelled
      ensures perms == ClearPerms(old(perms), c, |old(perms)|)
      ensures cancelled == old(cancelled) + Cancelled(old(perms), c, |old(perms)|)
    {
      var i := 0;
      while i < |perms|
        invariant i <= |perms| == |old(perms)| && perms == ClearPerms(old(perms), c, i)
        invariant cancelled == old(cancelled) + Cancelled(old(perms), c, i)
      {
        if perms[i].downstream == Some(PtrTo(c)) {
          cancelled := cancelled + [perms[i]];
          perms := perms[i := Perm([], 0, None)];
        }
        i := i + 1;
      }
    }

    /** channel_free: the slot cleared is the one the channel is named after. */
    method FreeChannel(i: nat)
      requires Used(channels, i) && channels[i].value.self == i
      modifies this`channels, this`perms, this`cancelled
      ensures View() == Free(old(View()), i)
      ensures var c := old(channels)[i].value;
        cancelled == old(cancelled) + if c.kind == MuxClient then Cancelled(old(perms), c, |old(perms)|) else []
    {
      var c := channels[i].value;
      DetachProxies(c);
      if c.kind == MuxClient {
        RemoveForwardings(c);
      }
      channels := channels[c.self := None];
    }

    /** channel_by_remote_id; the table size stands for NULL. */
    method ByRemoteId(r: nat) returns (i: nat)
      ensures i == ByRemote(channels, r, 0)
    {
      i := 0;
      while i < |channels| && !(channels[i].Some? && channels[i].value.remote == Some(r))
        invariant i <= |channels| && ByRemote(channels, r, 0) == ByRemote(channels, r, i)
      {
        i := i + 1;
      }
    }

    /** The CLOSE case of channel_proxy_downstream. */
    method CloseFromClient(body: seq<byte>)
      requires |body| >= 4 && Named(channels)
      modifies this`channels, this`perms, this`cancelled
      ensures View() == CloseSent(old(View()), GetBE(body[..4]))
    {
      var i := ByRemoteId(GetBE(body[..4]));
      if i < |channels| {
        var c := channels[i].value;
        if c.closes.rcvd {
          FreeChannel(i);
        } else {
          channels := channels[i := Some(c.(closes := c.closes.(sent := true)))];
        }
      }
    }

    /** Allocation of a proxy and the rewritten message. */
    method OpenProxy(c: Chan, kind: nat, before: seq<byte>, after: seq<byte>) returns (a: Answer)
      modifies this`channels, this`next, this`sent
      ensures a == AddProxy(old(View()), c, kind, before, after)
      ensures if a.Sent? then View() == a.next.t && sent == old(sent) + a.next.outs
              else View() == old(View()) && sent == old(sent)
    {
      var slot := NewChannel(c);
      if slot == None {
        return Fatal;
      }
      var out := Up(kind, before + U32(slot.value) + after);
      sent := sent + [out];
      a := Sent(Next(Table(channels, perms, next), [out]));
    }

    /** channel_proxy_downstream. */
    method ProxyDownstream(client: Ptr, packet: seq<byte>) returns (a: Answer)
      requires Named(channels) && |packet| <= SSHBUF_SIZE_MAX
      modifies this
      ensures a == Downstream(old(View()), client, packet)
      ensures if a.Sent? then View() == a.next.t && sent == old(sent) + a.next.outs
              else View() == old(View()) && sent == old(sent)
    {
      if |packet| < 2 {
        return Refused;
      }
      var (kind, body) := (packet[1], packet[2..]);
      if kind == OPEN {
        a := OpenFromClient(client, body);
      } else if kind == OPEN_CONFIRMATION {
        a := ConfirmFromClient(client, body);
      } else if kind == GLOBAL_REQUEST {
        a := ForwardFromClient(client, body);
      } else {
        if kind == CLOSE && |body| >= 4 {
          CloseFromClient(body);
        }
        sent := sent + [Up(kind, body)];
        a := Sent(Next(Table(channels, perms, next), [Up(kind, body)]));
      }
    }

    method OpenFromClient(client: Ptr, body: seq<byte>) returns (a: Answer)
      requires |body| <= SSHBUF_SIZE_MAX
      modifies this`channels, this`next, this`sent
      ensures a == DownOpen(old(View()), client, body)
      ensures if a.Sent? then View() == a.next.t && sent == old(sent) + a.next.outs
              else View() == old(View()) && sent == old(sent)
    {
      var original := new Sshbuf(body);
      var ctype := original.GetCString();
      if ctype == None {
        return Refused;
      }
      var id := original.GetNumber(4);
      if id == None {
        return Refused;
      }
      a := OpenProxy(Proxy(client, id.value, None), OPEN, Str(ctype.value), original.data);
    }

    method ConfirmFromClient(client: Ptr, body: seq<byte>) returns (a: Answer)
      requires |body| <= SSHBUF_SIZE_MAX
      modifies this`channels, this`next, this`sent
      ensures a == DownConfirm(old(View()), client, body)
      ensures if a.Sent? then View() == a.next.t && sent == old(sent) + a.next.outs
              else View() == old(View()) && sent == old(sent)
    {
      var original := new Sshbuf(body);
      var remote := original.GetNumber(4);
      if remote == None {
        return Refused;
      }
      var id := original.GetNumber(4);
      if id == None {
        return Refused;
      }
      a := OpenProxy(Proxy(client, id.value, Some(remote.value)), OPEN_CONFIRMATION, U32(remote.value),
                     original.data);
    }

    method ForwardFromClient(client: Ptr, body: seq<byte>) returns (a: Answer)
      requires |body| <= SSHBUF_SIZE_MAX
      modifies this`perms, this`sent
      ensures a == DownForward(old(View()), client, body)
      ensures if a.Sent? then View() == a.next.t && sent == old(sent) + a.next.outs
              else View() == old(View()) && sent == old(sent)
    {
      var original := new Sshbuf(body);
      var ctype := original.GetCString();
      if ctype == None || ctype.value != TCPIP_FORWARD {
        return Refused;
      }
      var want := original.GetNumber(1);
      if want == None {
        return Refused;
      }
      var host := original.GetCString();
      if host == None {
        return Refused;
      }
      var port := original.GetNumber(4);
      if port == None || port.value > 65535 {
        return Refused;
      }
      perms := perms + [Perm(host.value, port.value, Some(client))];
      sent := sent + [Up(GLOBAL_REQUEST, body)];
      a := Sent(Next(Table(channels, perms, next), [Up(GLOBAL_REQUEST, body)]));
    }

    /** channel_proxy_upstream: whether the message was for a mux client. */
    method ProxyUpstream(i: nat, kind: nat, payload: seq<byte>) returns (taken: bool)
      requires Named(channels) && Used(channels, i)
      modifies this
      ensures var c := old(channels)[i].value;
        && taken == (c.kind == MuxProxy && c.ctx.Some? && Proxied(kind))
        && (taken ==> var n := Upstream(old(View()), i, kind, payload);
              View() == n.t && sent == old(sent) + n.outs)
        && (!taken ==> View() == old(View()) && sent == old(sent))
    {
      var c := channels[i].value;
      if c.kind != MuxProxy || c.ctx == None || !Proxied(kind) {
        return false;
      }
      sent := sent + [Down(c.ctx.value, kind, U32(c.downId) + payload)];
      if kind == OPEN_CONFIRMATION {
        if |payload| > 4 {
          channels := channels[i := Some(c.(remote := Some(GetBE(payload[..4]))))];
        }
      } else if kind == CLOSE {
        if c.closes.sent {
          FreeChannel(i);
        } else {
          channels := channels[i := Some(c.(closes := c.closes.(rcvd := true)))];
        }
      }
      taken := true;
    }
  }
}
