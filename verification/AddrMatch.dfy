/**
 * The operations of addr.c on whole addresses: what a CIDR match means, and that incrementing
 * walks through exactly the addresses that match.
 */
module AddrMatch {
  import opened Bits
  import opened Addr

  datatype Af = Inet | Inet6 | Other

  datatype Xaddr = Xaddr(af: Af, w: seq<nat>, scope: nat)

  predicate IsAddr(a: Xaddr) { |a.w| == 4 && Words(a.w) }

  /** Number of words in use. */
  function Size(af: Af): nat { if af == Inet then 1 else 4 }

  predicate MasklenValid(af: Af, l: nat) { af != Other && l <= 32 * Size(af) }

  function Active(a: Xaddr): (ws: seq<nat>)
    requires IsAddr(a)
    ensures Words(ws) && |ws| == Size(a.af)
  {
    a.w[..Size(a.af)]
  }

  /** The address as a number. */
  function Number(a: Xaddr): nat
    requires IsAddr(a)
  {
    Value(Active(a))
  }

  // ---- the operations

  function WithActive(a: Xaddr, ws: seq<nat>): Xaddr
    requires IsAddr(a) && |ws| == Size(a.af)
  {
    a.(w := ws + a.w[Size(a.af)..])
  }

  /** addr_and with a network mask. */
  function Masking(a: Xaddr, l: nat): Xaddr
    requires IsAddr(a) && MasklenValid(a.af, l)
  {
    WithActive(a, AndWords(Active(a), NetWords(Size(a.af), l)))
  }

  /** addr_host_to_all1s. */
  function AllOnes(a: Xaddr, l: nat): Xaddr
    requires IsAddr(a) && MasklenValid(a.af, l)
  {
    NetWordsAreWords(Size(a.af), l);
    WithActive(a, OrWords(Active(a), Inverted(NetWords(Size(a.af), l))))
  }

  /** addr_host_is_all0s. */
  predicate HostIsZero(a: Xaddr, l: nat)
    requires IsAddr(a) && MasklenValid(a.af, l)
  {
    NetWordsAreWords(Size(a.af), l);
    forall i :: 0 <= i < Size(a.af) ==> AndWords(Active(a), Inverted(NetWords(Size(a.af), l)))[i] == 0
  }

  /** addr_cmp. */
  function Cmp(a: Xaddr, b: Xaddr): int
    requires IsAddr(a) && IsAddr(b)
  {
    if a.af != b.af then (if a.af == Inet6 then 1 else -1)
    else match a.af
      case Inet => if a.w[0] == b.w[0] then 0 else if a.w[0] > b.w[0] then 1 else -1
      case Inet6 =>
        var d := FirstDiff(Flat(a.w), Flat(b.w), 0);
        if d != 0 then d
        else if a.scope == b.scope then 0
        else if a.scope > b.scope then 1 else -1
      case Other => -1
  }

  /** addr_netmatch. */
  function NetMatch(host: Xaddr, net: Xaddr, l: nat): int
    requires IsAddr(host) && IsAddr(net)
  {
    if host.af != net.af || !MasklenValid(host.af, l) then -1
    else
      MaskingIsAddr(host, l);
      Cmp(Masking(host, l), net)
  }

  /** addr_increment. */
  function Next(a: Xaddr): Xaddr
    requires IsAddr(a)
  {
    if a.af == Other then a else WithActive(a, Incremented(Active(a)))
  }

  // ---- their meaning

  lemma {:induction false} AndStaysSmall(a: nat, b: nat)
    ensures And(a, b) <= a
    decreases a + b
  {
    if a > 0 || b > 0 { AndStaysSmall(a / 2, b / 2); }
  }

  lemma {:induction false} AndWordsAreWords(a: seq<nat>, b: seq<nat>)
    requires Words(a) && |a| == |b|
    ensures Words(AndWords(a, b))
  {
    if a != [] {
      AndWordsAreWords(a[1..], b[1..]);
      AndStaysSmall(a[0], b[0]);
    }
  }

  lemma {:induction false} OrWordsAreWords(a: seq<nat>, b: seq<nat>)
    requires Words(a) && Words(b) && |a| == |b|
    ensures Words(OrWords(a, b))
  {
    if a != [] {
      OrWordsAreWords(a[1..], b[1..]);
      WordIsPow2();
      OrBound(a[0], b[0], 32);
    }
  }

  lemma {:induction false} InvertedAreWords(a: seq<nat>)
    requires Words(a)
    ensures Words(Inverted(a))
  {
    if a != [] { InvertedAreWords(a[1..]); }
  }

  lemma WithActiveWords(a: Xaddr, ws: seq<nat>)
    requires IsAddr(a) && |ws| == Size(a.af) && Words(ws)
    ensures IsAddr(WithActive(a, ws)) && Active(WithActive(a, ws)) == ws
  {
  }

  lemma MaskingIsAddr(a: Xaddr, l: nat)
    requires IsAddr(a) && MasklenValid(a.af, l)
    ensures IsAddr(Masking(a, l)) && Number(Masking(a, l)) == Masked(Active(a), l)
  {
    var ws := AndWords(Active(a), NetWords(Size(a.af), l));
    AndWordsAreWords(Active(a), NetWords(Size(a.af), l));
    WithActiveWords(a, ws);
    MaskedIsAnd(Active(a), l);
  }

  lemma AllOnesIsAddr(a: Xaddr, l: nat)
    requires IsAddr(a) && MasklenValid(a.af, l)
    ensures IsAddr(AllOnes(a, l)) && Number(AllOnes(a, l)) == Filled(Active(a), l)
  {
    var net := NetWords(Size(a.af), l);
    NetWordsAreWords(Size(a.af), l);
    InvertedAreWords(net);
    OrWordsAreWords(Active(a), Inverted(net));
    WithActiveWords(a, OrWords(Active(a), Inverted(net)));
    FilledIsOr(Active(a), l);
  }

  lemma {:induction false} ZeroValue(ws: seq<nat>)
    ensures Value(ws) == 0 <==> forall i :: 0 <= i < |ws| ==> ws[i] == 0
  {
    if ws != [] {
      ZeroValue(ws[1..]);
      assert ws == [ws[0]] + ws[1..];
      if ws[0] > 0 { MulMono(1, ws[0], Pow2(32 * (|ws| - 1))); }
    }
  }

  /** The host part is zero exactly if masking changes nothing. */
  lemma HostIsZeroMeans(a: Xaddr, l: nat)
    requires IsAddr(a) && MasklenValid(a.af, l)
    ensures HostIsZero(a, l) <==> Masked(Active(a), l) == Number(a)
  {
    HostPart(Active(a), l);
    ZeroValue(AndWords(Active(a), Inverted(NetWords(Size(a.af), l))));
  }

  predicate SameScope(a: Xaddr, b: Xaddr) { a.af == Inet6 ==> a.scope == b.scope }

  /** addr_cmp orders addresses of one family by number and then, for IPv6, by scope. */
  lemma CmpOrders(a: Xaddr, b: Xaddr)
    requires IsAddr(a) && IsAddr(b) && a.af == b.af != Other
    ensures Cmp(a, b) == 0 <==> Number(a) == Number(b) && SameScope(a, b)
    ensures Number(a) < Number(b) ==> Cmp(a, b) < 0
    ensures Number(a) > Number(b) ==> Cmp(a, b) > 0
  {
    if a.af == Inet {
      OneWord(a.w[0]);
      OneWord(b.w[0]);
      assert Active(a) == [a.w[0]] && Active(b) == [b.w[0]];
    } else {
      assert Active(a) == a.w && Active(b) == b.w;
      FlatValue(a.w);
      FlatValue(b.w);
      DiffIsOrder(Flat(a.w), Flat(b.w), 0);
    }
  }

  lemma OneWord(w: nat)
    ensures Value([w]) == w
  {
    assert [w][1..] == [];
    assert Pow2(0) == 1;
  }

  lemma SameBlock(v: nat, s: nat, q: nat, q': nat)
    requires IsFloor(v, s, q) && IsFloor(v, s, q')
    ensures q == q'
  {
    if q < q' {
      TimesGrows(q, q', s);
    } else if q' < q {
      TimesGrows(q', q, s);
    }
  }

  /** A host matches exactly if family and scope agree, the network has no host bits, and the host
      lies between the network and its all-ones address. */
  lemma NetMatchMeans(host: Xaddr, net: Xaddr, l: nat)
    requires IsAddr(host) && IsAddr(net)
    ensures MasklenValid(net.af, l) ==> IsAddr(AllOnes(net, l))
    ensures NetMatch(host, net, l) == 0 <==>
      && host.af == net.af && MasklenValid(net.af, l) && SameScope(host, net)
      && HostIsZero(net, l) && Number(net) <= Number(host) <= Number(AllOnes(net, l))
  {
    if MasklenValid(net.af, l) { AllOnesIsAddr(net, l); }
    if host.af == net.af && MasklenValid(host.af, l) {
      MaskingIsAddr(host, l);
      HostIsZeroMeans(net, l);
      CmpOrders(Masking(host, l), net);
      assert NetMatch(host, net, l) == Cmp(Masking(host, l), net);
      assert SameScope(Masking(host, l), net) == SameScope(host, net);
      InBlock(host, net, l);
    }
  }

  lemma InBlock(host: Xaddr, net: Xaddr, l: nat)
    requires IsAddr(host) && IsAddr(net) && host.af == net.af && MasklenValid(net.af, l)
    ensures Masked(Active(host), l) == Number(net) <==>
      Masked(Active(net), l) == Number(net) && Number(net) <= Number(host) <= Filled(Active(net), l)
  {
    var s := Pow2(32 * Size(net.af) - l);
    var qh := MaskedValue(Active(host), l);
    var qn := MaskedValue(Active(net), l);
    BlockArith(Number(host), Number(net), s, qh, qn);
  }

  lemma BlockArith(h: nat, n: nat, s: nat, qh: nat, qn: nat)
    requires IsFloor(h, s, qh) && IsFloor(n, s, qn)
    ensures qh * s == n <==> qn * s == n && n <= h <= qn * s + s - 1
  {
    if qh * s == n {
      SameBlock(n, s, qh, qn);
    }
    if qn * s == n && n <= h <= qn * s + s - 1 {
      SameBlock(h, s, qh, qn);
    }
  }

  // ---- enumeration

  /** j increments. */
  function Walk(a: Xaddr, j: nat): Xaddr
    requires IsAddr(a) && a.af != Other
    ensures IsAddr(Walk(a, j)) && Walk(a, j).af == a.af && Walk(a, j).scope == a.scope
  {
    if j == 0 then a
    else
      var b := Walk(a, j - 1);
      OneMore(b);
      Next(b)
  }

  lemma OneMore(a: Xaddr)
    requires IsAddr(a) && a.af != Other
    ensures IsAddr(Next(a)) && Next(a).af == a.af && Next(a).scope == a.scope
    ensures Number(a) + 1 < Pow2(32 * Size(a.af)) ==> Number(Next(a)) == Number(a) + 1
  {
    IncrementAdds(Active(a));
    WithActiveWords(a, Incremented(Active(a)));
  }

  lemma {:induction false} WalkAdds(a: Xaddr, j: nat)
    requires IsAddr(a) && a.af != Other && Number(a) + j < Pow2(32 * Size(a.af))
    ensures Number(Walk(a, j)) == Number(a) + j
  {
    if j > 0 {
      WalkAdds(a, j - 1);
      OneMore(Walk(a, j - 1));
    }
  }

  /** A network with no host bits ends where its block ends, inside the address space. */
  lemma BlockEnds(net: Xaddr, l: nat)
    requires IsAddr(net) && MasklenValid(net.af, l) && HostIsZero(net, l)
    ensures IsAddr(AllOnes(net, l))
    ensures Number(AllOnes(net, l)) == Number(net) + Pow2(32 * Size(net.af) - l) - 1 < Pow2(32 * Size(net.af))
  {
    AllOnesIsAddr(net, l);
    HostIsZeroMeans(net, l);
    var q := MaskedValue(Active(net), l);
    assert Number(AllOnes(net, l)) == Number(net) + Pow2(32 * Size(net.af) - l) - 1;
    ValueBound(Active(AllOnes(net, l)));
  }

  /** Incrementing from the network reaches exactly the hosts that match, 2^(W-l) of them... */
  lemma WalkReachesMatches(host: Xaddr, net: Xaddr, l: nat)
    requires IsAddr(host) && IsAddr(net) && MasklenValid(net.af, l) && HostIsZero(net, l)
    ensures NetMatch(host, net, l) == 0 <==>
      exists j: nat :: j < Pow2(32 * Size(net.af) - l) && Cmp(Walk(net, j), host) == 0
  {
    var s := Pow2(32 * Size(net.af) - l);
    NetMatchMeans(host, net, l);
    BlockEnds(net, l);
    if NetMatch(host, net, l) == 0 {
      var j := Number(host) - Number(net);
      WalkAdds(net, j);
      CmpOrders(Walk(net, j), host);
    }
    forall j: nat | j < s && Cmp(Walk(net, j), host) == 0 ensures NetMatch(host, net, l) == 0 {
      assert host.af == net.af;
      WalkAdds(net, j);
      CmpOrders(Walk(net, j), host);
    }
  }

  /** ... in strictly increasing order. */
  lemma WalkIncreases(net: Xaddr, l: nat, i: nat, j: nat)
    requires IsAddr(net) && MasklenValid(net.af, l) && HostIsZero(net, l) && i < j < Pow2(32 * Size(net.af) - l)
    ensures Cmp(Walk(net, i), Walk(net, j)) < 0
  {
    BlockEnds(net, l);
    WalkAdds(net, i);
    WalkAdds(net, j);
    CmpOrders(Walk(net, i), Walk(net, j));
  }

  // ---- the code

  class Address {
    var af: Af
    var w: seq<nat>
    var scope: nat

    ghost function View(): Xaddr reads this { Xaddr(af, w, scope) }

    constructor (a: Xaddr)
      ensures View() == a
    {
      af, w, scope := a.af, a.w, a.scope;
    }

    /** addr_netmask. */
    method Netmask(af: Af, l: nat) returns (ok: bool)
      modifies this
      ensures ok == MasklenValid(af, l)
      ensures ok ==> IsAddr(View()) && this.af == af && Active(View()) == NetWords(Size(af), l)
    {
      if !MasklenValid(af, l) {
        return false;
      }
      NetWordsAreWords(Size(af), l);
      this.af, w, scope := af, [0, 0, 0, 0], 0;
      if af == Inet {
        if l != 0 {
          w := w[0 := MaskWord(l)];
        }
        OneMaskWord(l);
      } else {
        w := MaskLoop(4, l);
      }
      ok := true;
    }

    /** The loop of addr_netmask over the n words of an address. */
    static method MaskLoop(n: nat, l: nat) returns (w: seq<nat>)
      requires l <= 32 * n
      ensures w == NetWords(n, l)
    {
      w := seq(n, i => 0);
      var i: nat, left: nat := 0, l;
      while i < n && left >= 32
        invariant i <= n == |w| && left == l - 32 * i
        invariant forall k :: 0 <= k < i ==> w[k] == ALL
        invariant forall k :: i <= k < n ==> w[k] == 0
      {
        w := w[i := ALL];
        i, left := i + 1, left - 32;
      }
      if i < n && left != 0 {
        w := w[i := MaskWord(left)];
      }
      forall k | 0 <= k < n ensures w[k] == NetWords(n, l)[k] {
        NetWordsAt(n, l, k);
      }
    }

    /** addr_invert. */
    method Invert() returns (ok: bool)
      requires IsAddr(View())
      modifies this
      ensures ok == (af != Other) && af == old(af) && IsAddr(View())
      ensures ok ==> Active(View()) == Inverted(old(Active(View())))
      ensures !ok ==> View() == old(View())
    {
      match af
      case Inet =>
        ghost var was := Active(View());
        assert was == [w[0]] && was[1..] == [];
        assert Inverted(was) == [ALL - was[0]] + Inverted(was[1..]);
        w := w[0 := ALL - w[0]];
        ok := true;
      case Inet6 =>
        ghost var was := w;
        assert Active(View()) == was;
        InvertedAt(was);
        for i := 0 to 4
          invariant |w| == 4
          invariant forall k :: 0 <= k < i ==> w[k] == ALL - was[k]
          invariant forall k :: i <= k < 4 ==> w[k] == was[k]
          modifies this`w
        {
          w := w[i := ALL - w[i]];
        }
        assert w == Inverted(was) && Active(View()) == w;
        ok := true;
      case Other => ok := false;
    }

    /** addr_and with this as the destination. The destination is overwritten with a before b is
        looked at, so with b as the destination a is left. */
    method SetAnd(a: Address, b: Address) returns (ok: bool)
      requires IsAddr(a.View()) && IsAddr(b.View())
      modifies this
      ensures ok == old(a.af == b.af && a.af != Other)
      ensures ok && this != b ==>
        View() == old(WithActive(a.View(), AndWords(Active(a.View()), Active(b.View()))))
      ensures ok && this == b ==> View() == old(a.View())
      ensures old(a.af != b.af) ==> View() == old(View())
    {
      if a.af != b.af {
        return false;
      }
      ghost var (x, y) := (a.View(), if this == b then a.View() else b.View());
      AndSelf(Active(x));
      af, w, scope := a.af, a.w, a.scope;
      match af
      case Inet =>
        AndAt(Active(x), Active(y));
        w := w[0 := And(w[0], b.w[0])];
        ok := true;
      case Inet6 =>
        AndAt(x.w, y.w);
        for i := 0 to 4
          invariant |w| == 4
          invariant forall k :: 0 <= k < i ==> w[k] == And(x.w[k], y.w[k])
          invariant forall k :: i <= k < 4 ==> w[k] == x.w[k]
          modifies this`w
        {
          w := w[i := And(w[i], b.w[i])];
        }
        assert Active(x) == x.w && Active(y) == y.w;
        ok := true;
      case Other => ok := false;
    }

    /** addr_or with this as the destination, likewise. */
    method SetOr(a: Address, b: Address) returns (ok: bool)
      requires IsAddr(a.View()) && IsAddr(b.View())
      modifies this
      ensures ok == old(a.af == b.af && a.af != Other)
      ensures ok && this != b ==>
        View() == old(WithActive(a.View(), OrWords(Active(a.View()), Active(b.View()))))
      ensures ok && this == b ==> View() == old(a.View())
      ensures old(a.af != b.af) ==> View() == old(View())
    {
      if a.af != b.af {
        return false;
      }
      ghost var (x, y) := (a.View(), if this == b then a.View() else b.View());
      OrSelf(Active(x));
      af, w, scope := a.af, a.w, a.scope;
      match af
      case Inet =>
        OrAt(Active(x), Active(y));
        w := w[0 := Or(w[0], b.w[0])];
        ok := true;
      case Inet6 =>
        OrAt(x.w, y.w);
        for i := 0 to 4
          invariant |w| == 4
          invariant forall k :: 0 <= k < i ==> w[k] == Or(x.w[k], y.w[k])
          invariant forall k :: i <= k < 4 ==> w[k] == x.w[k]
          modifies this`w
        {
          w := w[i := Or(w[i], b.w[i])];
        }
        assert Active(x) == x.w && Active(y) == y.w;
        ok := true;
      case Other => ok := false;
    }

    /** addr_host_to_all1s. */
    method HostToAllOnes(l: nat) returns (ok: bool)
      requires IsAddr(View())
      modifies this
      ensures ok == old(MasklenValid(af, l))
      ensures ok ==> View() == AllOnes(old(View()), l)
      ensures !ok ==> View() == old(View())
    {
      var mask := new Address(Xaddr(Other, [], 0));
      ok := mask.Hostmask(af, l);
      if !ok {
        return;
      }
      ok := SetOr(this, mask);
    }

    /** addr_hostmask. */
    method Hostmask(af: Af, l: nat) returns (ok: bool)
      modifies this
      ensures ok == MasklenValid(af, l)
      ensures ok ==> IsAddr(View()) && this.af == af && Words(NetWords(Size(af), l))
      ensures ok ==> Active(View()) == Inverted(NetWords(Size(af), l))
    {
      ok := Netmask(af, l);
      if ok {
        NetWordsAreWords(Size(af), l);
        ok := Invert();
      }
    }

    /** addr_cmp: IPv6 addresses octet by octet, then by scope. */
    method Compare(b: Address) returns (r: int)
      requires IsAddr(View()) && IsAddr(b.View())
      ensures r == Cmp(View(), b.View())
    {
      if af != b.af {
        return if af == Inet6 then 1 else -1;
      }
      match af
      case Inet =>
        if w[0] == b.w[0] {
          return 0;
        }
        r := if w[0] > b.w[0] then 1 else -1;
      case Inet6 =>
        var (s, t) := (Flat(w), Flat(b.w));
        for i := 0 to 16
          invariant FirstDiff(s, t, 0) == FirstDiff(s, t, i)
        {
          if s[i] != t[i] {
            var x: int, y: int := s[i], t[i];
            return x - y;
          }
        }
        if scope == b.scope {
          return 0;
        }
        r := if scope > b.scope then 1 else -1;
      case Other => r := -1;
    }

    /** addr_netmatch of this host. */
    method Matches(net: Address, l: nat) returns (r: int)
      requires IsAddr(View()) && IsAddr(net.View())
      ensures r == NetMatch(View(), net.View(), l)
    {
      if af != net.af {
        return -1;
      }
      var mask := new Address(Xaddr(Other, [], 0));
      var ok := mask.Netmask(af, l);
      if !ok {
        return -1;
      }
      var result := new Address(Xaddr(Other, [], 0));
      ok := result.SetAnd(this, mask);
      MaskingIsAddr(View(), l);
      r := result.Compare(net);
    }

    /** addr_increment: carry from the last word. */
    method Increment()
      requires IsAddr(View())
      modifies this`w
      ensures View() == Next(old(View()))
    {
      if af == Inet {
        ghost var was := Active(View());
        assert was == [w[0]] && was[..0] == [];
        assert Incremented(was) == [(w[0] + 1) % WORD];
        w := w[0 := (w[0] + 1) % WORD];
      } else if af == Inet6 {
        assert Active(View()) == w;
        w := CarryLoop(w);
      }
    }

    /** The loop of addr_increment, from the last word to the first. */
    static method CarryLoop(was: seq<nat>) returns (w: seq<nat>)
      ensures w == Incremented(was)
    {
      w := was;
      var k := |was|;
      assert was[..k] == was && w[k..] == [];
      while k > 0
        invariant 0 <= k <= |w| == |was| && w[..k] == was[..k]
        invariant Incremented(was) == Incremented(was[..k]) + w[k..]
      {
        var n := (w[k - 1] + 1) % WORD;
        ghost var (before, tail) := (was[..k], w[k..]);
        assert before[..k - 1] == was[..k - 1];
        w := w[k - 1 := n];
        assert w[k - 1..] == [n] + tail;
        if n != 0 {
          assert w == was[..k - 1] + [n] + tail;
          break;
        }
        k := k - 1;
      }
    }
  }

  lemma OneMaskWord(l: nat)
    requires l <= 32
    ensures NetWords(1, l) == [MaskWord(l)]
  {
  }

  lemma {:induction false} NetWordsAt(n: nat, l: nat, k: nat)
    requires l <= 32 * n && k < n
    ensures NetWords(n, l)[k] ==
      if 32 * k + 32 <= l then ALL else if l <= 32 * k then 0 else MaskWord(l - 32 * k)
    decreases n
  {
    MaskWordValue(32);
    if k > 0 { NetWordsAt(n - 1, There(l), k - 1); }
  }

  lemma {:induction false} InvertedAt(a: seq<nat>)
    requires Words(a)
    ensures forall k :: 0 <= k < |a| ==> Inverted(a)[k] == ALL - a[k]
  {
    if a != [] { InvertedAt(a[1..]); }
  }

  lemma {:induction false} AndAt(a: seq<nat>, b: seq<nat>)
    requires |a| == |b|
    ensures forall k :: 0 <= k < |a| ==> AndWords(a, b)[k] == And(a[k], b[k])
  {
    if a != [] { AndAt(a[1..], b[1..]); }
  }

  lemma {:induction false} OrAt(a: seq<nat>, b: seq<nat>)
    requires |a| == |b|
    ensures forall k :: 0 <= k < |a| ==> OrWords(a, b)[k] == Or(a[k], b[k])
  {
    if a != [] { OrAt(a[1..], b[1..]); }
  }
}
