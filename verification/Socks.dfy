/**
 * The incremental SOCKS 4, 4A and 5 decoder of dynamic port forwarding (channels.c; sections
 * 3 and 4 of RFC 1928). Octets arrive in arbitrary slices; the handler runs until it can make
 * no more progress, and decides nothing that a later slice could change.
 */
module Socks {
  import opened Octets

  const NI_MAXHOST: nat := 1025
  const SCAN_LIMIT: nat := 1024

  datatype Host = V4(addr: seq<byte>) | V6(addr: seq<byte>) | Named(name: seq<byte>)

  /** What one run of a decoder decides about the front of the input. */
  datatype Decision =
    | NeedMore
    | Reject
    | Greeted(used: nat)
    | Connect(used: nat, host: Host, port: nat)

  function U16(hi: byte, lo: byte): nat { 256 * (hi as int) + (lo as int) }

  /** The number of authentication methods a SOCKS5 greeting lists, or the length of a host name. */
  function Count(b: byte): nat { b as int }

  // ---- SOCKS4 and SOCKS4A

  datatype Scan = Missing | TooLong | At(pos: nat)

  /** Look for `need` further NULs from index i on. */
  function ScanNuls(p: seq<byte>, i: nat, need: nat): Scan
    requires i <= |p|
    decreases |p| - i
  {
    if i == |p| then Missing
    else if p[i] == 0 && need == 1 then At(i)
    else if i > SCAN_LIMIT then TooLong
    else ScanNuls(p, i + 1, if p[i] == 0 && need > 0 then need - 1 else need)
  }

  /** Index of the first NUL at or after i, or |p|. */
  function NextNul(p: seq<byte>, i: nat): (k: nat)
    requires i <= |p|
    ensures i <= k <= |p|
    ensures k < |p| ==> p[k] == 0
    ensures forall j :: i <= j < k ==> p[j] != 0
    decreases |p| - i
  {
    if i == |p| || p[i] == 0 then i else NextNul(p, i + 1)
  }

  /** SOCKS4A marks itself by the invalid address 0.0.0.x. */
  predicate Is4A(p: seq<byte>)
    requires |p| >= 8
  {
    p[4] == 0 && p[5] == 0 && p[6] == 0 && p[7] != 0
  }

  function Decode4(p: seq<byte>): Decision {
    if |p| < 8 then NeedMore
    else
      match ScanNuls(p, 8, if Is4A(p) then 2 else 1)
      case Missing => NeedMore
      case TooLong => Reject
      case At(_) => Header4At(p)
  }

  /** A header that the scan found complete. */
  function Header4At(p: seq<byte>): Decision
    requires |p| >= 8
  {
    var user := NextNul(p, 8);
    if user == |p| then Reject
    else Parsed4(p, user, if Is4A(p) then NextNul(p, user + 1) else user)
  }

  /** A header whose user name ends at `user` and, with a host name, at `end`. */
  function Parsed4(p: seq<byte>, user: nat, end: nat): Decision
    requires 8 <= user < |p| && user <= end <= |p| && (Is4A(p) ==> user < end)
  {
    var port := U16(p[2], p[3]);
    if Is4A(p) then
      if end == |p| || end - user > NI_MAXHOST || p[1] != 1 then Reject
      else Connect(end + 1, Named(p[user + 1..end]), port)
    else if p[1] != 1 then Reject
    else Connect(user + 1, V4(p[4..8]), port)
  }

  const Reply4: seq<byte> := [0, 90, 0, 0, 0, 0, 0, 0]

  // ---- SOCKS5

  /** A C string ends at its first NUL. */
  function CString(s: seq<byte>): seq<byte> { s[..NextNul(s, 0)] }

  function Greeting5(p: seq<byte>): Decision {
    if |p| < 2 then NeedMore
    else if |p| < Count(p[1]) + 2 then NeedMore
    else if 0 in p[2..Count(p[1]) + 2] then Greeted(Count(p[1]) + 2)
    else Reject
  }

  function Request5(p: seq<byte>): Decision {
    if |p| < 5 then NeedMore
    else if p[0] != 5 || p[1] != 1 || p[2] != 0 then Reject
    else if p[3] == 1 then
      if |p| < 10 then NeedMore else Connect(10, V4(p[4..8]), U16(p[8], p[9]))
    else if p[3] == 3 then
      var n := Count(p[4]);
      if |p| < n + 7 then NeedMore
      else if n >= NI_MAXHOST then Reject
      else Connect(n + 7, Named(CString(p[5..n + 5])), U16(p[n + 5], p[n + 6]))
    else if p[3] == 4 then
      if |p| < 22 then NeedMore else Connect(22, V6(p[4..20]), U16(p[20], p[21]))
    else Reject
  }

  const Reply5Greeting: seq<byte> := [5, 0]
  const Reply5: seq<byte> := [5, 0, 0, 1, 0, 0, 0, 0, 0, 0]

  // ---- the handler channel_pre_dynamic

  datatype Status = Reading | Dead | Opening(host: Host, port: nat)

  datatype Chan = Chan(input: seq<byte>, output: seq<byte>, authDone: bool, status: Status)

  const Start: Chan := Chan([], [], false, Reading)

  function Decide(p: seq<byte>, authDone: bool): Decision {
    if |p| < 3 then NeedMore
    else if p[0] == 4 then Decode4(p)
    else if p[0] == 5 then if authDone then Request5(p) else Greeting5(p)
    else Reject
  }

  function Reply(p: seq<byte>): seq<byte> {
    if p != [] && p[0] == 4 then Reply4 else Reply5
  }

  /** Run the handler until it needs more input or is done. */
  function Settle(c: Chan): Chan
    decreases if c.authDone then 0 else 1
  {
    var d := Decide(c.input, c.authDone);
    match d
    case NeedMore => c
    case Reject => c.(input := [], status := Dead)
    case Greeted(used) =>
      if c.authDone || used > |c.input| then c
      else Settle(c.(input := c.input[used..], output := c.output + Reply5Greeting, authDone := true))
    case Connect(used, host, port) =>
      if used > |c.input| then c
      else c.(input := c.input[used..], output := c.output + Reply(c.input), status := Opening(host, port))
  }

  /** A slice arrives. Once the destination is known the octets are payload; a dead channel takes none. */
  function Feed(c: Chan, slice: seq<byte>): Chan {
    match c.status
    case Dead => c
    case Opening(_, _) => c.(input := c.input + slice)
    case Reading => Settle(c.(input := c.input + slice))
  }

  function FeedAll(c: Chan, slices: seq<seq<byte>>): Chan
    decreases |slices|
  {
    if slices == [] then c else FeedAll(Feed(c, slices[0]), slices[1..])
  }

  function Joined(slices: seq<seq<byte>>): seq<byte> {
    if slices == [] then [] else slices[0] + Joined(slices[1..])
  }

  // ---- decisions are stable

  lemma {:induction false} NextNulStable(p: seq<byte>, x: seq<byte>, i: nat)
    requires i <= |p| && NextNul(p, i) < |p|
    ensures NextNul(p + x, i) == NextNul(p, i)
    decreases |p| - i
  {
    if p[i] != 0 {
      NextNulStable(p, x, i + 1);
    }
  }

  lemma {:induction false} ScanStable(p: seq<byte>, x: seq<byte>, i: nat, need: nat)
    requires i <= |p| && ScanNuls(p, i, need) != Missing
    ensures ScanNuls(p + x, i, need) == ScanNuls(p, i, need)
    decreases |p| - i
  {
    if !(p[i] == 0 && need == 1) && i <= SCAN_LIMIT {
      ScanStable(p, x, i + 1, if p[i] == 0 && need > 0 then need - 1 else need);
    }
  }

  /** A scan that succeeds has passed as many NULs as were asked for. */
  lemma {:induction false} ScanFinds(p: seq<byte>, i: nat, need: nat)
    requires i <= |p| && ScanNuls(p, i, need).At? && (need == 1 || need == 2)
    ensures var q := ScanNuls(p, i, need).pos; var k := NextNul(p, i);
      && q < |p| && k < |p|
      && (need == 1 ==> q == k)
      && (need == 2 ==> NextNul(p, k + 1) == q)
    decreases |p| - i
  {
    if p[i] == 0 && need == 1 {
    } else if p[i] == 0 {
      ScanFinds(p, i + 1, 1);
    } else {
      ScanFinds(p, i + 1, need);
    }
  }

  lemma Decode4Stable(p: seq<byte>, x: seq<byte>)
    requires Decode4(p) != NeedMore
    ensures Decode4(p + x) == Decode4(p)
  {
    assert (p + x)[..8] == p[..8];
    assert Is4A(p + x) == Is4A(p);
    var need := if Is4A(p) then 2 else 1;
    ScanStable(p, x, 8, need);
    if ScanNuls(p, 8, need).At? {
      Header4Stable(p, x);
    }
  }

  lemma Header4Stable(p: seq<byte>, x: seq<byte>)
    requires |p| >= 8 && ScanNuls(p, 8, if Is4A(p) then 2 else 1).At?
    ensures Header4At(p + x) == Header4At(p)
  {
    ScanFinds(p, 8, if Is4A(p) then 2 else 1);
    NextNulStable(p, x, 8);
    var user := NextNul(p, 8);
    if Is4A(p) {
      NextNulStable(p, x, user + 1);
      Parsed4Stable(p, x, user, NextNul(p, user + 1));
    } else {
      Parsed4Stable(p, x, user, user);
    }
  }

  lemma Parsed4Stable(p: seq<byte>, x: seq<byte>, user: nat, end: nat)
    requires 8 <= user < |p| && user <= end < |p| && (Is4A(p) ==> user < end)
    ensures Is4A(p + x) == Is4A(p) && Parsed4(p + x, user, end) == Parsed4(p, user, end)
  {
    assert (p + x)[4..8] == p[4..8];
    if Is4A(p) { assert (p + x)[user + 1..end] == p[user + 1..end]; }
  }

  lemma Greeting5Stable(p: seq<byte>, x: seq<byte>)
    requires Greeting5(p) != NeedMore
    ensures Greeting5(p + x) == Greeting5(p)
  {
    assert (p + x)[2..p[1] + 2] == p[2..Count(p[1]) + 2];
  }

  lemma Request5Stable(p: seq<byte>, x: seq<byte>)
    requires Request5(p) != NeedMore
    ensures Request5(p + x) == Request5(p)
  {
    if |p| >= 10 {
      assert (p + x)[4..8] == p[4..8];
    }
    if p[3] == 3 && |p| >= Count(p[4]) + 7 {
      assert (p + x)[5..p[4] + 5] == p[5..Count(p[4]) + 5];
    }
    if |p| >= 22 {
      assert (p + x)[4..20] == p[4..20];
    }
  }

  /** No decision is ever revised by further input. */
  lemma DecisionIsStable(p: seq<byte>, x: seq<byte>, authDone: bool)
    requires Decide(p, authDone) != NeedMore
    ensures Decide(p + x, authDone) == Decide(p, authDone)
  {
    if p[0] == 4 {
      Decode4Stable(p, x);
    } else if p[0] == 5 && authDone {
      Request5Stable(p, x);
    } else if p[0] == 5 {
      Greeting5Stable(p, x);
    }
  }

  /** No decoder takes more than it was given, and only the first round of SOCKS5 greets. */
  lemma DecisionIsBounded(p: seq<byte>, authDone: bool)
    ensures var d := Decide(p, authDone);
      && (d.Greeted? ==> 0 < d.used <= |p| && !authDone && p[0] == 5)
      && (d.Connect? ==> 0 < d.used <= |p|)
  {
  }

  // ---- slicing does not matter

  lemma {:induction false} SettleTwice(c: Chan, x: seq<byte>)
    requires c.status == Reading
    ensures Feed(Settle(c), x) == Settle(c.(input := c.input + x))
    decreases if c.authDone then 0 else 1
  {
    var d := Decide(c.input, c.authDone);
    DecisionIsBounded(c.input, c.authDone);
    if !d.NeedMore? {
      DecisionIsStable(c.input, x, c.authDone);
      if d.Greeted? {
        var c1 := c.(input := c.input[d.used..], output := c.output + Reply5Greeting, authDone := true);
        SettleTwice(c1, x);
        assert (c.input + x)[d.used..] == c.input[d.used..] + x;
      } else if d.Connect? {
        assert (c.input + x)[d.used..] == c.input[d.used..] + x;
        assert Reply(c.input + x) == Reply(c.input);
      }
    }
  }

  lemma FeedTwice(c: Chan, a: seq<byte>, b: seq<byte>)
    ensures Feed(Feed(c, a), b) == Feed(c, a + b)
  {
    match c.status
    case Dead =>
    case Opening(_, _) => assert c.input + a + b == c.input + (a + b);
    case Reading =>
      SettleTwice(c.(input := c.input + a), b);
      assert c.input + a + b == c.input + (a + b);
  }

  /** The outcome depends on the octets alone: for every way of slicing them, the handler ends in
      the same state, with the same destination, replies and leftover payload. */
  lemma {:induction false} SlicingIsIrrelevant(c: Chan, slices: seq<seq<byte>>)
    requires slices != []
    ensures FeedAll(c, slices) == Feed(c, Joined(slices))
    decreases |slices|
  {
    if |slices| == 1 {
      assert slices[1..] == [];
      assert slices[0] + Joined(slices[1..]) == slices[0];
    } else {
      SlicingIsIrrelevant(Feed(c, slices[0]), slices[1..]);
      FeedTwice(c, slices[0], Joined(slices[1..]));
    }
  }

  // ---- well-formed requests are understood

  function U16Bytes(n: nat): seq<byte>
    requires n < 65536
  {
    [(n / 256) as byte, (n % 256) as byte]
  }

  predicate NulFree(s: seq<byte>) { 0 !in s }

  predicate Encodable(host: Host) {
    match host
    case V4(a) => |a| == 4
    case V6(a) => |a| == 16
    case Named(n) => |n| <= 255 && NulFree(n)
  }

  function EncodeGreeting(methods: seq<byte>): seq<byte>
    requires |methods| <= 255
  {
    [5, |methods| as byte] + methods
  }

  /** Section 4 of RFC 1928: a CONNECT request. */
  function EncodeRequest5(host: Host, port: nat): seq<byte>
    requires Encodable(host) && port < 65536
  {
    match host
    case V4(a) => [5, 1, 0, 1] + a + U16Bytes(port)
    case V6(a) => [5, 1, 0, 4] + a + U16Bytes(port)
    case Named(n) => [5, 1, 0, 3, |n| as byte] + n + U16Bytes(port)
  }

  lemma NulFreeString(s: seq<byte>)
    requires NulFree(s)
    ensures CString(s) == s
  {
    forall j | 0 <= j < |s| ensures s[j] != 0 {
      assert s[j] in s;
    }
  }

  lemma Request5Decodes(host: Host, port: nat, rest: seq<byte>)
    requires Encodable(host) && port < 65536
    ensures var r := EncodeRequest5(host, port); Request5(r + rest) == Connect(|r|, host, port)
  {
    var r := EncodeRequest5(host, port);
    var p := r + rest;
    match host
    case V4(a) => assert p[4..8] == a; assert p[8..10] == U16Bytes(port);
    case V6(a) => assert p[4..20] == a; assert p[20..22] == U16Bytes(port);
    case Named(n) =>
      assert p[5..|n| + 5] == n;
      assert p[|n| + 5..|n| + 7] == U16Bytes(port);
      NulFreeString(n);
  }

  lemma GreetingDecodes(methods: seq<byte>, rest: seq<byte>)
    requires |methods| <= 255 && 0 in methods
    ensures var g := EncodeGreeting(methods);
      (g + rest)[0] == 5 && |g| >= 3 && Greeting5(g + rest) == Greeted(|g|)
  {
    var p := EncodeGreeting(methods) + rest;
    assert p[2..|methods| + 2] == methods;
  }

  lemma SettleConnect(c: Chan, r: seq<byte>, payload: seq<byte>, host: Host, port: nat)
    requires c.status == Reading && c.input == r + payload && Decide(c.input, c.authDone) == Connect(|r|, host, port)
    ensures Settle(c) == Chan(payload, c.output + Reply(c.input), c.authDone, Opening(host, port))
  {
    assert (r + payload)[|r|..] == payload;
  }

  /** A SOCKS5 client that offers "no authentication" reaches exactly the destination it encoded. */
  lemma Socks5RoundTrip(methods: seq<byte>, host: Host, port: nat, payload: seq<byte>)
    requires |methods| <= 255 && 0 in methods && Encodable(host) && port < 65536
    ensures Feed(Start, EncodeGreeting(methods) + (EncodeRequest5(host, port) + payload))
         == Chan(payload, Reply5Greeting + Reply5, true, Opening(host, port))
  {
    var (g, r) := (EncodeGreeting(methods), EncodeRequest5(host, port));
    var p := g + (r + payload);
    var c := Chan(p, [], false, Reading);
    FeedStart(p);
    GreetingDecodes(methods, r + payload);
    assert p[|g|..] == r + payload;
    var c1 := Chan(r + payload, Reply5Greeting, true, Reading);
    assert [] + Reply5Greeting == Reply5Greeting;
    assert Settle(c) == Settle(c1);
    Request5Decodes(host, port, payload);
    assert |r| >= 7 && (r + payload)[0] == 5;
    SettleConnect(c1, r, payload, host, port);
  }

  function EncodeRequest4A(user: seq<byte>, name: seq<byte>, x: byte, port: nat): seq<byte>
    requires port < 65536
  {
    [4, 1] + U16Bytes(port) + [0, 0, 0, x] + user + [0] + name + [0]
  }

  /** A scan over NUL-free text ends at the NUL after it, unless that lies beyond the limit. */
  lemma {:induction false} ScanText(p: seq<byte>, i: nat, n: nat, need: nat)
    requires i <= n < |p| && p[n] == 0 && (forall j :: i <= j < n ==> p[j] != 0) && need >= 1 && i <= SCAN_LIMIT + 1
    ensures n > SCAN_LIMIT + 1 ==> ScanNuls(p, i, need) == TooLong
    ensures n <= SCAN_LIMIT + 1 && need == 1 ==> ScanNuls(p, i, need) == At(n)
    ensures n <= SCAN_LIMIT && need > 1 ==> ScanNuls(p, i, need) == ScanNuls(p, n + 1, need - 1)
    ensures n == SCAN_LIMIT + 1 && need > 1 ==> ScanNuls(p, i, need) == TooLong
    decreases n - i
  {
    if i < n && i <= SCAN_LIMIT {
      ScanText(p, i + 1, n, need);
    }
  }

  lemma NextNulAt(p: seq<byte>, i: nat, n: nat)
    requires i <= n < |p| && p[n] == 0 && (forall j :: i <= j < n ==> p[j] != 0)
    ensures NextNul(p, i) == n
  {
  }

  /** The layout of a SOCKS4A header inside an input. */
  ghost predicate Layout4A(p: seq<byte>, user: seq<byte>, name: seq<byte>, port: nat) {
    var (u, h) := (8 + |user|, 9 + |user| + |name|);
    && h < |p| && p[0] == 4 && p[1] == 1 && Is4A(p) && U16(p[2], p[3]) == port
    && (forall j :: 8 <= j < u ==> p[j] != 0) && p[u] == 0
    && (forall j :: u + 1 <= j < h ==> p[j] != 0) && p[h] == 0
    && p[u + 1..h] == name
  }

  lemma Layout4AHolds(user: seq<byte>, name: seq<byte>, x: byte, port: nat, payload: seq<byte>)
    requires NulFree(user) && NulFree(name) && x != 0 && port < 65536
    ensures Layout4A(EncodeRequest4A(user, name, x, port) + payload, user, name, port)
  {
    var p := EncodeRequest4A(user, name, x, port) + payload;
    var (u, h) := (8 + |user|, 9 + |user| + |name|);
    assert p[2..4] == U16Bytes(port);
    assert p[8..u] == user;
    assert p[u + 1..h] == name;
    forall j | 8 <= j < u ensures p[j] != 0 { assert p[j] == user[j - 8]; }
    forall j | u + 1 <= j < h ensures p[j] != 0 { assert p[j] == name[j - u - 1]; }
  }

  lemma Decode4AOfLayout(p: seq<byte>, user: seq<byte>, name: seq<byte>, port: nat)
    requires Layout4A(p, user, name, port)
    ensures var h := 9 + |user| + |name|;
      Decide(p, false) == if h <= SCAN_LIMIT + 1 then Connect(h + 1, Named(name), port) else Reject
  {
    var (u, h) := (8 + |user|, 9 + |user| + |name|);
    ScanText(p, 8, u, 2);
    if u <= SCAN_LIMIT {
      ScanText(p, u + 1, h, 1);
    }
    NextNulAt(p, 8, u);
    NextNulAt(p, u + 1, h);
  }

  /** A SOCKS4A client reaches the host it named exactly when the header ends within the scan
      limit; a longer header is refused. */
  lemma Socks4ARoundTrip(user: seq<byte>, name: seq<byte>, x: byte, port: nat, payload: seq<byte>)
    requires NulFree(user) && NulFree(name) && x != 0 && port < 65536
    ensures Feed(Start, EncodeRequest4A(user, name, x, port) + payload) ==
      if 9 + |user| + |name| <= SCAN_LIMIT + 1
      then Chan(payload, Reply4, false, Opening(Named(name), port))
      else Chan([], [], false, Dead)
  {
    var r := EncodeRequest4A(user, name, x, port);
    var p := r + payload;
    Layout4AHolds(user, name, x, port, payload);
    Decode4AOfLayout(p, user, name, port);
    assert |r| == 10 + |user| + |name|;
    if 9 + |user| + |name| <= SCAN_LIMIT + 1 {
      FirstRequest4(r, payload, Named(name), port);
    } else {
      FeedStart(p);
    }
  }

  /** A first request that is all of r. */
  lemma FirstRequest4(r: seq<byte>, payload: seq<byte>, host: Host, port: nat)
    requires r != [] && r[0] == 4 && Decide(r + payload, false) == Connect(|r|, host, port)
    ensures Feed(Start, r + payload) == Chan(payload, Reply4, false, Opening(host, port))
  {
    FeedStart(r + payload);
    FirstReply(r, payload);
    SettleConnect(Chan(r + payload, [], false, Reading), r, payload, host, port);
  }

  lemma FeedStart(p: seq<byte>)
    ensures Feed(Start, p) == Settle(Chan(p, [], false, Reading))
  {
    assert [] + p == p;
  }

  lemma FirstReply(r: seq<byte>, payload: seq<byte>)
    requires r != [] && r[0] == 4
    ensures [] + Reply(r + payload) == Reply4
  {
    assert (r + payload)[0] == 4;
  }

  function EncodeRequest4(user: seq<byte>, addr: seq<byte>, port: nat): seq<byte>
    requires port < 65536
  {
    [4, 1] + U16Bytes(port) + addr + user + [0]
  }

  /** Marked as SOCKS4A. */
  predicate Marks4A(addr: seq<byte>)
    requires |addr| == 4
  {
    addr[0] == 0 && addr[1] == 0 && addr[2] == 0 && addr[3] != 0
  }

  lemma Decode4OfHeader(p: seq<byte>, n: nat, port: nat)
    requires 8 <= n < |p| && p[0] == 4 && p[1] == 1 && U16(p[2], p[3]) == port && !Is4A(p)
    requires p[n] == 0 && forall j :: 8 <= j < n ==> p[j] != 0
    ensures Decide(p, false) == if n <= SCAN_LIMIT + 1 then Connect(n + 1, V4(p[4..8]), port) else Reject
  {
    ScanText(p, 8, n, 1);
    NextNulAt(p, 8, n);
  }

  lemma Header4(user: seq<byte>, addr: seq<byte>, port: nat, payload: seq<byte>)
    requires NulFree(user) && |addr| == 4 && !Marks4A(addr) && port < 65536
    ensures var (p, n) := (EncodeRequest4(user, addr, port) + payload, 8 + |user|);
      && n < |p| && p[0] == 4 && p[1] == 1 && U16(p[2], p[3]) == port && p[4..8] == addr && !Is4A(p)
      && p[n] == 0 && forall j :: 8 <= j < n ==> p[j] != 0
  {
    var (p, n) := (EncodeRequest4(user, addr, port) + payload, 8 + |user|);
    assert p[2..4] == U16Bytes(port) && p[4..8] == addr && p[8..n] == user;
    forall j | 8 <= j < n ensures p[j] != 0 { assert p[j] == user[j - 8]; }
    assert p[4] == addr[0] && p[5] == addr[1] && p[6] == addr[2] && p[7] == addr[3];
  }

  /** A SOCKS4 client reaches the address it gave exactly when its user name ends within the scan
      limit; a longer header is refused. */
  lemma Socks4RoundTrip(user: seq<byte>, addr: seq<byte>, port: nat, payload: seq<byte>)
    requires NulFree(user) && |addr| == 4 && !Marks4A(addr) && port < 65536
    ensures Feed(Start, EncodeRequest4(user, addr, port) + payload) ==
      if 8 + |user| <= SCAN_LIMIT + 1
      then Chan(payload, Reply4, false, Opening(V4(addr), port))
      else Chan([], [], false, Dead)
  {
    var r := EncodeRequest4(user, addr, port);
    var (p, n) := (r + payload, 8 + |user|);
    Header4(user, addr, port, payload);
    Decode4OfHeader(p, n, port);
    if n <= SCAN_LIMIT + 1 {
      FirstRequest4(r, payload, V4(addr), port);
    } else {
      FeedStart(p);
    }
  }
}

/** The decoders as the sources run them, on the buffers of a channel. */
module SocksObject {
  import opened Octets
  import opened Socks

  class DynamicChannel {
    var input: seq<byte>
    var output: seq<byte>
    var authDone: bool
    var status: Status

    function View(): Chan
      reads this
    {
      Chan(input, output, authDone, status)
    }

    /** The loop that looks for the terminating NULs; -1 for garbage, 0 for "need more". */
    static method CheckTerminated(p: seq<byte>, need: nat) returns (r: Scan)
      requires |p| >= 8 && need >= 1
      ensures r == ScanNuls(p, 8, need)
    {
      var found := 0;
      for i := 8 to |p|
        invariant found < need
        invariant ScanNuls(p, 8, need) == ScanNuls(p, i, need - found)
      {
        if p[i] == 0 {
          found := found + 1;
          if found == need {
            return At(i);
          }
        }
        if i > SCAN_LIMIT {
          return TooLong;
        }
      }
      r := Missing;
    }

    /** memchr over the buffer from offset i. */
    static method FindNul(p: seq<byte>, i: nat) returns (k: nat)
      requires i <= |p|
      ensures k == NextNul(p, i)
    {
      k := i;
      while k < |p| && p[k] != 0
        invariant i <= k <= |p|
        invariant NextNul(p, k) == NextNul(p, i)
      {
        k := k + 1;
      }
    }

    /** channel_decode_socks4, up to the consumption of what it understood. */
    method DecodeSocks4() returns (d: Decision)
      ensures d == Decode4(input)
    {
      var p := input;
      if |p| < 8 {
        return NeedMore;
      }
      var need := 1;
      if p[4] == 0 && p[5] == 0 && p[6] == 0 && p[7] != 0 {
        need := 2;
      }
      var scan := CheckTerminated(p, need);
      if scan.TooLong? {
        return Reject;
      }
      if scan.Missing? {
        return NeedMore;
      }
      var user := FindNul(p, 8);
      if user == |p| {
        return Reject;
      }
      var (host, used) := (V4(p[4..8]), user + 1);
      if need == 2 {
        var end := FindNul(p, user + 1);
        if end == |p| || end - user > NI_MAXHOST {
          return Reject;
        }
        host, used := Named(p[user + 1..end]), end + 1;
      }
      if p[1] != 1 {
        return Reject;
      }
      d := Connect(used, host, U16(p[2], p[3]));
    }

    /** The search for "no authentication required" in a SOCKS5 greeting. */
    static method OffersNoAuth(p: seq<byte>, n: nat) returns (found: bool)
      requires n + 2 <= |p|
      ensures found <==> 0 in p[2..n + 2]
    {
      found := false;
      for i := 2 to n + 2
        invariant !found && 0 !in p[2..i]
      {
        assert p[2..i + 1] == p[2..i] + [p[i]];
        if p[i] == 0 {
          assert p[2..n + 2][i - 2] == 0;
          return true;
        }
      }
    }

    /** channel_decode_socks5 while the greeting is expected. */
    method DecodeGreeting() returns (d: Decision)
      ensures d == Greeting5(input)
    {
      var p := input;
      if |p| < 2 || |p| < Count(p[1]) + 2 {
        return NeedMore;
      }
      var found := OffersNoAuth(p, Count(p[1]));
      d := if found then Greeted(Count(p[1]) + 2) else Reject;
    }

    /** channel_decode_socks5 once the greeting is done. */
    method DecodeRequest() returns (d: Decision)
      ensures d == Request5(input)
    {
      var p := input;
      if |p| < 5 {
        return NeedMore;
      }
      if p[0] != 5 || p[1] != 1 || p[2] != 0 {
        return Reject;
      }
      var addrlen, start := 0, 4;
      match p[3] {
        case 1 => addrlen := 4;
        case 3 => addrlen, start := Count(p[4]), 5;
        case 4 => addrlen := 16;
        case _ => return Reject;
      }
      if |p| < start + addrlen + 2 {
        return NeedMore;
      }
      var addr := p[start..start + addrlen];
      var port := U16(p[start + addrlen], p[start + addrlen + 1]);
      var host := V4(addr);
      match p[3] {
        case 1 =>
        case 3 =>
          if addrlen >= NI_MAXHOST {
            return Reject;
          }
          var end := FindNul(addr, 0);
          host := Named(addr[..end]);
        case _ => host := V6(addr);
      }
      d := Connect(start + addrlen + 2, host, port);
    }

    /** channel_pre_dynamic run until it makes no more progress. */
    method RunToQuiescence()
      requires status == Reading
      modifies this
      ensures View() == Settle(old(View()))
    {
      while status == Reading
        invariant status == Reading ==> Settle(View()) == Settle(old(View()))
        invariant status != Reading ==> View() == Settle(old(View()))
        decreases if status == Reading then 1 else 0, if authDone then 0 else 1
      {
        var d := Reject;
        if |input| < 3 {
          d := NeedMore;
        } else if input[0] == 4 {
          d := DecodeSocks4();
        } else if input[0] == 5 {
          if authDone {
            d := DecodeRequest();
          } else {
            d := DecodeGreeting();
          }
        }
        DecisionIsBounded(input, authDone);
        match d {
          case NeedMore =>
            return;
          case Reject =>
            input, status := [], Dead;
          case Greeted(used) =>
            input := input[used..];
            output := output + Reply5Greeting;
            authDone := true;
          case Connect(used, host, port) =>
            output := output + Reply(input);
            input := input[used..];
            status := Opening(host, port);
        }
      }
    }
  }
}
