/**
 * auth-options.c: the options attached to a key or certificate, their wire form, and the merge
 * that auth_activate_options folds over a session.
 */
module AuthOptions {
  import opened Octets
  import opened Wire

  const INT_MAX: nat := 0x7fff_ffff

  datatype Flags = Flags(portForwarding: int, agentForwarding: int, x11Forwarding: int, pty: int, userRc: int,
                         restricted: int, certAuthority: int, noUserPresence: int, requireVerify: int)

  datatype Strings = Strings(principals: Option<cstring>, command: Option<cstring>,
                             fromHostCert: Option<cstring>, fromHostKeys: Option<cstring>)

  datatype Lists = Lists(env: seq<cstring>, permitopen: seq<cstring>, permitlisten: seq<cstring>)

  datatype Options = Options(flags: Flags, validBefore: nat, tun: int, strings: Strings, lists: Lists)

  // ---- wire form

  function PutFlags(f: Flags): (s: seq<byte>)
    ensures |s| == 9
  {
    [f.portForwarding % 256, f.agentForwarding % 256, f.x11Forwarding % 256, f.pty % 256, f.userRc % 256,
     f.restricted % 256, f.certAuthority % 256, f.noUserPresence % 256, f.requireVerify % 256]
  }

  function GetFlags(s: seq<byte>): Option<Read<Flags>> {
    if |s| < 9 then None
    else Some(Read(Flags(s[0], s[1], s[2], s[3], s[4], s[5], s[6], s[7], s[8]), s[9..]))
  }

  /** The tunnel device travels as an "unset" flag and a number. */
  function PutTun(tun: int): seq<byte> {
    [if tun == -1 then 1 else 0] + U32(if tun < 0 then 0 else tun)
  }

  /** Conversion of u_int to int. */
  function ToInt(v: nat): int { if v <= INT_MAX then v else v - 0x1_0000_0000 }

  function GetTun(s: seq<byte>): Option<Read<int>> {
    match GetInt(s, 1)
    case None => None
    case Some(f) =>
      match GetInt(f.rest, 4)
      case None => None
      case Some(t) => Some(Read(if f.value != 0 then -1 else ToInt(t.value), t.rest))
  }

  function PutNullable(s: Option<cstring>): seq<byte> {
    match s
    case None => [1] + Str([])
    case Some(v) => [0] + Str(v)
  }

  function GetNullable(s: seq<byte>): Option<Read<Option<cstring>>> {
    match GetInt(s, 1)
    case None => None
    case Some(f) =>
      match GetCStr(f.rest)
      case None => None
      case Some(v) => Some(Read(if f.value != 0 then None else Some(v.value), v.rest))
  }

  function Concat(a: seq<cstring>): seq<byte> {
    if a == [] then [] else Concat(a[..|a| - 1]) + Str(a[|a| - 1])
  }

  function PutArray(a: seq<cstring>): seq<byte> { U32(|a|) + Str(Concat(a)) }

  /** n strings from the front of b, after those in acc. */
  function GetMany(b: seq<byte>, n: nat, acc: seq<cstring>): Option<seq<cstring>>
    decreases n
  {
    if n == 0 then Some(acc)
    else match GetCStr(b)
      case None => None
      case Some(v) => GetMany(v.rest, n - 1, acc + [v.value])
  }

  function GetArray(s: seq<byte>): Option<Read<seq<cstring>>> {
    match GetInt(s, 4)
    case None => None
    case Some(n) =>
      match GetStr(n.rest)
      case None => None
      case Some(b) =>
        if n.value > INT_MAX then None
        else match GetMany(b.value, n.value, [])
          case None => None
          case Some(a) => Some(Read(a, b.rest))
  }

  datatype Head = Head(flags: Flags, validBefore: nat, tun: int)

  function PutHead(h: Head): seq<byte> { PutFlags(h.flags) + U64(h.validBefore) + PutTun(h.tun) }

  function GetHead(s: seq<byte>): Option<Read<Head>> {
    match GetFlags(s)
    case None => None
    case Some(f) =>
      match GetInt(f.rest, 8)
      case None => None
      case Some(v) =>
        match GetTun(v.rest)
        case None => None
        case Some(t) => Some(Read(Head(f.value, v.value, t.value), t.rest))
  }

  function PutStrings(x: Strings): seq<byte> {
    PutNullable(x.principals) + PutNullable(x.command) + PutNullable(x.fromHostCert) + PutNullable(x.fromHostKeys)
  }

  function GetStrings(s: seq<byte>): Option<Read<Strings>> {
    match GetNullable(s)
    case None => None
    case Some(a) =>
      match GetNullable(a.rest)
      case None => None
      case Some(b) =>
        match GetNullable(b.rest)
        case None => None
        case Some(c) =>
          match GetNullable(c.rest)
          case None => None
          case Some(d) => Some(Read(Strings(a.value, b.value, c.value, d.value), d.rest))
  }

  function PutLists(x: Lists): seq<byte> { PutArray(x.env) + PutArray(x.permitopen) + PutArray(x.permitlisten) }

  function GetLists(s: seq<byte>): Option<Read<Lists>> {
    match GetArray(s)
    case None => None
    case Some(a) =>
      match GetArray(a.rest)
      case None => None
      case Some(b) =>
        match GetArray(b.rest)
        case None => None
        case Some(c) => Some(Read(Lists(a.value, b.value, c.value), c.rest))
  }

  /** What an untrusted reader is shown instead of o. */
  function Redacted(o: Options): Options {
    o.(strings := Strings(Some(YES), Some(TRUE), None, None), lists := Lists([], [], []))
  }

  const YES: cstring := [121, 101, 115]
  const TRUE: cstring := [116, 114, 117, 101]

  /** sshauthopt_serialise for a trusted reader. */
  function Serialised(o: Options): seq<byte> {
    PutHead(Head(o.flags, o.validBefore, o.tun)) + PutStrings(o.strings) + PutLists(o.lists)
  }

  /** sshauthopt_deserialise. */
  function Deserialised(s: seq<byte>): Option<Read<Options>> {
    match GetHead(s)
    case None => None
    case Some(h) =>
      match GetStrings(h.rest)
      case None => None
      case Some(x) =>
        match GetLists(x.rest)
        case None => None
        case Some(l) =>
          Some(Read(Options(h.value.flags, h.value.validBefore, h.value.tun, x.value, l.value), l.rest))
  }

  // ---- round trip

  predicate IsByte(v: int) { 0 <= v < 256 }

  predicate ByteFlags(f: Flags) {
    && IsByte(f.portForwarding) && IsByte(f.agentForwarding) && IsByte(f.x11Forwarding) && IsByte(f.pty)
    && IsByte(f.userRc) && IsByte(f.restricted) && IsByte(f.certAuthority) && IsByte(f.noUserPresence)
    && IsByte(f.requireVerify)
  }

  /** The records the wire form can carry: byte flags, a 64-bit expiry, a device of at least -1. */
  predicate Portable(o: Options) {
    ByteFlags(o.flags) && o.validBefore < 0x1_0000_0000_0000_0000 && -1 <= o.tun <= INT_MAX
  }

  lemma Regroup(a: seq<byte>, b: seq<byte>, c: seq<byte>, d: seq<byte>, e: seq<byte>)
    ensures a + b + c + d + e == a + (b + (c + (d + e)))
  {
  }

  lemma Appended(d: seq<byte>, a: seq<byte>, b: seq<byte>, c: seq<byte>, e: seq<byte>)
    ensures d + a + b + c + e == d + (a + b + c + e)
  {
  }

  lemma Regroup3(a: seq<byte>, b: seq<byte>, c: seq<byte>, d: seq<byte>)
    ensures a + b + c + d == a + (b + (c + d))
  {
  }

  lemma FlagsBack(f: Flags, tail: seq<byte>)
    requires ByteFlags(f)
    ensures GetFlags(PutFlags(f) + tail) == Some(Read(f, tail))
  {
    assert (PutFlags(f) + tail)[9..] == tail;
  }

  lemma ByteBack(b: byte, tail: seq<byte>)
    ensures GetInt([b] + tail, 1) == Some(Read(b as nat, tail))
  {
    assert ([b] + tail)[..1] == [b] && ([b] + tail)[1..] == tail;
    assert GetBE([b]) == 256 * GetBE([b][..0]) + b;
  }

  lemma TunBack(tun: int, tail: seq<byte>)
    requires -1 <= tun <= INT_MAX
    ensures GetTun(PutTun(tun) + tail) == Some(Read(tun, tail))
  {
    var (b, v) := (if tun == -1 then 1 else 0, if tun < 0 then 0 else tun);
    assert PutTun(tun) + tail == [b] + (U32(v) + tail);
    ByteBack(b, U32(v) + tail);
    Powers();
    GetPutInt(v, 4, tail);
  }

  lemma NullableBack(s: Option<cstring>, tail: seq<byte>)
    requires s.Some? ==> |s.value| <= SSHBUF_SIZE_MAX - 4
    ensures GetNullable(PutNullable(s) + tail) == Some(Read(s, tail))
  {
    var (b, v) := (if s == None then 1 else 0, if s == None then [] else s.value);
    assert PutNullable(s) + tail == [b] + (Str(v) + tail);
    ByteBack(b, Str(v) + tail);
    GetPutCStr(v, tail);
  }

  lemma {:induction false} ConcatFront(a: seq<cstring>)
    requires a != []
    ensures Concat(a) == Str(a[0]) + Concat(a[1..])
  {
    if |a| == 1 {
      assert a[..0] == [] && a[1..] == [];
    } else {
      var (init, rest) := (a[..|a| - 1], a[1..]);
      ConcatFront(init);
      assert rest[..|rest| - 1] == init[1..];
      assert Concat(rest) == Concat(init[1..]) + Str(a[|a| - 1]);
      assert Concat(a) == Str(a[0]) + Concat(init[1..]) + Str(a[|a| - 1]);
    }
  }

  /** Reading goes on after the first string. */
  lemma FirstBack(a: seq<cstring>, acc: seq<cstring>)
    requires a != [] && |Concat(a)| <= SSHBUF_SIZE_MAX
    ensures |Concat(a[1..])| <= SSHBUF_SIZE_MAX
    ensures GetMany(Concat(a), |a|, acc) == GetMany(Concat(a[1..]), |a| - 1, acc + [a[0]])
  {
    ConcatFront(a);
    GetPutCStr(a[0], Concat(a[1..]));
  }

  lemma MoveFirst(a: seq<cstring>, acc: seq<cstring>)
    requires a != []
    ensures acc + [a[0]] + a[1..] == acc + a
  {
  }

  lemma {:induction false} ManyBack(a: seq<cstring>, acc: seq<cstring>)
    requires |Concat(a)| <= SSHBUF_SIZE_MAX
    ensures GetMany(Concat(a), |a|, acc) == Some(acc + a)
    decreases |a|
  {
    if a == [] {
      assert acc + a == acc;
    } else {
      FirstBack(a, acc);
      ManyBack(a[1..], acc + [a[0]]);
      MoveFirst(a, acc);
    }
  }

  lemma {:induction false} ConcatCounts(a: seq<cstring>)
    ensures 4 * |a| <= |Concat(a)|
  {
    if a != [] { ConcatCounts(a[..|a| - 1]); }
  }

  lemma ArrayBack(a: seq<cstring>, tail: seq<byte>)
    requires |PutArray(a)| <= SSHBUF_SIZE_MAX
    ensures GetArray(PutArray(a) + tail) == Some(Read(a, tail))
  {
    var b := Concat(a);
    ConcatCounts(a);
    assert PutArray(a) + tail == U32(|a|) + (Str(b) + tail);
    Powers();
    GetPutInt(|a|, 4, Str(b) + tail);
    GetPutStr(b, tail);
    ManyBack(a, []);
    assert [] + a == a;
  }

  lemma HeadBack(h: Head, tail: seq<byte>)
    requires ByteFlags(h.flags) && h.validBefore < 0x1_0000_0000_0000_0000 && -1 <= h.tun <= INT_MAX
    ensures GetHead(PutHead(h) + tail) == Some(Read(h, tail))
  {
    var t := PutTun(h.tun) + tail;
    var v := U64(h.validBefore) + t;
    assert PutHead(h) + tail == PutFlags(h.flags) + v;
    FlagsBack(h.flags, v);
    Powers();
    GetPutInt(h.validBefore, 8, t);
    TunBack(h.tun, tail);
  }

  lemma Stages(s1: seq<byte>, s2: seq<byte>, s3: seq<byte>, s4: seq<byte>, s5: seq<byte>, x: Strings)
    requires GetNullable(s1) == Some(Read(x.principals, s2)) && GetNullable(s2) == Some(Read(x.command, s3))
    requires GetNullable(s3) == Some(Read(x.fromHostCert, s4)) && GetNullable(s4) == Some(Read(x.fromHostKeys, s5))
    ensures GetStrings(s1) == Some(Read(x, s5))
  {
  }

  lemma NullableBackIn(s: Option<cstring>, e: seq<byte>, tail: seq<byte>)
    requires e == PutNullable(s) && |e| <= SSHBUF_SIZE_MAX
    ensures GetNullable(e + tail) == Some(Read(s, tail))
  {
    NullableBack(s, tail);
  }

  lemma StringsBack(x: Strings, tail: seq<byte>)
    requires |PutStrings(x)| <= SSHBUF_SIZE_MAX
    ensures GetStrings(PutStrings(x) + tail) == Some(Read(x, tail))
  {
    var (a, b) := (PutNullable(x.principals), PutNullable(x.command));
    var (c, d) := (PutNullable(x.fromHostCert), PutNullable(x.fromHostKeys));
    var t4 := d + tail;
    var t3 := c + t4;
    var t2 := b + t3;
    Regroup(a, b, c, d, tail);
    NullableBackIn(x.principals, a, t2);
    NullableBackIn(x.command, b, t3);
    NullableBackIn(x.fromHostCert, c, t4);
    NullableBackIn(x.fromHostKeys, d, tail);
    Stages(a + t2, t2, t3, t4, tail, x);
  }

  lemma ListsBack(x: Lists, tail: seq<byte>)
    requires |PutLists(x)| <= SSHBUF_SIZE_MAX
    ensures GetLists(PutLists(x) + tail) == Some(Read(x, tail))
  {
    var c := PutArray(x.permitlisten) + tail;
    var b := PutArray(x.permitopen) + c;
    Regroup3(PutArray(x.env), PutArray(x.permitopen), PutArray(x.permitlisten), tail);
    ArrayBack(x.env, b);
    ArrayBack(x.permitopen, c);
    ArrayBack(x.permitlisten, tail);
  }

  /** Deserialising what was serialised gives the record back and consumes exactly its bytes. */
  lemma RoundTrip(o: Options, tail: seq<byte>)
    requires Portable(o) && |Serialised(o)| <= SSHBUF_SIZE_MAX
    ensures Deserialised(Serialised(o) + tail) == Some(Read(o, tail))
  {
    var h := Head(o.flags, o.validBefore, o.tun);
    var l := PutLists(o.lists) + tail;
    var x := PutStrings(o.strings) + l;
    Regroup3(PutHead(h), PutStrings(o.strings), PutLists(o.lists), tail);
    HeadBack(h, x);
    StringsBack(o.strings, l);
    ListsBack(o.lists, tail);
  }

  /** The bytes shown to an untrusted reader determine, and depend on, only the flags, the expiry
      and the tunnel device. */
  lemma UntrustedHides(o: Options, o': Options)
    requires Portable(o) && Portable(o')
    ensures Serialised(Redacted(o)) == Serialised(Redacted(o')) <==>
      o.flags == o'.flags && o.validBefore == o'.validBefore && o.tun == o'.tun
  {
    RedactedIsShort(o);
    RedactedIsShort(o');
    RoundTrip(Redacted(o), []);
    RoundTrip(Redacted(o'), []);
  }

  lemma RedactedIsShort(o: Options)
    ensures |Serialised(Redacted(o))| <= SSHBUF_SIZE_MAX
  {
    assert |PutLists(Lists([], [], []))| == 24;
    assert |PutStrings(Redacted(o).strings)| == 27;
  }

  // ---- the buffer operations

  /** serialise_array. On failure a prefix of the encoding may have been written. */
  method SerialiseArray(m: Sshbuf, a: seq<cstring>) returns (ok: bool)
    requires m.Valid()
    modifies m
    ensures m.Valid() && ok == (|old(m.data)| + |PutArray(a)| <= m.max)
    ensures ok ==> m.data == old(m.data) + PutArray(a)
  {
    ConcatCounts(a);
    if |a| > INT_MAX {
      return false;
    }
    var b := new Sshbuf([]);
    for i := 0 to |a|
      invariant fresh(b) && b.Valid() && b.data == Concat(a[..i]) && b.max == SSHBUF_SIZE_MAX
      modifies b
    {
      assert a[..i + 1][..i] == a[..i];
      ConcatGrows(a, i + 1);
      ok := b.PutString(a[i]);
      if !ok {
        return;
      }
    }
    assert a[..|a|] == a;
    ok := m.PutInt(|a|, 4);
    if !ok {
      return;
    }
    ok := m.PutString(b.data);
  }

  lemma {:induction false} ConcatGrows(a: seq<cstring>, i: nat)
    requires i <= |a|
    ensures |Concat(a[..i])| <= |Concat(a)|
  {
    if i < |a| {
      var init := a[..|a| - 1];
      ConcatGrows(init, i);
      assert init[..i] == a[..i];
    } else {
      assert a[..i] == a;
    }
  }

  /** deserialise_array. */
  method DeserialiseArray(m: Sshbuf) returns (r: Option<seq<cstring>>)
    requires m.Valid()
    modifies m
    ensures m.Valid()
    ensures match GetArray(old(m.data))
      case None => r == None
      case Some(x) => r == Some(x.value) && m.data == x.rest
  {
    var n := m.GetNumber(4);
    if n == None {
      return None;
    }
    var s := m.GetString();
    if s == None || n.value > INT_MAX {
      return None;
    }
    r := DeserialiseEntries(s.value, n.value);
  }

  /** The loop of deserialise_array over the inner buffer. */
  method DeserialiseEntries(s: seq<byte>, n: nat) returns (r: Option<seq<cstring>>)
    requires |s| <= SSHBUF_SIZE_MAX
    ensures r == GetMany(s, n, [])
  {
    var b := new Sshbuf(s);
    var a: seq<cstring> := [];
    for i := 0 to n
      invariant fresh(b) && b.Valid() && GetMany(b.data, n - i, a) == GetMany(s, n, [])
      modifies b
    {
      var v := b.GetCString();
      if v == None {
        return None;
      }
      a := a + [v.value];
    }
    r := Some(a);
  }

  /** serialise_nullable_string. */
  method SerialiseNullable(m: Sshbuf, s: Option<cstring>) returns (ok: bool)
    requires m.Valid()
    modifies m
    ensures m.Valid() && ok == (|old(m.data)| + |PutNullable(s)| <= m.max)
    ensures ok ==> m.data == old(m.data) + PutNullable(s)
  {
    ok := m.Put([if s == None then 1 else 0]);
    if !ok {
      return;
    }
    ok := m.PutString(if s == None then [] else s.value);
    Appended2(old(m.data), [if s == None then 1 else 0], Str(if s == None then [] else s.value));
  }

  lemma Appended2(d: seq<byte>, a: seq<byte>, b: seq<byte>)
    ensures d + a + b == d + (a + b)
  {
  }

  /** deserialise_nullable_string. */
  method DeserialiseNullable(m: Sshbuf) returns (ok: bool, r: Option<cstring>)
    requires m.Valid()
    modifies m
    ensures m.Valid()
    ensures match GetNullable(old(m.data))
      case None => !ok
      case Some(x) => ok && r == x.value && m.data == x.rest
  {
    var flag := m.GetNumber(1);
    if flag == None {
      return false, None;
    }
    var v := m.GetCString();
    ok, r := v.Some?, if flag.value != 0 then None else v;
  }

  method SerialiseHead(m: Sshbuf, h: Head) returns (ok: bool)
    requires m.Valid()
    modifies m
    ensures m.Valid() && ok == (|old(m.data)| + |PutHead(h)| <= m.max)
    ensures ok ==> m.data == old(m.data) + PutHead(h)
  {
    ok := m.Put(PutFlags(h.flags));
    if !ok {
      return;
    }
    ok := m.PutInt(h.validBefore, 8);
    if !ok {
      return;
    }
    ok := m.Put([if h.tun == -1 then 1 else 0]);
    if !ok {
      return;
    }
    ok := m.PutInt(if h.tun < 0 then 0 else h.tun, 4);
  }

  method SerialiseStrings(m: Sshbuf, x: Strings) returns (ok: bool)
    requires m.Valid()
    modifies m
    ensures m.Valid() && ok == (|old(m.data)| + |PutStrings(x)| <= m.max)
    ensures ok ==> m.data == old(m.data) + PutStrings(x)
  {
    ok := SerialiseNullable(m, x.principals);
    if !ok {
      return;
    }
    ok := SerialiseNullable(m, x.command);
    if !ok {
      return;
    }
    ok := SerialiseNullable(m, x.fromHostCert);
    if !ok {
      return;
    }
    ok := SerialiseNullable(m, x.fromHostKeys);
    Appended(old(m.data), PutNullable(x.principals), PutNullable(x.command), PutNullable(x.fromHostCert),
             PutNullable(x.fromHostKeys));
  }

  method SerialiseLists(m: Sshbuf, x: Lists) returns (ok: bool)
    requires m.Valid()
    modifies m
    ensures m.Valid() && ok == (|old(m.data)| + |PutLists(x)| <= m.max)
    ensures ok ==> m.data == old(m.data) + PutLists(x)
  {
    ok := SerialiseArray(m, x.env);
    if !ok {
      return;
    }
    ok := SerialiseArray(m, x.permitopen);
    if !ok {
      return;
    }
    ok := SerialiseArray(m, x.permitlisten);
  }

  /** sshauthopt_serialise: succeeds exactly when the whole encoding fits. */
  method Serialise(o: Options, m: Sshbuf, untrusted: bool) returns (ok: bool)
    requires m.Valid()
    modifies m
    ensures m.Valid()
    ensures var s := Serialised(if untrusted then Redacted(o) else o);
      ok == (|old(m.data)| + |s| <= m.max) && (ok ==> m.data == old(m.data) + s)
  {
    var h := Head(o.flags, o.validBefore, o.tun);
    var x := if untrusted then Strings(Some(YES), Some(TRUE), None, None) else o.strings;
    var l := if untrusted then Lists([], [], []) else o.lists;
    ok := SerialiseParts(m, h, x, l);
  }

  method SerialiseParts(m: Sshbuf, h: Head, x: Strings, l: Lists) returns (ok: bool)
    requires m.Valid()
    modifies m
    ensures m.Valid()
    ensures var s := PutHead(h) + PutStrings(x) + PutLists(l);
      ok == (|old(m.data)| + |s| <= m.max) && (ok ==> m.data == old(m.data) + s)
  {
    ok := SerialiseHead(m, h);
    if !ok {
      return;
    }
    ok := SerialiseStrings(m, x);
    if !ok {
      return;
    }
    ok := SerialiseLists(m, l);
    Appended3(old(m.data), PutHead(h), PutStrings(x), PutLists(l));
  }

  lemma Appended3(d: seq<byte>, a: seq<byte>, b: seq<byte>, c: seq<byte>)
    ensures d + a + b + c == d + (a + b + c)
  {
  }

  method DeserialiseHead(m: Sshbuf) returns (r: Option<Head>)
    requires m.Valid()
    modifies m
    ensures m.Valid()
    ensures match GetHead(old(m.data))
      case None => r == None
      case Some(x) => r == Some(x.value) && m.data == x.rest
  {
    var flags := DeserialiseFlags(m);
    if flags == None {
      return None;
    }
    var v := m.GetNumber(8);
    if v == None {
      return None;
    }
    var f := m.GetNumber(1);
    if f == None {
      return None;
    }
    var t := m.GetNumber(4);
    if t == None {
      return None;
    }
    r := Some(Head(flags.value, v.value, if f.value != 0 then -1 else ToInt(t.value)));
  }

  method GetFlag(m: Sshbuf) returns (r: Option<byte>)
    requires m.Valid()
    modifies m
    ensures m.Valid()
    ensures if |old(m.data)| == 0 then r == None && m.data == old(m.data)
            else r == Some(old(m.data)[0]) && m.data == old(m.data)[1..]
  {
    ghost var s := m.data;
    var v := m.GetNumber(1);
    if v == None {
      return None;
    }
    assert s == [s[0]] + s[1..];
    ByteBack(s[0], s[1..]);
    r := Some(v.value);
  }

  /** The nine flag octets. */
  method DeserialiseFlags(m: Sshbuf) returns (r: Option<Flags>)
    requires m.Valid()
    modifies m
    ensures m.Valid()
    ensures match GetFlags(old(m.data))
      case None => r == None
      case Some(x) => r == Some(x.value) && m.data == x.rest
  {
    var f0 := GetFlag(m);
    var f1 := GetFlag(m);
    var f2 := GetFlag(m);
    var f3 := GetFlag(m);
    var f4 := GetFlag(m);
    var f5 := GetFlag(m);
    var f6 := GetFlag(m);
    var f7 := GetFlag(m);
    var f8 := GetFlag(m);
    if f8 == None {
      return None;
    }
    r := Some(Flags(f0.value, f1.value, f2.value, f3.value, f4.value, f5.value, f6.value, f7.value, f8.value));
  }

  method DeserialiseStrings(m: Sshbuf) returns (r: Option<Strings>)
    requires m.Valid()
    modifies m
    ensures m.Valid()
    ensures match GetStrings(old(m.data))
      case None => r == None
      case Some(x) => r == Some(x.value) && m.data == x.rest
  {
    var ok, a := DeserialiseNullable(m);
    if !ok {
      return None;
    }
    var b, c, d;
    ok, b := DeserialiseNullable(m);
    if !ok {
      return None;
    }
    ok, c := DeserialiseNullable(m);
    if !ok {
      return None;
    }
    ok, d := DeserialiseNullable(m);
    r := if ok then Some(Strings(a, b, c, d)) else None;
  }

  method DeserialiseLists(m: Sshbuf) returns (r: Option<Lists>)
    requires m.Valid()
    modifies m
    ensures m.Valid()
    ensures match GetLists(old(m.data))
      case None => r == None
      case Some(x) => r == Some(x.value) && m.data == x.rest
  {
    var a := DeserialiseArray(m);
    if a == None {
      return None;
    }
    var b := DeserialiseArray(m);
    if b == None {
      return None;
    }
    var c := DeserialiseArray(m);
    if c == None {
      return None;
    }
    r := Some(Lists(a.value, b.value, c.value));
  }

  /** sshauthopt_deserialise. */
  method Deserialise(m: Sshbuf) returns (r: Option<Options>)
    requires m.Valid()
    modifies m
    ensures m.Valid()
    ensures match Deserialised(old(m.data))
      case None => r == None
      case Some(x) => r == Some(x.value) && m.data == x.rest
  {
    var h := DeserialiseHead(m);
    if h == None {
      return None;
    }
    var x := DeserialiseStrings(m);
    if x == None {
      return None;
    }
    var l := DeserialiseLists(m);
    if l == None {
      return None;
    }
    r := Some(Options(h.value.flags, h.value.validBefore, h.value.tun, x.value, l.value));
  }
}

/**
 * sshauthopt_merge and the fold of auth_activate_options over the option sets of a session.
 */
module AuthMerge {
  import opened Octets
  import opened Wire
  import opened AuthOptions

  function First(a: Option<cstring>, b: Option<cstring>): Option<cstring> { if a == None then b else a }

  function FirstList(a: seq<cstring>, b: seq<cstring>): seq<cstring> { if a == [] then b else a }

  function Both(a: int, b: int): int { if a == 1 && b == 1 then 1 else 0 }

  function Either(a: int, b: int): int { if a == 1 || b == 1 then 1 else 0 }

  function MergeFlags(p: Flags, a: Flags): Flags {
    Flags(Both(p.portForwarding, a.portForwarding), Both(p.agentForwarding, a.agentForwarding),
          Both(p.x11Forwarding, a.x11Forwarding), Both(p.pty, a.pty), Both(p.userRc, a.userRc), 0, 0,
          Both(p.noUserPresence, a.noUserPresence), Either(p.requireVerify, a.requireVerify))
  }

  /** The expiry as the code computes it: the additional one only ever shortens a primary one. */
  function MergeExpiry(p: nat, a: nat): nat {
    if a != 0 && a < p then a else p
  }

  predicate CommandsClash(p: Options, a: Options) {
    p.strings.command.Some? && a.strings.command.Some? && p.strings.command != a.strings.command
  }

  function Merged(p: Options, a: Options): Option<Options> {
    if CommandsClash(p, a) then None
    else Some(Options(
      MergeFlags(p.flags, a.flags),
      MergeExpiry(p.validBefore, a.validBefore),
      if p.tun == -1 then a.tun else p.tun,
      Strings(None, First(p.strings.command, a.strings.command),
              First(p.strings.fromHostCert, a.strings.fromHostCert),
              First(p.strings.fromHostKeys, a.strings.fromHostKeys)),
      Lists(FirstList(p.lists.env, a.lists.env), FirstList(p.lists.permitopen, a.lists.permitopen),
            FirstList(p.lists.permitlisten, a.lists.permitlisten))))
  }

  /** sshauthopt_new: everything cleared, no tunnel device. */
  const BLANK := Options(Flags(0, 0, 0, 0, 0, 0, 0, 0, 0), 0, -1, Strings(None, None, None, None), Lists([], [], []))

  method MergeLists(p: Lists, a: Lists) returns (l: Lists)
    ensures l == Lists(FirstList(p.env, a.env), FirstList(p.permitopen, a.permitopen),
                       FirstList(p.permitlisten, a.permitlisten))
  {
    l := BLANK.lists;
    if |p.env| > 0 {
      l := l.(env := p.env);
    } else if |a.env| > 0 {
      l := l.(env := a.env);
    }
    if |p.permitopen| > 0 {
      l := l.(permitopen := p.permitopen);
    } else if |a.permitopen| > 0 {
      l := l.(permitopen := a.permitopen);
    }
    if |p.permitlisten| > 0 {
      l := l.(permitlisten := p.permitlisten);
    } else if |a.permitlisten| > 0 {
      l := l.(permitlisten := a.permitlisten);
    }
  }

  /** sshauthopt_merge, filling a blank record field by field. */
  method Merge(p: Options, a: Options) returns (r: Option<Options>)
    ensures r == Merged(p, a)
  {
    var cert := if p.strings.fromHostCert == None then a.strings.fromHostCert else p.strings.fromHostCert;
    var keys := if p.strings.fromHostKeys == None then a.strings.fromHostKeys else p.strings.fromHostKeys;
    var tun := p.tun;
    if tun == -1 {
      tun := a.tun;
    }
    var lists := MergeLists(p.lists, a.lists);
    var flags := MergeFlags(p.flags, a.flags);
    var expiry := BLANK.validBefore;
    if p.validBefore != 0 {
      expiry := p.validBefore;
    }
    if a.validBefore != 0 && a.validBefore < expiry {
      expiry := a.validBefore;
    }
    var command := None;
    if p.strings.command.Some? && a.strings.command.Some? {
      if p.strings.command.value != a.strings.command.value {
        return None;
      }
      command := p.strings.command;
    } else if p.strings.command.Some? {
      command := p.strings.command;
    } else if a.strings.command.Some? {
      command := a.strings.command;
    }
    r := Some(Options(flags, expiry, tun, Strings(None, command, cert, keys), lists));
  }

  // ---- a session

  /** auth_activate_options over a sequence of option sets; None once two forced commands differ. */
  function Activate(o: Options, sets: seq<Options>): Option<Options> {
    if sets == [] then Some(o)
    else match Activate(o, sets[..|sets| - 1])
      case None => None
      case Some(m) => Merged(m, sets[|sets| - 1])
  }

  /** Whether the flag chosen by `pick` is 1 in o and in every set. */
  predicate InAll(pick: Flags -> int, o: Options, sets: seq<Options>) {
    pick(o.flags) == 1 && forall s <- sets :: pick(s.flags) == 1
  }

  predicate InAny(pick: Flags -> int, o: Options, sets: seq<Options>) {
    pick(o.flags) == 1 || exists s <- sets :: pick(s.flags) == 1
  }

  ghost predicate IsPermit(pick: Flags -> int) {
    forall p, a :: pick(MergeFlags(p, a)) == Both(pick(p), pick(a))
  }

  lemma PermitFlags()
    ensures IsPermit((f: Flags) => f.portForwarding) && IsPermit((f: Flags) => f.agentForwarding)
    ensures IsPermit((f: Flags) => f.x11Forwarding) && IsPermit((f: Flags) => f.pty)
    ensures IsPermit((f: Flags) => f.userRc) && IsPermit((f: Flags) => f.noUserPresence)
  {
  }

  lemma InAllStep(pick: Flags -> int, o: Options, sets: seq<Options>)
    requires sets != []
    ensures InAll(pick, o, sets) <==> InAll(pick, o, sets[..|sets| - 1]) && pick(sets[|sets| - 1].flags) == 1
  {
    assert sets == sets[..|sets| - 1] + [sets[|sets| - 1]];
  }

  lemma InAnyStep(pick: Flags -> int, o: Options, sets: seq<Options>)
    requires sets != []
    ensures InAny(pick, o, sets) <==> InAny(pick, o, sets[..|sets| - 1]) || pick(sets[|sets| - 1].flags) == 1
  {
    assert sets == sets[..|sets| - 1] + [sets[|sets| - 1]];
  }

  lemma ActivateStep(o: Options, sets: seq<Options>)
    requires sets != [] && Activate(o, sets).Some?
    ensures var m := Activate(o, sets[..|sets| - 1]);
      m.Some? && Activate(o, sets).value.flags == MergeFlags(m.value.flags, sets[|sets| - 1].flags)
  {
  }

  /** A permission survives the session exactly if every set granted it. */
  lemma {:induction false} PermitNeedsAll(pick: Flags -> int, o: Options, sets: seq<Options>)
    requires IsPermit(pick) && Activate(o, sets).Some?
    ensures pick(Activate(o, sets).value.flags) == 1 <==> InAll(pick, o, sets)
  {
    if sets != [] {
      ActivateStep(o, sets);
      InAllStep(pick, o, sets);
      PermitNeedsAll(pick, o, sets[..|sets| - 1]);
    }
  }

  ghost predicate IsDemand(pick: Flags -> int) {
    forall p, a :: pick(MergeFlags(p, a)) == Either(pick(p), pick(a))
  }

  lemma DemandFlags()
    ensures IsDemand((f: Flags) => f.requireVerify)
  {
  }

  /** User verification is required exactly if some set required it. */
  lemma {:induction false} DemandNeedsOne(pick: Flags -> int, o: Options, sets: seq<Options>)
    requires IsDemand(pick) && Activate(o, sets).Some?
    ensures pick(Activate(o, sets).value.flags) == 1 <==> InAny(pick, o, sets)
  {
    if sets != [] {
      ActivateStep(o, sets);
      InAnyStep(pick, o, sets);
      DemandNeedsOne(pick, o, sets[..|sets| - 1]);
    }
  }

  /** The session goes on exactly while all forced commands agree, and the first one stands. */
  lemma {:induction false} CommandIsFixed(o: Options, sets: seq<Options>)
    ensures Activate(o, sets).Some? <==>
      forall s, t :: s in [o] + sets && t in [o] + sets ==> !CommandsClash(s, t)
    ensures Activate(o, sets).Some? ==>
      forall s :: s in [o] + sets && s.strings.command.Some? ==>
        Activate(o, sets).value.strings.command == s.strings.command
    ensures Activate(o, sets).Some? && Activate(o, sets).value.strings.command.Some? ==>
      exists s :: s in [o] + sets && s.strings.command == Activate(o, sets).value.strings.command
  {
    if sets == [] {
      assert [o] + sets == [o];
    } else {
      var (init, last) := (sets[..|sets| - 1], sets[|sets| - 1]);
      CommandIsFixed(o, init);
      assert [o] + sets == [o] + init + [last];
      if Activate(o, init).Some? {
        CommandStep(o, init, last, Activate(o, init).value);
      }
    }
  }

  lemma CommandStep(o: Options, init: seq<Options>, last: Options, m: Options)
    requires forall s :: s in [o] + init && s.strings.command.Some? ==> m.strings.command == s.strings.command
    requires m.strings.command.Some? ==>
      exists s :: s in [o] + init && s.strings.command == m.strings.command
    ensures CommandsClash(m, last) <==> exists s :: s in [o] + init && CommandsClash(s, last)
  {
    if m.strings.command.Some? {
      var s :| s in [o] + init && s.strings.command == m.strings.command;
    }
  }

  /** The earliest of the non-zero expiries, or 0 when there is none. */
  function Earliest(o: Options, sets: seq<Options>): nat {
    if sets == [] then o.validBefore
    else
      var e := Earliest(o, sets[..|sets| - 1]);
      var a := sets[|sets| - 1].validBefore;
      if e == 0 then a else if a == 0 then e else if a < e then a else e
  }

  /** The session expires at the earliest expiry exactly if the first set had one or none has. */
  lemma {:induction false} ExpiryOfSession(o: Options, sets: seq<Options>)
    requires Activate(o, sets).Some?
    ensures o.validBefore == 0 ==> Activate(o, sets).value.validBefore == 0
    ensures o.validBefore != 0 ==> Activate(o, sets).value.validBefore == Earliest(o, sets) != 0
    ensures Activate(o, sets).value.validBefore == Earliest(o, sets) <==>
      o.validBefore != 0 || forall s :: s in sets ==> s.validBefore == 0
  {
    if sets != [] {
      var (init, last) := (sets[..|sets| - 1], sets[|sets| - 1]);
      ExpiryOfSession(o, init);
      EarliestIsZero(o, sets);
      assert sets == init + [last];
    }
  }

  lemma {:induction false} EarliestIsZero(o: Options, sets: seq<Options>)
    ensures Earliest(o, sets) == 0 <==> o.validBefore == 0 && forall s :: s in sets ==> s.validBefore == 0
  {
    if sets != [] {
      var (init, last) := (sets[..|sets| - 1], sets[|sets| - 1]);
      EarliestIsZero(o, init);
      assert sets == init + [last];
    }
  }

  /** `Earliest` is a lower bound of the non-zero expiries and one of them. */
  lemma {:induction false} EarliestIsMinimum(o: Options, sets: seq<Options>)
    ensures forall s :: s in [o] + sets && s.validBefore != 0 ==> 0 < Earliest(o, sets) <= s.validBefore
    ensures exists s :: s in [o] + sets && s.validBefore == Earliest(o, sets)
  {
    if sets == [] {
      assert o in [o] + sets;
    } else {
      var (init, last) := (sets[..|sets| - 1], sets[|sets| - 1]);
      EarliestIsMinimum(o, init);
      assert [o] + sets == [o] + init + [last];
      var s :| s in [o] + init && s.validBefore == Earliest(o, init);
      assert s in [o] + sets && last in [o] + sets;
    }
  }

  /** sshauthopt_new_with_keys_defaults: what sshd starts every session from. */
  const KEYS_DEFAULTS := BLANK.(flags := Flags(1, 1, 1, 1, 1, 0, 0, 0, 0))

  /** Every session of sshd: each default permission is kept exactly if all sets grant it, user
      verification is required exactly if some set requires it, user presence is never waived, and
      no expiry is ever recorded. */
  lemma EverySession(sets: seq<Options>)
    requires Activate(KEYS_DEFAULTS, sets).Some?
    ensures var f := Activate(KEYS_DEFAULTS, sets).value.flags;
      && (f.portForwarding == 1 <==> forall s <- sets :: s.flags.portForwarding == 1)
      && (f.agentForwarding == 1 <==> forall s <- sets :: s.flags.agentForwarding == 1)
      && (f.x11Forwarding == 1 <==> forall s <- sets :: s.flags.x11Forwarding == 1)
      && (f.pty == 1 <==> forall s <- sets :: s.flags.pty == 1)
      && (f.userRc == 1 <==> forall s <- sets :: s.flags.userRc == 1)
      && f.noUserPresence != 1
      && (f.requireVerify == 1 <==> exists s <- sets :: s.flags.requireVerify == 1)
    ensures Activate(KEYS_DEFAULTS, sets).value.validBefore == 0
  {
    PermitFlags();
    DemandFlags();
    PermitNeedsAll((f: Flags) => f.portForwarding, KEYS_DEFAULTS, sets);
    PermitNeedsAll((f: Flags) => f.agentForwarding, KEYS_DEFAULTS, sets);
    PermitNeedsAll((f: Flags) => f.x11Forwarding, KEYS_DEFAULTS, sets);
    PermitNeedsAll((f: Flags) => f.pty, KEYS_DEFAULTS, sets);
    PermitNeedsAll((f: Flags) => f.userRc, KEYS_DEFAULTS, sets);
    PermitNeedsAll((f: Flags) => f.noUserPresence, KEYS_DEFAULTS, sets);
    DemandNeedsOne((f: Flags) => f.requireVerify, KEYS_DEFAULTS, sets);
    ExpiryOfSession(KEYS_DEFAULTS, sets);
  }

  /** So a key that expires merged into a fresh session leaves it without an expiry. */
  lemma ExpiryIsDropped(expiry: nat)
    requires expiry > 0
    ensures var key := KEYS_DEFAULTS.(validBefore := expiry);
      && Activate(KEYS_DEFAULTS, [key]).Some?
      && Activate(KEYS_DEFAULTS, [key]).value.validBefore == 0 < Earliest(KEYS_DEFAULTS, [key]) == expiry
  {
    var sets := [KEYS_DEFAULTS.(validBefore := expiry)];
    assert sets[..0] == [] && Activate(KEYS_DEFAULTS, []) == Some(KEYS_DEFAULTS);
    assert Earliest(KEYS_DEFAULTS, []) == 0;
  }

  /** An expiry that is set never moves later. */
  lemma ExpiryNeverIncreases(p: Options, a: Options)
    requires Merged(p, a).Some? && p.validBefore != 0
    ensures 0 < Merged(p, a).value.validBefore <= p.validBefore
  {
  }

  function MergedBoth(a: Option<Options>, b: Option<Options>): Option<Options> {
    if a.Some? && b.Some? then Merged(a.value, b.value) else None
  }

  /** Both groupings of three sets fail together and agree on every field but the expiry... */
  lemma GroupingIsIrrelevant(a: Options, b: Options, c: Options)
    ensures var l := MergedBoth(Merged(a, b), Some(c));
      var r := MergedBoth(Some(a), Merged(b, c));
      && l.Some? == r.Some?
      && (l.Some? ==> l.value.(validBefore := 0) == r.value.(validBefore := 0))
  {
    var l := MergedBoth(Merged(a, b), Some(c));
    var r := MergedBoth(Some(a), Merged(b, c));
    if l.Some? && r.Some? {
      assert l.value.flags == r.value.flags;
      assert l.value.strings == r.value.strings;
      assert l.value.lists == r.value.lists;
    }
  }

  /** ... which differs exactly when the middle set has none and the last would shorten the first. */
  lemma GroupingOfExpiry(a: Options, b: Options, c: Options)
    requires MergedBoth(Merged(a, b), Some(c)).Some? && MergedBoth(Some(a), Merged(b, c)).Some?
    ensures MergedBoth(Merged(a, b), Some(c)).value.validBefore != MergedBoth(Some(a), Merged(b, c)).value.validBefore
      <==> b.validBefore == 0 && 0 < c.validBefore < a.validBefore
  {
    assert MergeExpiry(MergeExpiry(a.validBefore, b.validBefore), c.validBefore)
      != MergeExpiry(a.validBefore, MergeExpiry(b.validBefore, c.validBefore))
      <==> b.validBefore == 0 && 0 < c.validBefore < a.validBefore;
  }
}
