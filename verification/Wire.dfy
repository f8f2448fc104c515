/**
 * Wire encodings of section 5 of RFC 4251 as read and written by sshbuf-getput-basic.c, and the
 * buffer they are kept in.
 */
module Wire {
  import opened Octets

  const SSHBUF_SIZE_MAX: nat := 0x800_0000

  type cstring = s: seq<byte> | 0 !in s

  function Pow256(n: nat): nat { if n == 0 then 1 else 256 * Pow256(n - 1) }

  lemma Powers()
    ensures Pow256(1) == 256 && Pow256(4) == 0x1_0000_0000 && Pow256(8) == 0x1_0000_0000_0000_0000
  {
    assert Pow256(2) == 0x1_0000;
    assert Pow256(4) == 0x1_0000_0000;
    assert Pow256(6) == 0x1_0000_0000_0000;
  }

  /** Octet k of v, least significant first. */
  function Digit(v: nat, k: nat): byte
    decreases k
  {
    if k == 0 then v % 256 else Digit(v / 256, k - 1)
  }

  /** The low n octets of v, most significant first. */
  function PutBE(v: nat, n: nat): seq<byte> {
    seq(n, i requires 0 <= i < n => Digit(v, n - 1 - i))
  }

  lemma PutBEStep(v: nat, n: nat)
    requires n > 0
    ensures PutBE(v, n) == PutBE(v / 256, n - 1) + [v % 256]
  {
    var (s, t) := (PutBE(v, n), PutBE(v / 256, n - 1) + [v % 256]);
    forall i | 0 <= i < n ensures s[i] == t[i] {
      assert s[i] == Digit(v, n - 1 - i);
    }
  }

  function GetBE(s: seq<byte>): nat {
    if s == [] then 0 else 256 * GetBE(s[..|s| - 1]) + s[|s| - 1]
  }

  lemma {:induction false} GetPutBE(v: nat, n: nat)
    requires v < Pow256(n)
    ensures GetBE(PutBE(v, n)) == v
    decreases n
  {
    if n > 0 {
      GetPutBE(v / 256, n - 1);
      PutBEStep(v, n);
      assert PutBE(v, n)[..n - 1] == PutBE(v / 256, n - 1);
    }
  }

  lemma {:induction false} PutGetBE(s: seq<byte>)
    ensures GetBE(s) < Pow256(|s|) && PutBE(GetBE(s), |s|) == s
  {
    if s != [] {
      var init := s[..|s| - 1];
      PutGetBE(init);
      PutBEStep(GetBE(s), |s|);
      assert s == init + [s[|s| - 1]];
    }
  }

  function U32(v: nat): (s: seq<byte>) ensures |s| == 4 { PutBE(v, 4) }

  function U64(v: nat): (s: seq<byte>) ensures |s| == 8 { PutBE(v, 8) }

  function Str(v: seq<byte>): (s: seq<byte>) ensures |s| == |v| + 4 { U32(|v|) + v }

  /** What a read leaves behind. */
  datatype Read<+T> = Read(value: T, rest: seq<byte>)

  /** sshbuf_get_u8, sshbuf_get_u32 and sshbuf_get_u64. */
  function GetInt(s: seq<byte>, n: nat): Option<Read<nat>> {
    if |s| < n then None else Some(Read(GetBE(s[..n]), s[n..]))
  }

  /** sshbuf_peek_string_direct followed by the consumption of the string. */
  function GetStr(s: seq<byte>): Option<Read<seq<byte>>> {
    if |s| < 4 then None
    else
      var len := GetBE(s[..4]);
      if len > SSHBUF_SIZE_MAX - 4 || |s| - 4 < len then None
      else Some(Read(s[4..4 + len], s[4 + len..]))
  }

  /** A NUL may only be the last octet; the C string ends there. */
  function CutNul(v: seq<byte>): Option<cstring> {
    if 0 !in v then Some(v)
    else if 0 !in v[..|v| - 1] then Some(v[..|v| - 1])
    else None
  }

  function GetCStr(s: seq<byte>): Option<Read<cstring>> {
    match GetStr(s)
    case None => None
    case Some(r) =>
      match CutNul(r.value)
      case None => None
      case Some(v) => Some(Read(v, r.rest))
  }

  lemma GetPutInt(v: nat, n: nat, tail: seq<byte>)
    requires v < Pow256(n)
    ensures GetInt(PutBE(v, n) + tail, n) == Some(Read(v, tail))
  {
    GetPutBE(v, n);
    assert (PutBE(v, n) + tail)[..n] == PutBE(v, n);
  }

  lemma GetPutStr(v: seq<byte>, tail: seq<byte>)
    requires |v| <= SSHBUF_SIZE_MAX - 4
    ensures GetStr(Str(v) + tail) == Some(Read(v, tail))
  {
    var s := Str(v) + tail;
    GetPutBE(|v|, 4);
    assert s[..4] == U32(|v|);
    assert s[4..4 + |v|] == v && s[4 + |v|..] == tail;
  }

  lemma GetPutCStr(v: cstring, tail: seq<byte>)
    requires |v| <= SSHBUF_SIZE_MAX - 4
    ensures GetCStr(Str(v) + tail) == Some(Read(v, tail))
  {
    GetPutStr(v, tail);
  }

  /** A string is accepted exactly if it has no NUL before its last octet, and then it is read up to
      its NUL. */
  lemma CStrAccepts(v: seq<byte>, tail: seq<byte>)
    requires |v| <= SSHBUF_SIZE_MAX - 4
    ensures GetCStr(Str(v) + tail).Some? <==> forall i :: 0 <= i < |v| - 1 ==> v[i] != 0
    ensures GetCStr(Str(v) + tail).Some? ==>
      var c := GetCStr(Str(v) + tail).value;
      c.rest == tail && (v == c.value || v == c.value + [0])
  {
    GetPutStr(v, tail);
    if v != [] {
      var init := v[..|v| - 1];
      assert v == init + [v[|v| - 1]];
      assert forall i :: 0 <= i < |v| - 1 ==> v[i] == init[i];
    }
  }

  class Sshbuf {
    var data: seq<byte>
    const max: nat

    ghost predicate Valid() reads this { |data| <= max <= SSHBUF_SIZE_MAX }

    /** sshbuf_new and sshbuf_from. */
    constructor (init: seq<byte>)
      requires |init| <= SSHBUF_SIZE_MAX
      ensures Valid() && data == init && max == SSHBUF_SIZE_MAX
    {
      data := init;
      max := SSHBUF_SIZE_MAX;
    }

    /** sshbuf_put: nothing is written unless everything fits. */
    method Put(v: seq<byte>) returns (ok: bool)
      requires Valid()
      modifies this
      ensures Valid() && ok == (|old(data)| + |v| <= max)
      ensures data == if ok then old(data) + v else old(data)
    {
      if |v| > max || max - |v| < |data| {
        return false;
      }
      data := data + v;
      ok := true;
    }

    /** sshbuf_put_u8/u32/u64: the value is truncated to n octets. */
    method PutInt(v: nat, n: nat) returns (ok: bool)
      requires Valid()
      modifies this
      ensures Valid() && ok == (|old(data)| + n <= max)
      ensures data == if ok then old(data) + PutBE(v, n) else old(data)
    {
      ok := Put(PutBE(v, n));
    }

    /** sshbuf_put_string. */
    method PutString(v: seq<byte>) returns (ok: bool)
      requires Valid()
      modifies this
      ensures Valid() && ok == (|old(data)| + |Str(v)| <= max)
      ensures data == if ok then old(data) + Str(v) else old(data)
    {
      if |v| > SSHBUF_SIZE_MAX - 4 {
        return false;
      }
      ok := Put(Str(v));
    }

    /** sshbuf_get_u8/u32/u64: nothing is consumed on failure. */
    method GetNumber(n: nat) returns (r: Option<nat>)
      requires Valid()
      modifies this
      ensures Valid()
      ensures match GetInt(old(data), n)
        case None => r == None && data == old(data)
        case Some(x) => r == Some(x.value) && data == x.rest
    {
      if |data| < n {
        return None;
      }
      r := Some(GetBE(data[..n]));
      data := data[n..];
    }

    /** sshbuf_get_string. */
    method GetString() returns (r: Option<seq<byte>>)
      requires Valid()
      modifies this
      ensures Valid()
      ensures match GetStr(old(data))
        case None => r == None && data == old(data)
        case Some(x) => r == Some(x.value) && data == x.rest
    {
      if |data| < 4 {
        return None;
      }
      var len := GetBE(data[..4]);
      if len > SSHBUF_SIZE_MAX - 4 || |data| - 4 < len {
        return None;
      }
      r := Some(data[4..4 + len]);
      data := data[4 + len..];
    }

    /** sshbuf_get_cstring. */
    method GetCString() returns (r: Option<cstring>)
      requires Valid()
      modifies this
      ensures Valid()
      ensures match GetCStr(old(data))
        case None => r == None && data == old(data)
        case Some(x) => r == Some(x.value) && data == x.rest
    {
      var peek := GetStr(data);
      if peek == None {
        return None;
      }
      var v := peek.value.value;
      var z := 0;
      while z < |v| && v[z] != 0
        invariant z <= |v| && 0 !in v[..z]
      {
        z := z + 1;
      }
      assert v[..|v|] == v;
      if z < |v| - 1 {
        assert v[..|v| - 1][z] == 0;
        return None;
      }
      data := peek.value.rest;
      r := Some(v[..z]);
    }
  }
}
