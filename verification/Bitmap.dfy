/**
 * bitmap.c: a growable array of 32-bit words standing for a set of naturals, with a lazily
 * maintained index `top` of the highest word in use, and its big-endian encoding.
 */
module Bitmap {
  import opened Octets
  import opened Bits

  const WORD: nat := 0x1_0000_0000
  const BITMAP_MAX: nat := 0x100_0000

  // ---- the mathematical view of a word array

  predicate Words(d: seq<nat>) { forall i :: 0 <= i < |d| ==> d[i] < WORD }

  /** Membership of n in the set the words stand for. */
  predicate Has(d: seq<nat>, n: nat) { n / 32 < |d| && Bit(d[n / 32], n % 32) }

  /** Octet m of a word, least significant first: (w >> 8m) & 0xff. */
  function Octet(w: nat, m: nat): byte {
    if m == 0 then w % 256
    else if m == 1 then (w / 0x100) % 256
    else if m == 2 then (w / 0x1_0000) % 256
    else (w / 0x100_0000) % 256
  }

  /** Octet k of the words, least significant first; zero beyond the end. */
  function OctetAt(d: seq<nat>, k: nat): byte {
    if k / 4 < |d| then Octet(d[k / 4], k % 4) else 0
  }

  /** All words above `top` are zero. */
  predicate ZeroAbove(d: seq<nat>, top: nat) {
    forall i :: top < i < |d| ==> d[i] == 0
  }

  // ---- single words

  lemma SetBitOfWord(w: nat, k: nat)
    requires w < WORD && k < 32
    ensures Or(w, Pow2(k)) < WORD
    ensures forall j: nat :: Bit(Or(w, Pow2(k)), j) <==> Bit(w, j) || j == k
  {
    WordIsPow2();
    Pow2Monotone(k + 1, 32);
    OrBound(w, Pow2(k), 32);
    forall j: nat ensures Bit(Or(w, Pow2(k)), j) <==> Bit(w, j) || j == k {
      OrBit(w, Pow2(k), j);
      Pow2Bit(k, j);
    }
  }

  lemma ClearBitOfWord(w: nat, k: nat)
    requires w < WORD && k < 32
    ensures AndNot(w, Pow2(k)) < WORD
    ensures forall j: nat :: Bit(AndNot(w, Pow2(k)), j) <==> Bit(w, j) && j != k
  {
    AndNotBound(w, Pow2(k));
    forall j: nat ensures Bit(AndNot(w, Pow2(k)), j) <==> Bit(w, j) && j != k {
      AndNotBit(w, Pow2(k), j);
      Pow2Bit(k, j);
    }
  }

  /** Replacing one word changes membership only within it. */
  lemma UpdateWord(d: seq<nat>, o: nat, w: nat, n: nat)
    requires o < |d| && n / 32 != o
    ensures Has(d[o := w], n) == Has(d, n)
  {
  }

  // ---- the highest member

  /** The largest member plus one, given the top word. */
  function NBits(d: seq<nat>, top: nat): nat
    requires top < |d|
  {
    if d[top] == 0 then 0 else 32 * top + BitLen(d[top])
  }

  predicate Tight(d: seq<nat>, top: nat) {
    top < |d| && ZeroAbove(d, top) && (top > 0 ==> d[top] != 0)
  }

  lemma HighestMember(d: seq<nat>, top: nat)
    requires Words(d) && Tight(d, top)
    ensures forall n: nat :: Has(d, n) ==> n < NBits(d, top)
    ensures NBits(d, top) > 0 ==> Has(d, NBits(d, top) - 1)
  {
    WordIsPow2();
    forall n: nat | Has(d, n) ensures n < NBits(d, top) {
      if d[n / 32] == 0 { ZeroHasNoBits(n % 32); }
      assert n / 32 <= top;
      BitLenBound(d[top], 32);
      if n / 32 == top && n % 32 >= BitLen(d[top]) {
        HighBits(d[top], BitLen(d[top]), n % 32);
      }
    }
    if d[top] > 0 {
      NonZeroHasBit(d[top]);
      BitLenBound(d[top], 32);
      var n := NBits(d, top) - 1;
      assert n / 32 == top && n % 32 == BitLen(d[top]) - 1;
    }
  }

  // ---- octets and bits

  lemma OctetPowers()
    ensures Pow2(8) == 0x100 && Pow2(16) == 0x1_0000 && Pow2(24) == 0x100_0000
  {
    assert Pow2(8) == 0x100;
    assert Pow2(16) == 0x1_0000;
  }

  lemma OctetIsShift(w: nat, m: nat)
    requires m < 4
    ensures Octet(w, m) == Shr(w, 8 * m) % Pow2(8)
  {
    OctetPowers();
    ShrIsDivision(w, 8 * m);
  }

  /** Bit b of octet k is bit 8k + b of the set. */
  lemma OctetBit(d: seq<nat>, k: nat, b: nat)
    requires b < 8
    ensures Bit(OctetAt(d, k), b) <==> Has(d, 8 * k + b)
  {
    var n := 8 * k + b;
    assert n / 32 == k / 4 && n % 32 == 8 * (k % 4) + b;
    if k / 4 < |d| {
      var w := d[k / 4];
      OctetIsShift(w, k % 4);
      MaskBit(Shr(w, 8 * (k % 4)), 8, b);
      ShiftRightBit(w, 8 * (k % 4), b);
    } else {
      ZeroHasNoBits(b);
    }
  }

  lemma ZeroOctet(d: seq<nat>, k: nat)
    requires forall n: nat :: 8 * k <= n < 8 * k + 8 ==> !Has(d, n)
    ensures OctetAt(d, k) == 0
  {
    var v: nat := OctetAt(d, k);
    if v > 0 {
      NonZeroHasBit(v);
      OctetPowers();
      BitLenBound(v, 8);
      OctetBit(d, k, BitLen(v) - 1);
    }
  }

  /** bitmap_nbytes. */
  function NBytes(d: seq<nat>, top: nat): nat
    requires top < |d|
  {
    (NBits(d, top) + 7) / 8
  }

  /** The octets from nbytes on are zero and the one below is not. */
  lemma NBytesIsMinimal(d: seq<nat>, top: nat)
    requires Words(d) && Tight(d, top)
    ensures forall k: nat :: NBytes(d, top) <= k ==> OctetAt(d, k) == 0
    ensures NBytes(d, top) > 0 ==> OctetAt(d, NBytes(d, top) - 1) != 0
    ensures NBytes(d, top) <= 4 * (top + 1)
  {
    HighestMember(d, top);
    WordIsPow2();
    BitLenBound(d[top], 32);
    var need := NBytes(d, top);
    forall k: nat | need <= k ensures OctetAt(d, k) == 0 {
      ZeroOctet(d, k);
    }
    if need > 0 {
      var n := NBits(d, top) - 1;
      assert n / 8 == need - 1;
      OctetBit(d, need - 1, n % 8);
      if OctetAt(d, need - 1) == 0 { ZeroHasNoBits(n % 8); }
    }
  }

  /** The big-endian encoding of the set. */
  function Encoding(d: seq<nat>, top: nat): seq<byte>
    requires top < |d|
  {
    seq(NBytes(d, top), i requires 0 <= i < NBytes(d, top) => OctetAt(d, NBytes(d, top) - 1 - i))
  }

  /** The set whose big-endian encoding, with any number of leading zeros, is s. */
  ghost predicate Decodes(d: seq<nat>, s: seq<byte>) {
    forall n: nat :: Has(d, n) <==> n / 8 < |s| && Bit(s[|s| - 1 - n / 8], n % 8)
  }

  lemma DecodedOctets(d: seq<nat>, s: seq<byte>, k: nat)
    requires Decodes(d, s)
    ensures OctetAt(d, k) == if k < |s| then s[|s| - 1 - k] else 0
  {
    var b: byte := if k < |s| then s[|s| - 1 - k] else 0;
    forall m | 0 <= m < 8 ensures Bit(OctetAt(d, k), m) == Bit(b, m) {
      OctetBit(d, k, m);
      ZeroHasNoBits(m);
      assert (8 * k + m) / 8 == k && (8 * k + m) % 8 == m;
    }
    OctetPowers();
    SameBits(OctetAt(d, k), b, 8);
  }

  function StripZeros(s: seq<byte>): seq<byte> {
    if s != [] && s[0] == 0 then StripZeros(s[1..]) else s
  }

  /** bitmap_from_string after bitmap_to_string gives back the same set. */
  lemma DecodeEncode(d: seq<nat>, top: nat, d': seq<nat>)
    requires Words(d) && Tight(d, top) && Decodes(d', Encoding(d, top))
    ensures forall n: nat :: Has(d', n) == Has(d, n)
  {
    HighestMember(d, top);
    var s := Encoding(d, top);
    forall n: nat ensures Has(d', n) == Has(d, n) {
      OctetBit(d, n / 8, n % 8);
      if n / 8 < |s| {
        assert s[|s| - 1 - n / 8] == OctetAt(d, n / 8);
      }
    }
  }

  /** ... and the encoding can be read back at all exactly when bit 2^24 is clear, although
      bitmap_set_bit accepts that bit. */
  lemma EncodingFits(d: seq<nat>, top: nat)
    requires Words(d) && Tight(d, top) && forall n: nat :: Has(d, n) ==> n <= BITMAP_MAX
    ensures |Encoding(d, top)| <= BITMAP_MAX / 8 <==> !Has(d, BITMAP_MAX)
  {
    HighestMember(d, top);
  }

  lemma {:induction false} StripIsSuffix(s: seq<byte>)
    ensures var t := StripZeros(s);
      && |t| <= |s| && t == s[|s| - |t|..]
      && (forall i :: 0 <= i < |s| - |t| ==> s[i] == 0)
      && (t != [] ==> t[0] != 0)
  {
    if s != [] && s[0] == 0 {
      var r := s[1..];
      StripIsSuffix(r);
      var t := StripZeros(r);
      assert r[|r| - |t|..] == s[|s| - |t|..];
      forall i | 0 <= i < |s| - |t| ensures s[i] == 0 {
        if i > 0 { assert s[i] == r[i - 1]; }
      }
    } else {
      assert s[0..] == s;
    }
  }

  /** bitmap_to_string after bitmap_from_string returns the input without leading zero octets. */
  lemma EncodeDecode(s: seq<byte>, d: seq<nat>, top: nat)
    requires Words(d) && Tight(d, top) && Decodes(d, s)
    ensures Encoding(d, top) == StripZeros(s)
  {
    NBytesIsMinimal(d, top);
    StripIsSuffix(s);
    var (need, t) := (NBytes(d, top), StripZeros(s));
    forall k: nat ensures OctetAt(d, k) == if k < |s| then s[|s| - 1 - k] else 0 {
      DecodedOctets(d, s, k);
    }
    if t != [] {
      assert OctetAt(d, |t| - 1) == s[|s| - |t|] == t[0];
    }
    if need > 0 {
      assert need - 1 < |s| && s[|s| - need] != 0;
    }
    assert need == |t|;
    forall i | 0 <= i < |t| ensures Encoding(d, top)[i] == t[i] {
      assert t[i] == s[|s| - |t| + i];
    }
  }

  /** The number of words after reserving room for bit n. */
  function Grown(words: nat, n: nat): nat { if words <= n / 32 then n / 32 + 1 else words }

  class Bitmap {
    var d: array<nat>
    var top: nat

    ghost predicate Valid()
      reads this, d
    {
      && top < d.Length && Words(d[..]) && ZeroAbove(d[..], top)
      && (forall n: nat :: Has(d[..], n) ==> n <= BITMAP_MAX)
    }

    /** bitmap_new. */
    constructor ()
      ensures Valid() && fresh(d) && d.Length == 1
      ensures forall n: nat :: !Has(d[..], n)
    {
      d := new nat[1](_ => 0);
      top := 0;
      new;
      forall n: nat ensures !Has(d[..], n) { ZeroHasNoBits(n % 32); }
    }

    /** bitmap_zero. */
    method Zero()
      requires Valid()
      modifies this, d
      ensures Valid() && d == old(d) && top == 0
      ensures forall i :: 0 <= i < d.Length ==> d[i] == 0
      ensures forall n: nat :: !Has(d[..], n)
    {
      forall i | 0 <= i < d.Length { d[i] := 0; }
      top := 0;
      forall n: nat ensures !Has(d[..], n) { ZeroHasNoBits(n % 32); }
    }

    /** bitmap_test_bit. */
    method TestBit(n: nat) returns (r: bool)
      requires Valid()
      ensures r <==> Has(d[..], n)
    {
      if n / 32 > top {
        if n / 32 < d.Length { ZeroHasNoBits(n % 32); }
        return false;
      }
      r := Bit(d[n / 32], n % 32);
    }

    /** reserve: the array keeps its words and grows with zeros. */
    method Reserve(n: nat, allocOk: bool) returns (ok: bool)
      requires Valid()
      modifies this`d
      ensures Valid() && (d == old(d) || fresh(d))
      ensures ok ==> n / 32 < d.Length && n <= BITMAP_MAX
      ensures ok <==> n <= BITMAP_MAX && (allocOk || n / 32 < old(d.Length))
      ensures forall j: nat :: Has(d[..], j) == old(Has(d[..], j))
      ensures d.Length == (if ok then Grown(old(d.Length), n) else old(d.Length))
      ensures forall i :: 0 <= i < old(d.Length) ==> d[i] == old(d[i])
      ensures forall i :: old(d.Length) <= i < d.Length ==> d[i] == 0
    {
      if n > BITMAP_MAX {
        return false;
      }
      var nlen := n / 32 + 1;
      if d.Length < nlen {
        if !allocOk {
          return false;
        }
        var old_d := d;
        var tmp := new nat[nlen](i requires 0 <= i < nlen reads this, old_d => if i < old_d.Length then old_d[i] else 0);
        forall j: nat ensures Has(tmp[..], j) == Has(d[..], j) {
          ZeroHasNoBits(j % 32);
        }
        d := tmp;
      }
      ok := true;
    }

    /** bitmap_set_bit. */
    method SetBit(n: nat, allocOk: bool) returns (ok: bool)
      requires Valid()
      modifies this, d
      ensures Valid() && (d == old(d) || fresh(d))
      ensures ok <==> n <= BITMAP_MAX && (allocOk || n / 32 < old(d.Length))
      ensures d.Length == (if ok then Grown(old(d.Length), n) else old(d.Length))
      ensures forall j: nat :: Has(d[..], j) == (old(Has(d[..], j)) || (ok && j == n))
    {
      ok := Reserve(n, allocOk);
      if !ok {
        return;
      }
      var offset := n / 32;
      if offset > top {
        top := offset;
      }
      SetBitOfWord(d[offset], n % 32);
      ghost var before := d[..];
      d[offset] := Or(d[offset], Pow2(n % 32));
      assert d[..] == before[offset := d[offset]];
      forall j: nat ensures Has(d[..], j) == (Has(before, j) || j == n) {
        if j / 32 != offset { UpdateWord(before, offset, d[offset], j); }
      }
    }

    /** retop: lower `top` to the highest non-zero word. */
    method Retop()
      requires Valid()
      modifies this`top
      ensures Valid() && Tight(d[..], top)
    {
      while top > 0 && d[top] == 0
        invariant top < d.Length && ZeroAbove(d[..], top)
      {
        top := top - 1;
      }
    }

    /** bitmap_clear_bit. */
    method ClearBit(n: nat)
      requires Valid()
      modifies this`top, d
      ensures Valid() && d == old(d)
      ensures forall j: nat :: Has(d[..], j) == (old(Has(d[..], j)) && j != n)
    {
      var offset := n / 32;
      if n > BITMAP_MAX || offset > top {
        if offset < d.Length { ZeroHasNoBits(n % 32); }
        return;
      }
      ClearBitOfWord(d[offset], n % 32);
      ghost var before := d[..];
      d[offset] := AndNot(d[offset], Pow2(n % 32));
      assert d[..] == before[offset := d[offset]];
      forall j: nat ensures Has(d[..], j) == (Has(before, j) && j != n) {
        if j / 32 != offset { UpdateWord(before, offset, d[offset], j); }
      }
      Retop();
    }

    /** The loop of bitmap_nbits: shift the word left until its high bit appears. */
    static method ShiftUp(word: nat, all: nat) returns (bits: nat)
      requires 0 < word < WORD && 32 <= all
      ensures bits == all - 32 + BitLen(word)
    {
      var w := word;
      bits := all;
      while !Bit(w, 31)
        invariant 0 < w < WORD
        invariant all + BitLen(word) == bits + BitLen(w)
        decreases WORD - w
      {
        TopBitClear(w);
        w := (w * 2) % WORD;
        bits := bits - 1;
      }
      TopBitSet(w);
    }

    /** bitmap_nbits. */
    method CountBits() returns (bits: nat)
      requires Valid()
      modifies this`top
      ensures Valid() && Tight(d[..], top) && bits == NBits(d[..], top)
    {
      Retop();
      if top == 0 && d[0] == 0 {
        return 0;
      }
      bits := ShiftUp(d[top], (top + 1) * 32);
    }

    /** The inner loop of bitmap_to_string: up to four octets of one word. */
    static method PutWord(w: nat, s: array<byte>, need: nat, k: nat) returns (k': nat)
      requires k <= need <= s.Length
      modifies s
      ensures k' == if k + 4 <= need then k + 4 else need
      ensures forall j :: 0 <= j < k' - k ==> s[need - 1 - k - j] == Octet(w, j)
      ensures forall q :: 0 <= q < s.Length && !(need - k' <= q < need - k) ==> s[q] == old(s[q])
    {
      k' := k;
      for j := 0 to 4
        invariant k' == if k + j <= need then k + j else need
        invariant forall m :: 0 <= m < k' - k ==> s[need - 1 - k - m] == Octet(w, m)
        invariant forall q :: 0 <= q < s.Length && !(need - k' <= q < need - k) ==> s[q] == old(s[q])
      {
        if k' >= need {
          break;
        }
        s[need - 1 - k'] := Octet(w, j);
        k' := k' + 1;
      }
    }

    /** The outer loop of bitmap_to_string: octets from the least significant backwards. */
    static method PutWords(w: seq<nat>, s: array<byte>, need: nat)
      requires need <= s.Length && need <= 4 * |w|
      modifies s
      ensures forall q :: 0 <= q < need ==> s[need - 1 - q] == OctetAt(w, q)
      ensures forall q :: need <= q < s.Length ==> s[q] == old(s[q])
    {
      var k := 0;
      for i := 0 to |w|
        invariant k == if 4 * i <= need then 4 * i else need
        invariant forall q :: 0 <= q < k ==> s[need - 1 - q] == OctetAt(w, q)
        invariant forall q :: need <= q < s.Length ==> s[q] == old(s[q])
      {
        ghost var k0 := k;
        k := PutWord(w[i], s, need, k);
        forall q | k0 <= q < k ensures s[need - 1 - q] == OctetAt(w, q) {
          assert q / 4 == i && q % 4 == q - k0;
          assert s[need - 1 - k0 - (q - k0)] == Octet(w[i], q - k0);
        }
      }
    }

    /** bitmap_to_string. */
    method ToString(s: array<byte>, l: nat) returns (ok: bool)
      requires Valid() && l <= s.Length
      modifies this`top, s
      ensures Valid() && Tight(d[..], top) && d[..] == old(d[..])
      ensures ok <==> NBytes(d[..], top) <= l
      ensures ok ==> s[..NBytes(d[..], top)] == Encoding(d[..], top)
      ensures forall i :: 0 <= i < s.Length && (!ok || NBytes(d[..], top) <= i) ==> s[i] == old(s[i])
    {
      var bits := CountBits();
      var need := (bits + 7) / 8;
      if l < need {
        return false;
      }
      NBytesIsMinimal(d[..], top);
      PutWords(d[..top + 1], s, need);
      WrittenIsEncoding(d[..], top, d[..top + 1], s[..need]);
      ok := true;
    }

    /** The loop of bitmap_from_string: octets from the most significant word down. */
    method FillOctets(s: seq<byte>)
      requires 0 < |s| && |s| <= 4 * d.Length
      requires forall i :: 0 <= i < d.Length ==> d[i] == 0
      modifies this`top, d
      ensures top < d.Length && Words(d[..]) && ZeroAbove(d[..], top)
      ensures Decodes(d[..], s)
    {
      var l := |s|;
      top := (l + 3) / 4 - 1;
      var offset: int := top;
      var shift := ((l + 3) % 4) * 8;
      ghost var j := (l + 3) % 4;
      forall n: nat ensures !Has(d[..], n) { ZeroHasNoBits(n % 32); }
      for i := 0 to l
        invariant 0 <= j < 4 && shift == 8 * j && l - 1 - i == 4 * offset + j
        invariant offset <= top && Words(d[..]) && ZeroAbove(d[..], top)
        invariant DecodesFrom(d[..], s, l - i)
        modifies d
      {
        ghost var before := d[..];
        PlaceOctet(before, s, l - 1 - i, offset, j);
        d[offset] := Or(d[offset], Shl(s[i], shift));
        assert d[..] == before[offset := d[offset]];
        if shift == 0 {
          offset := offset - 1;
          shift := 24;
          j := 3;
        } else {
          shift := shift - 8;
          j := j - 1;
        }
      }
    }

    /** bitmap_from_string. */
    method FromString(s: seq<byte>, allocOk: bool) returns (ok: bool)
      requires Valid()
      modifies this, d
      ensures Valid() && (d == old(d) || fresh(d))
      ensures ok <==> |s| <= BITMAP_MAX / 8 && (allocOk || |s| * 8 / 32 < old(d.Length))
      ensures d.Length == (if ok then Grown(old(d.Length), |s| * 8) else old(d.Length))
      ensures ok ==> Decodes(d[..], s) && Tight(d[..], top)
      ensures !ok ==> forall n: nat :: Has(d[..], n) == old(Has(d[..], n))
    {
      if |s| > BITMAP_MAX / 8 {
        return false;
      }
      ok := Reserve(|s| * 8, allocOk);
      if !ok {
        return;
      }
      Zero();
      if |s| == 0 {
        return;
      }
      FillOctets(s);
      DecodedIsSmall(d[..], s);
      Retop();
    }
  }

  // ---- every sequence of operations

  /** `mem` says whether memory can be had for the operation, if it needs any. */
  datatype Op = Set(n: nat, mem: bool) | Clear(n: nat) | Empty | Load(s: seq<byte>, mem: bool)

  /** The reference: a mathematical set, and how many words are allocated for it. */
  datatype Ref = Ref(members: set<nat>, words: nat)

  function Decoded(s: seq<byte>): set<nat> {
    set n: nat | n < 8 * |s| && Bit(s[|s| - 1 - n / 8], n % 8)
  }

  predicate Succeeds(r: Ref, op: Op) {
    match op
    case Set(n, mem) => n <= BITMAP_MAX && (mem || n / 32 < r.words)
    case Load(s, mem) => |s| <= BITMAP_MAX / 8 && (mem || |s| * 8 / 32 < r.words)
    case _ => true
  }

  function Apply(r: Ref, op: Op): Ref {
    if !Succeeds(r, op) then r
    else match op
      case Set(n, _) => Ref(r.members + {n}, Grown(r.words, n))
      case Clear(n) => Ref(r.members - {n}, r.words)
      case Empty => Ref({}, r.words)
      case Load(s, _) => Ref(Decoded(s), Grown(r.words, |s| * 8))
  }

  function After(ops: seq<Op>): Ref {
    if ops == [] then Ref({}, 1) else Apply(After(ops[..|ops| - 1]), ops[|ops| - 1])
  }

  ghost predicate Holds(b: Bitmap, r: Ref)
    reads b, b.d
  {
    b.Valid() && b.d.Length == r.words && forall n: nat :: Has(b.d[..], n) <==> n in r.members
  }

  /** One operation on the bitmap. */
  method Perform(b: Bitmap, op: Op, ghost r: Ref) returns (ok: bool)
    requires Holds(b, r)
    modifies b, b.d
    ensures Holds(b, Apply(r, op)) && ok == Succeeds(r, op)
    ensures b.d == old(b.d) || fresh(b.d)
  {
    ok := true;
    match op {
      case Set(n, mem) => ok := b.SetBit(n, mem);
      case Clear(n) => b.ClearBit(n);
      case Empty => b.Zero();
      case Load(s, mem) => ok := b.FromString(s, mem);
    }
  }

  method Probe(b: Bitmap, probes: seq<nat>, ghost r: Ref) returns (answers: seq<bool>)
    requires Holds(b, r)
    ensures |answers| == |probes| && forall k :: 0 <= k < |probes| ==> answers[k] == (probes[k] in r.members)
  {
    answers := [];
    for k := 0 to |probes|
      invariant |answers| == k && forall j :: 0 <= j < k ==> answers[j] == (probes[j] in r.members)
    {
      var a := b.TestBit(probes[k]);
      answers := answers + [a];
    }
  }

  /** Any sequence of operations, with or without memory, leaves exactly the reference set: each
      operation reports success as the reference does and every later bitmap_test_bit agrees. */
  method Replay(ops: seq<Op>, probes: seq<nat>) returns (b: Bitmap, oks: seq<bool>, answers: seq<bool>)
    ensures Holds(b, After(ops))
    ensures |oks| == |ops| && forall i :: 0 <= i < |ops| ==> oks[i] == Succeeds(After(ops[..i]), ops[i])
    ensures |answers| == |probes| && forall k :: 0 <= k < |probes| ==> answers[k] == (probes[k] in After(ops).members)
  {
    b := new Bitmap();
    oks := [];
    for i := 0 to |ops|
      invariant fresh(b) && fresh(b.d) && Holds(b, After(ops[..i]))
      invariant |oks| == i && forall j :: 0 <= j < i ==> oks[j] == Succeeds(After(ops[..j]), ops[j])
    {
      assert ops[..i + 1][..i] == ops[..i];
      var ok := Perform(b, ops[i], After(ops[..i]));
      oks := oks + [ok];
    }
    assert ops[..|ops|] == ops;
    answers := Probe(b, probes, After(ops));
  }

  /** Bit 2^24 can be set and written out, but what is written is refused on the way back. */
  method LastBitIsRefused() returns (set_ok: bool, written: bool, read: bool)
    ensures set_ok && written && !read
  {
    var b := new Bitmap();
    set_ok := b.SetBit(BITMAP_MAX, true);
    assert Has(b.d[..], BITMAP_MAX);
    var l := BITMAP_MAX / 8 + 1;
    var s := new byte[l](_ => 0);
    written := b.ToString(s, l);
    HighestMember(b.d[..], b.top);
    EncodingFits(b.d[..], b.top);
    assert NBytes(b.d[..], b.top) == l;
    var c := new Bitmap();
    read := c.FromString(s[..l], true);
  }

  /** The octets of s from position `lo` up, counted from the end, are in the words. */
  ghost predicate DecodesFrom(d: seq<nat>, s: seq<byte>, lo: nat) {
    forall n: nat :: Has(d, n) <==> lo <= n / 8 < |s| && Bit(s[|s| - 1 - n / 8], n % 8)
  }

  lemma OctetBound(b: byte, j: nat)
    requires j < 4
    ensures Shl(b, 8 * j) < WORD
  {
    OctetPowers();
    WordIsPow2();
    ShiftLeftBound(b, 8, 8 * j);
    Pow2Monotone(8 + 8 * j, 32);
  }

  /** One round of bitmap_from_string. */
  lemma PlaceOctet(d: seq<nat>, s: seq<byte>, k: nat, o: nat, j: nat)
    requires o < |d| && j < 4 && k == 4 * o + j < |s| && d[o] < WORD && DecodesFrom(d, s, k + 1)
    ensures var w := Or(d[o], Shl(s[|s| - 1 - k], 8 * j)); w < WORD && DecodesFrom(d[o := w], s, k)
  {
    var b := s[|s| - 1 - k];
    var w := Or(d[o], Shl(b, 8 * j));
    OctetBound(b, j);
    WordIsPow2();
    OrBound(d[o], Shl(b, 8 * j), 32);
    forall n: nat
      ensures Has(d[o := w], n) <==> k <= n / 8 < |s| && Bit(s[|s| - 1 - n / 8], n % 8)
    {
      if n / 32 == o {
        OrBit(d[o], Shl(b, 8 * j), n % 32);
        ShiftLeftBit(b, 8 * j, n % 32);
        if n % 32 >= 8 * j + 8 {
          OctetPowers();
          HighBits(b, 8, n % 32 - 8 * j);
        }
      }
      assert Has(d, n) <==> k + 1 <= n / 8 < |s| && Bit(s[|s| - 1 - n / 8], n % 8);
    }
  }

  lemma DecodedIsSmall(d: seq<nat>, s: seq<byte>)
    requires Decodes(d, s) && |s| <= BITMAP_MAX / 8
    ensures forall n: nat :: Has(d, n) ==> n <= BITMAP_MAX
  {
  }

  lemma WrittenIsEncoding(d: seq<nat>, top: nat, w: seq<nat>, s: seq<byte>)
    requires top < |d| && w == d[..top + 1] && |s| == NBytes(d, top) <= 4 * (top + 1)
    requires forall q :: 0 <= q < |s| ==> s[|s| - 1 - q] == OctetAt(w, q)
    ensures s == Encoding(d, top)
  {
    forall i | 0 <= i < |s| ensures s[i] == Encoding(d, top)[i] {
      var q := |s| - 1 - i;
      assert q / 4 <= top;
      assert s[|s| - 1 - q] == OctetAt(w, q) == OctetAt(d, q);
      assert Encoding(d, top)[i] == OctetAt(d, q);
    }
  }

  lemma TopBitClear(w: nat)
    requires 0 < w < WORD && !Bit(w, 31)
    ensures 2 * w < WORD && BitLen(2 * w) == BitLen(w) + 1 && BitLen(w) < 32
  {
    WordIsPow2();
    BitLenBound(w, 32);
    NonZeroHasBit(w);
    assert BitLen(w) < 32;
    BitLenBound(w, 31);
    assert (2 * w) / 2 == w;
  }

  lemma TopBitSet(w: nat)
    requires w < WORD && Bit(w, 31)
    ensures BitLen(w) == 32
  {
    WordIsPow2();
    BitLenBound(w, 32);
    BitLenBound(w, 31);
    if w < Pow2(31) { HighBits(w, 31, 31); }
  }
}
