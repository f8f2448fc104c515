/**
 * chacha.c: the stream cipher built on the ChaCha block function. The block function itself (the
 * twenty rounds) is a parameter `core` from sixteen words to 64 octets.
 */
module ChaCha {
  import opened Octets
  import opened Bits
  import opened Wire

  const MOD32: nat := 0x1_0000_0000
  const MOD64: nat := 0x1_0000_0000_0000_0000

  /** "expand 32-byte k" and "expand 16-byte k". */
  const SIGMA: seq<byte> := [101, 120, 112, 97, 110, 100, 32, 51, 50, 45, 98, 121, 116, 101, 32, 107]
  const TAU: seq<byte> := [101, 120, 112, 97, 110, 100, 32, 49, 54, 45, 98, 121, 116, 101, 32, 107]

  type Core = seq<nat> -> seq<byte>

  ghost predicate IsCore(core: Core) { forall w :: |core(w)| == 64 }

  predicate IsInput(w: seq<nat>) { |w| == 16 && w[12] < MOD32 && w[13] < MOD32 }

  /** U8TO32_LITTLE and its generalisation. */
  function GetLE(s: seq<byte>): nat {
    if s == [] then 0 else s[0] + 256 * GetLE(s[1..])
  }

  lemma {:induction false} GetLEInjective(s: seq<byte>, t: seq<byte>)
    requires |s| == |t| && GetLE(s) == GetLE(t)
    ensures s == t
  {
    if s != [] {
      GetLEInjective(s[1..], t[1..]);
      assert s == [s[0]] + s[1..] && t == [t[0]] + t[1..];
    }
  }

  lemma {:induction false} GetLEBound(s: seq<byte>)
    ensures GetLE(s) < Pow256(|s|)
  {
    if s != [] { GetLEBound(s[1..]); }
  }

  lemma {:induction false} XorByteBound(a: nat, b: nat, n: nat)
    requires a < Pow2(n) && b < Pow2(n)
    ensures Xor(a, b) < Pow2(n)
    decreases n
  {
    if n > 0 { XorByteBound(a / 2, b / 2, n - 1); }
  }

  lemma {:induction false} XorTwice(a: nat, b: nat)
    ensures Xor(Xor(a, b), b) == a
    decreases a + b
  {
    if a > 0 || b > 0 {
      XorTwice(a / 2, b / 2);
      var x := Xor(a, b);
      assert x / 2 == Xor(a / 2, b / 2);
      if x == 0 && b == 0 {
        assert Xor(Xor(a / 2, b / 2), b / 2) == 0;
      }
    }
  }

  function XorByte(a: byte, b: byte): byte {
    assert Xor(a, b) < 256 by {
      assert Pow2(8) == 256;
      XorByteBound(a, b, 8);
    }
    Xor(a, b)
  }

  // ---- the key stream

  /** The 64-bit block counter kept in two words. */
  function Counter(w: seq<nat>): nat
    requires IsInput(w)
  {
    w[12] + MOD32 * w[13]
  }

  function AtCounter(w: seq<nat>, n: nat): seq<nat>
    requires IsInput(w)
  {
    w[12 := n % MOD32][13 := (n / MOD32) % MOD32]
  }

  /** Octet k of the key stream that starts at the counter of w. */
  function KeyOctet(core: Core, w: seq<nat>, k: nat): byte
    requires IsCore(core) && IsInput(w)
  {
    core(AtCounter(w, Counter(w) + k / 64))[k % 64]
  }

  function Crypted(core: Core, w: seq<nat>, m: seq<byte>): (c: seq<byte>)
    requires IsCore(core) && IsInput(w)
    ensures |c| == |m|
  {
    seq(|m|, k requires 0 <= k < |m| => XorByte(m[k], KeyOctet(core, w, k)))
  }

  lemma CryptedTwice(core: Core, w: seq<nat>, m: seq<byte>)
    requires IsCore(core) && IsInput(w)
    ensures Crypted(core, w, Crypted(core, w, m)) == m
  {
    var (c, p) := (Crypted(core, w, m), Crypted(core, w, Crypted(core, w, m)));
    forall k | 0 <= k < |m| ensures p[k] == m[k] {
      XorTwice(m[k], KeyOctet(core, w, k));
    }
  }

  /** Encryption of a prefix is the prefix of the encryption. */
  lemma CryptedPrefix(core: Core, w: seq<nat>, m: seq<byte>, n: nat)
    requires IsCore(core) && IsInput(w) && n <= |m|
    ensures Crypted(core, w, m)[..n] == Crypted(core, w, m[..n])
  {
  }

  /** The counter update of the loop: the second word takes the carry. */
  function Advance(w: seq<nat>): seq<nat>
    requires IsInput(w)
  {
    var j12 := (w[12] + 1) % MOD32;
    var j13 := if j12 == 0 then (w[13] + 1) % MOD32 else w[13];
    w[12 := j12][13 := j13]
  }

  /** The carry makes the two words one 64-bit counter. */
  lemma AdvanceCounts(w: seq<nat>, n: nat)
    requires IsInput(w)
    ensures Advance(AtCounter(w, n)) == AtCounter(w, n + 1)
  {
    var (a, b) := (n % MOD32, n / MOD32);
    assert n == a + MOD32 * b;
    if a + 1 < MOD32 {
      assert (n + 1) % MOD32 == a + 1 && (n + 1) / MOD32 == b;
    } else {
      assert (n + 1) % MOD32 == 0 && (n + 1) / MOD32 == b + 1;
    }
  }

  lemma AtOwnCounter(w: seq<nat>)
    requires IsInput(w)
    ensures AtCounter(w, Counter(w)) == w
  {
    assert Counter(w) % MOD32 == w[12] && Counter(w) / MOD32 == w[13];
  }

  class Chacha {
    const core: Core
    var input: seq<nat>

    ghost predicate Valid() reads this { IsCore(core) && IsInput(input) }

    constructor (core: Core)
      requires IsCore(core)
      ensures Valid() && this.core == core
    {
      this.core := core;
      input := [0, 0, 0, 0, 0, 0, 0, 0, 0, 0, 0, 0, 0, 0, 0, 0];
    }

    /** chacha_keysetup: a 256-bit key fills eight words, a 128-bit key is used twice. */
    method KeySetup(k: seq<byte>, kbits: nat)
      requires Valid() && |k| >= if kbits == 256 then 32 else 16
      modifies this`input
      ensures Valid()
      ensures input ==
        KeyWords(if kbits == 256 then SIGMA else TAU, k, if kbits == 256 then 16 else 0) + old(input)[12..]
    {
      if kbits == 256 {
        LoadKey(SIGMA, k, 16);
      } else {
        LoadKey(TAU, k, 0);
      }
    }

    method LoadKey(constants: seq<byte>, k: seq<byte>, at: nat)
      requires Valid() && |constants| == 16 && at + 16 <= |k|
      modifies this`input
      ensures Valid() && input == KeyWords(constants, k, at) + old(input)[12..]
    {
      input := input[4 := Word(k, 0)][5 := Word(k, 4)][6 := Word(k, 8)][7 := Word(k, 12)];
      input := input[8 := Word(k, at)][9 := Word(k, at + 4)][10 := Word(k, at + 8)][11 := Word(k, at + 12)];
      input := input[0 := Word(constants, 0)][1 := Word(constants, 4)][2 := Word(constants, 8)][3 := Word(constants, 12)];
    }

    /** chacha_ivsetup. */
    method IvSetup(iv: seq<byte>, counter: Option<seq<byte>>)
      requires Valid() && |iv| == 8 && (counter.Some? ==> |counter.value| == 8)
      modifies this`input
      ensures Valid()
      ensures input == WithNonce(old(input), iv, if counter == None then 0 else GetLE(counter.value))
    {
      ghost var n := if counter == None then 0 else GetLE(counter.value);
      if counter == None {
        input := input[12 := 0][13 := 0];
      } else {
        LEHalves(counter.value);
        input := input[12 := GetLE(counter.value[..4])][13 := GetLE(counter.value[4..])];
      }
      input := input[14 := GetLE(iv[..4])][15 := GetLE(iv[4..])];
    }

    /** One block of chacha_encrypt_bytes; source and target may be the same place. */
    method CryptBlock(m: array<byte>, mo: nat, c: array<byte>, co: nat, n: nat)
      requires Valid() && n <= 64 && mo + n <= m.Length && co + n <= c.Length && Compatible(m, mo, c, co, n)
      modifies c
      ensures forall i {:trigger core(input)[i]} :: 0 <= i < n ==> c[co + i] == XorByte(old(m[mo + i]), core(input)[i])
      ensures forall i :: 0 <= i < c.Length && !(co <= i < co + n) ==> c[i] == old(c[i])
    {
      var x := core(input);
      for i := 0 to n
        invariant forall k :: 0 <= k < i ==> c[co + k] == XorByte(old(m[mo + k]), x[k])
        invariant forall k :: mo + i <= k < mo + n ==> m[k] == old(m[k])
        invariant forall k :: 0 <= k < c.Length && !(co <= k < co + i) ==> c[k] == old(c[k])
      {
        c[co + i] := XorByte(m[mo + i], x[i]);
      }
    }

    /** The block at octet `pos` of the text. */
    method CryptAt(m: array<byte>, mo: nat, c: array<byte>, co: nat, pos: nat, n: nat,
                   ghost text: seq<byte>, ghost target: seq<byte>)
      requires Valid() && n <= 64 && mo + pos + n <= m.Length && co + pos + n <= c.Length
      requires Compatible(m, mo + pos, c, co + pos, n) && pos + n <= |text| == |target|
      requires forall k :: pos <= k < pos + n ==> m[mo + k] == text[k]
      requires forall k :: pos <= k < pos + n ==> target[k] == XorByte(text[k], core(input)[k - pos])
      modifies c
      ensures forall k :: pos <= k < pos + n ==> c[co + k] == target[k]
      ensures forall k :: 0 <= k < c.Length && !(co + pos <= k < co + pos + n) ==> c[k] == old(c[k])
    {
      CryptBlock(m, mo + pos, c, co + pos, n);
      forall k | pos <= k < pos + n ensures c[co + k] == target[k] {
        assert c[co + pos + (k - pos)] == XorByte(text[k], core(input)[k - pos]);
      }
    }

    /** One turn of the loop of chacha_encrypt_bytes. */
    method NextBlock(m: array<byte>, mo: nat, c: array<byte>, co: nat, pos: nat, n: nat,
                     ghost b: nat, ghost w: seq<nat>, ghost text: seq<byte>)
      requires Valid() && n <= 64 && pos == 64 * b && mo + pos + n <= m.Length && co + pos + n <= c.Length
      requires Compatible(m, mo + pos, c, co + pos, n) && pos + n <= |text|
      requires IsInput(w) && input == AtCounter(w, Counter(w) + b)
      requires forall k :: pos <= k < pos + n ==> m[mo + k] == text[k]
      modifies this`input, c
      ensures Valid() && input == AtCounter(w, Counter(w) + b + 1)
      ensures forall k :: pos <= k < pos + n ==> c[co + k] == Crypted(core, w, text)[k]
      ensures forall k :: 0 <= k < c.Length && !(co + pos <= k < co + pos + n) ==> c[k] == old(c[k])
    {
      BlockOfText(core, w, text, b, n, core(input));
      CryptAt(m, mo, c, co, pos, n, text, Crypted(core, w, text));
      AdvanceCounts(w, Counter(w) + b);
      input := Advance(input);
    }

    /** The loop of chacha_encrypt_bytes: whole blocks, then a last one of at most 64 octets. */
    method CryptBlocks(m: array<byte>, mo: nat, c: array<byte>, co: nat, bytes: nat, ghost text: seq<byte>)
      returns (ghost b: nat)
      requires Valid() && mo + bytes <= m.Length && co + bytes <= c.Length && Compatible(m, mo, c, co, bytes)
      requires bytes > 0 && text == m[mo..mo + bytes]
      modifies this`input, c
      ensures Valid() && 64 * b < bytes <= 64 * b + 64 && input == AtCounter(old(input), Counter(old(input)) + b + 1)
      ensures forall k :: 0 <= k < bytes ==> c[co + k] == Crypted(core, old(input), text)[k]
      ensures forall k :: 0 <= k < c.Length && !(co <= k < co + bytes) ==> c[k] == old(c[k])
    {
      ghost var w := input;
      ghost var target := Crypted(core, w, text);
      AtOwnCounter(w);
      var pos := 0;
      b := 0;
      while bytes - pos > 64
        invariant pos == 64 * b < bytes && Valid() && input == AtCounter(w, Counter(w) + b)
        invariant forall k :: 0 <= k < pos ==> c[co + k] == target[k]
        invariant forall k :: pos <= k < bytes ==> m[mo + k] == text[k]
        invariant forall k :: 0 <= k < c.Length && !(co <= k < co + pos) ==> c[k] == old(c[k])
      {
        NextBlock(m, mo, c, co, pos, 64, b, w, text);
        pos := pos + 64;
        b := b + 1;
      }
      NextBlock(m, mo, c, co, pos, bytes - pos, b, w, text);
    }

    /** chacha_encrypt_bytes. */
    method EncryptBytes(m: array<byte>, mo: nat, c: array<byte>, co: nat, bytes: nat)
      requires Valid() && mo + bytes <= m.Length && co + bytes <= c.Length && Compatible(m, mo, c, co, bytes)
      modifies this`input, c
      ensures Valid() && input == AtCounter(old(input), Counter(old(input)) + (bytes + 63) / 64)
      ensures c[co..co + bytes] == Crypted(core, old(input), old(m[mo..mo + bytes]))
      ensures forall i :: 0 <= i < c.Length && !(co <= i < co + bytes) ==> c[i] == old(c[i])
    {
      if bytes == 0 {
        AtOwnCounter(input);
        return;
      }
      ghost var b := CryptBlocks(m, mo, c, co, bytes, m[mo..mo + bytes]);
      BlocksUsed(bytes, b);
    }
  }

  lemma BlocksUsed(bytes: nat, b: nat)
    requires 64 * b < bytes <= 64 * b + 64
    ensures b + 1 == (bytes + 63) / 64
  {
  }

  /** The two ranges are the same place or do not overlap. */
  predicate Compatible(m: array<byte>, mo: nat, c: array<byte>, co: nat, n: nat) {
    m != c || mo == co || mo + n <= co || co + n <= mo
  }

  /** Block b of the text is encrypted with block b of the key stream. */
  lemma BlockOfText(core: Core, w: seq<nat>, m: seq<byte>, b: nat, n: nat, x: seq<byte>)
    requires IsCore(core) && IsInput(w) && n <= 64 && 64 * b + n <= |m|
    requires x == core(AtCounter(w, Counter(w) + b))
    ensures forall k :: 64 * b <= k < 64 * b + n ==> Crypted(core, w, m)[k] == XorByte(m[k], x[k - 64 * b])
  {
    forall k | 64 * b <= k < 64 * b + n ensures Crypted(core, w, m)[k] == XorByte(m[k], x[k - 64 * b]) {
      assert k / 64 == b && k % 64 == k - 64 * b;
    }
  }

  /** The twelve words that depend on the key only. */
  function KeyWords(constants: seq<byte>, k: seq<byte>, at: nat): (w: seq<nat>)
    requires |constants| == 16 && at + 16 <= |k|
    ensures |w| == 12
  {
    [Word(constants, 0), Word(constants, 4), Word(constants, 8), Word(constants, 12),
     Word(k, 0), Word(k, 4), Word(k, 8), Word(k, 12),
     Word(k, at), Word(k, at + 4), Word(k, at + 8), Word(k, at + 12)]
  }

  function Word(s: seq<byte>, at: nat): nat
    requires at + 4 <= |s|
  {
    GetLE(s[at..at + 4])
  }

  function WithNonce(w: seq<nat>, iv: seq<byte>, n: nat): seq<nat>
    requires IsInput(w) && |iv| == 8
  {
    AtCounter(w, n)[14 := GetLE(iv[..4])][15 := GetLE(iv[4..])]
  }

  lemma LEHalves(s: seq<byte>)
    requires |s| == 8
    ensures GetLE(s) % MOD32 == GetLE(s[..4]) && (GetLE(s) / MOD32) % MOD32 == GetLE(s[4..])
  {
    var (a, b) := (s[..4], s[4..]);
    LEAppend(a, b);
    assert s == a + b;
    GetLEBound(a);
    GetLEBound(b);
    Powers();
    Halves(GetLE(s), GetLE(a), GetLE(b));
  }

  lemma Halves(x: nat, lo: nat, hi: nat)
    requires x == lo + MOD32 * hi && lo < MOD32 && hi < MOD32
    ensures x % MOD32 == lo && (x / MOD32) % MOD32 == hi
  {
  }

  lemma {:induction false} LEAppend(a: seq<byte>, b: seq<byte>)
    ensures GetLE(a + b) == GetLE(a) + Pow256(|a|) * GetLE(b)
  {
    if a == [] {
      assert a + b == b;
    } else {
      LEAppend(a[1..], b);
      assert (a + b)[1..] == a[1..] + b;
      assert 256 * (Pow256(|a| - 1) * GetLE(b)) == Pow256(|a|) * GetLE(b);
    }
  }
}
