/**
 * cipher-chachapoly.c: the packet cipher. Poly1305 is a parameter `mac` from a message and a
 * one-time key to a 16-octet tag.
 */
module ChaChaPoly {
  import opened Octets
  import opened Wire
  import opened ChaCha

  const TAGLEN: nat := 16

  type Mac = (seq<byte>, seq<byte>) -> seq<byte>

  ghost predicate IsMac(mac: Mac) { forall m, k :: |mac(m, k)| == TAGLEN }

  /** The block function and the authenticator, and the words of the main and the header key. */
  datatype Cipher = Cipher(core: Core, mac: Mac, main: seq<nat>, header: seq<nat>)

  ghost predicate IsCipher(x: Cipher) { IsCore(x.core) && IsMac(x.mac) && |x.main| == |x.header| == 12 }

  /** The input of block n for a packet: the key, the counter, and the sequence number as nonce. */
  function BlockInput(key: seq<nat>, seqnr: nat, n: nat): (w: seq<nat>)
    requires |key| == 12
    ensures IsInput(w)
  {
    key + [n % MOD32, (n / MOD32) % MOD32, GetLE(U64(seqnr)[..4]), GetLE(U64(seqnr)[4..])]
  }

  function Zeros(): seq<byte> { seq(32, i => 0) }

  /** The Poly1305 key of a packet: the first half of block 0. */
  function PolyKey(x: Cipher, seqnr: nat): seq<byte>
    requires IsCipher(x)
  {
    Crypted(x.core, BlockInput(x.main, seqnr, 0), Zeros())
  }

  /** Header octets under the header key from block 0, the rest under the main key from block 1. */
  function Body(x: Cipher, seqnr: nat, aad: nat, p: seq<byte>): (c: seq<byte>)
    requires IsCipher(x) && aad <= |p|
    ensures |c| == |p|
  {
    Crypted(x.core, BlockInput(x.header, seqnr, 0), p[..aad]) + Crypted(x.core, BlockInput(x.main, seqnr, 1), p[aad..])
  }

  function Sealed(x: Cipher, seqnr: nat, aad: nat, p: seq<byte>): seq<byte>
    requires IsCipher(x) && aad <= |p|
  {
    var c := Body(x, seqnr, aad, p);
    c + x.mac(c, PolyKey(x, seqnr))
  }

  function Opened(x: Cipher, seqnr: nat, aad: nat, s: seq<byte>): Option<seq<byte>>
    requires IsCipher(x) && aad + TAGLEN <= |s|
  {
    var c := s[..|s| - TAGLEN];
    if x.mac(c, PolyKey(x, seqnr)) != s[|s| - TAGLEN..] then None
    else Some(Body(x, seqnr, aad, c))
  }

  lemma BodyTwice(x: Cipher, seqnr: nat, aad: nat, p: seq<byte>)
    requires IsCipher(x) && aad <= |p|
    ensures Body(x, seqnr, aad, Body(x, seqnr, aad, p)) == p
  {
    var c := Body(x, seqnr, aad, p);
    CryptedTwice(x.core, BlockInput(x.header, seqnr, 0), p[..aad]);
    CryptedTwice(x.core, BlockInput(x.main, seqnr, 1), p[aad..]);
    assert c[..aad] == Crypted(x.core, BlockInput(x.header, seqnr, 0), p[..aad]);
    assert c[aad..] == Crypted(x.core, BlockInput(x.main, seqnr, 1), p[aad..]);
    assert p == p[..aad] + p[aad..];
  }

  /** A packet opens to p exactly if it is the sealing of p. */
  lemma OpenInvertsSeal(x: Cipher, seqnr: nat, aad: nat, s: seq<byte>, p: seq<byte>)
    requires IsCipher(x) && aad + TAGLEN <= |s| && aad <= |p|
    ensures Opened(x, seqnr, aad, s) == Some(p) <==> s == Sealed(x, seqnr, aad, p)
  {
    var n := |s| - TAGLEN;
    assert s == s[..n] + s[n..];
    BodyTwice(x, seqnr, aad, s[..n]);
    BodyTwice(x, seqnr, aad, p);
    var c := Body(x, seqnr, aad, p);
    var t := Sealed(x, seqnr, aad, p);
    assert t[..|p|] == c && t[|p|..] == x.mac(c, PolyKey(x, seqnr));
  }

  /** chachapoly_get_length. */
  function LengthOf(x: Cipher, seqnr: nat, s: seq<byte>): Option<nat>
    requires IsCipher(x)
  {
    if |s| < 4 then None else Some(GetBE(Crypted(x.core, BlockInput(x.header, seqnr, 0), s[..4])))
  }

  /** The length read ahead of opening is the one in the packet's first four octets. */
  lemma LengthAgrees(x: Cipher, seqnr: nat, aad: nat, p: seq<byte>)
    requires IsCipher(x) && 4 <= aad <= |p|
    ensures LengthOf(x, seqnr, Sealed(x, seqnr, aad, p)) == Some(GetBE(p[..4]))
  {
    var w := BlockInput(x.header, seqnr, 0);
    var s := Sealed(x, seqnr, aad, p);
    CryptedPrefix(x.core, w, p[..aad], 4);
    assert s[..4] == Crypted(x.core, w, p[..aad])[..4];
    assert p[..aad][..4] == p[..4];
    CryptedTwice(x.core, w, p[..4]);
  }

  // ---- the key stream blocks of a packet

  lemma BlockAt(key: seq<nat>, seqnr: nat, first: nat, j: nat)
    requires |key| == 12 && first < MOD32
    ensures AtCounter(BlockInput(key, seqnr, first), Counter(BlockInput(key, seqnr, first)) + j)
         == BlockInput(key, seqnr, first + j)
  {
    assert Counter(BlockInput(key, seqnr, first)) == first;
  }

  /** Octet k of a text encrypted from block `first` on is masked by block first + k / 64. */
  lemma CryptedBlock(core: Core, key: seq<nat>, seqnr: nat, first: nat, m: seq<byte>, k: nat)
    requires IsCore(core) && |key| == 12 && first < MOD32 && k < |m|
    ensures Crypted(core, BlockInput(key, seqnr, first), m)[k] ==
      XorByte(m[k], core(BlockInput(key, seqnr, first + k / 64))[k % 64])
  {
    BlockAt(key, seqnr, first, k / 64);
  }

  /** The inputs of the blocks that mask n octets from block `first` on. */
  ghost function Blocks(key: seq<nat>, seqnr: nat, first: nat, n: nat): set<seq<nat>>
    requires |key| == 12
  {
    set k: nat | k < n :: BlockInput(key, seqnr, first + k / 64)
  }

  /** The blocks of a packet: its Poly1305 key, its header, its text. */
  ghost function KeyBlocks(x: Cipher, seqnr: nat): set<seq<nat>>
    requires IsCipher(x)
  {
    Blocks(x.main, seqnr, 0, 32)
  }

  ghost function HeaderBlocks(x: Cipher, seqnr: nat, aad: nat): set<seq<nat>>
    requires IsCipher(x)
  {
    Blocks(x.header, seqnr, 0, aad)
  }

  ghost function TextBlocks(x: Cipher, seqnr: nat, len: nat): set<seq<nat>>
    requires IsCipher(x)
  {
    Blocks(x.main, seqnr, 1, len)
  }

  /** Encryption depends on the block function only at these inputs. */
  lemma CryptedDepends(core: Core, core': Core, key: seq<nat>, seqnr: nat, first: nat, m: seq<byte>)
    requires IsCore(core) && IsCore(core') && |key| == 12 && first < MOD32
    requires forall w :: w in Blocks(key, seqnr, first, |m|) ==> core(w) == core'(w)
    ensures Crypted(core, BlockInput(key, seqnr, first), m) == Crypted(core', BlockInput(key, seqnr, first), m)
  {
    var w0 := BlockInput(key, seqnr, first);
    forall k | 0 <= k < |m| ensures Crypted(core, w0, m)[k] == Crypted(core', w0, m)[k] {
      CryptedBlock(core, key, seqnr, first, m, k);
      CryptedBlock(core', key, seqnr, first, m, k);
      assert BlockInput(key, seqnr, first + k / 64) in Blocks(key, seqnr, first, |m|);
    }
  }

  /** A packet is made from its own blocks and no others. */
  lemma PacketDepends(x: Cipher, core': Core, seqnr: nat, aad: nat, p: seq<byte>)
    requires IsCipher(x) && IsCore(core') && aad <= |p|
    ensures (forall w :: w in KeyBlocks(x, seqnr) ==> x.core(w) == core'(w)) ==>
      PolyKey(x.(core := core'), seqnr) == PolyKey(x, seqnr)
    ensures (forall w :: w in HeaderBlocks(x, seqnr, aad) + TextBlocks(x, seqnr, |p| - aad) ==> x.core(w) == core'(w)) ==>
      Body(x.(core := core'), seqnr, aad, p) == Body(x, seqnr, aad, p)
  {
    if forall w :: w in KeyBlocks(x, seqnr) ==> x.core(w) == core'(w) {
      CryptedDepends(x.core, core', x.main, seqnr, 0, Zeros());
    }
    if forall w :: w in HeaderBlocks(x, seqnr, aad) + TextBlocks(x, seqnr, |p| - aad) ==> x.core(w) == core'(w) {
      CryptedDepends(x.core, core', x.header, seqnr, 0, p[..aad]);
      CryptedDepends(x.core, core', x.main, seqnr, 1, p[aad..]);
    }
  }

  /** Each octet of a packet, and the block octet that masks it. */
  lemma PacketOctets(x: Cipher, seqnr: nat, aad: nat, p: seq<byte>, k: nat)
    requires IsCipher(x) && aad <= |p|
    ensures k < 32 ==> PolyKey(x, seqnr)[k] == XorByte(0, x.core(BlockInput(x.main, seqnr, 0))[k])
    ensures k < aad ==>
      Body(x, seqnr, aad, p)[k] == XorByte(p[k], x.core(BlockInput(x.header, seqnr, k / 64))[k % 64])
    ensures k < |p| - aad ==>
      Body(x, seqnr, aad, p)[aad + k] == XorByte(p[aad + k], x.core(BlockInput(x.main, seqnr, 1 + k / 64))[k % 64])
  {
    if k < 32 { CryptedBlock(x.core, x.main, seqnr, 0, Zeros(), k); }
    if k < aad { CryptedBlock(x.core, x.header, seqnr, 0, p[..aad], k); }
    if k < |p| - aad { CryptedBlock(x.core, x.main, seqnr, 1, p[aad..], k); }
  }

  /** Key, sequence number and block number are recovered from a block input. */
  lemma BlockInputInjective(key: seq<nat>, seqnr: nat, n: nat, key': seq<nat>, seqnr': nat, n': nat)
    requires |key| == |key'| == 12 && seqnr < MOD32 && seqnr' < MOD32 && n < MOD64 && n' < MOD64
    requires BlockInput(key, seqnr, n) == BlockInput(key', seqnr', n')
    ensures key == key' && seqnr == seqnr' && n == n'
  {
    var (w, w') := (BlockInput(key, seqnr, n), BlockInput(key', seqnr', n'));
    assert w[12] == w'[12] && w[13] == w'[13] && w[14] == w'[14] && w[15] == w'[15];
    assert w[..12] == key && w'[..12] == key';
    var (a, b) := (U64(seqnr), U64(seqnr'));
    GetLEInjective(a[..4], b[..4]);
    GetLEInjective(a[4..], b[4..]);
    assert a == a[..4] + a[4..] && b == b[..4] + b[4..];
    Powers();
    GetPutBE(seqnr, 8);
    GetPutBE(seqnr', 8);
  }

  lemma BlocksDisjoint(key: seq<nat>, seqnr: nat, first: nat, n: nat, key': seq<nat>, seqnr': nat, first': nat, n': nat)
    requires |key| == |key'| == 12 && seqnr < MOD32 && seqnr' < MOD32 && n <= MOD32 && n' <= MOD32
    requires first < MOD32 && first' < MOD32
    requires key != key' || seqnr != seqnr' || (n <= 64 && first < first')
    ensures Blocks(key, seqnr, first, n) !! Blocks(key', seqnr', first', n')
  {
    var (a, b) := (Blocks(key, seqnr, first, n), Blocks(key', seqnr', first', n'));
    forall w | w in a ensures w !in b {
      if w in b {
        var k := BlockNumber(w, key, seqnr, first, n);
        var k' := BlockNumber(w, key', seqnr', first', n');
        BlockInputInjective(key, seqnr, first + k / 64, key', seqnr', first' + k' / 64);
      }
    }
  }

  lemma BlockNumber(w: seq<nat>, key: seq<nat>, seqnr: nat, first: nat, n: nat) returns (k: nat)
    requires |key| == 12 && w in Blocks(key, seqnr, first, n)
    ensures k < n && w == BlockInput(key, seqnr, first + k / 64)
  {
    k :| k < n && w == BlockInput(key, seqnr, first + k / 64);
  }

  /** No block is used twice: within a packet the Poly1305 key and the text use different blocks,
      packets of distinct sequence numbers share none, and within a packet the header shares none
      if the two keys differ. */
  lemma BlocksNeverMeet(x: Cipher, seqnr: nat, aad: nat, len: nat, seqnr': nat, aad': nat, len': nat)
    requires IsCipher(x) && seqnr < MOD32 && seqnr' < MOD32
    requires aad < MOD32 && len < MOD32 && aad' < MOD32 && len' < MOD32
    ensures KeyBlocks(x, seqnr) !! TextBlocks(x, seqnr', len')
    ensures seqnr != seqnr' ==>
      && KeyBlocks(x, seqnr) !! KeyBlocks(x, seqnr') && TextBlocks(x, seqnr, len) !! TextBlocks(x, seqnr', len')
      && HeaderBlocks(x, seqnr, aad) !! HeaderBlocks(x, seqnr', aad')
    ensures seqnr != seqnr' || x.main != x.header ==>
      HeaderBlocks(x, seqnr, aad) !! KeyBlocks(x, seqnr') + TextBlocks(x, seqnr', len')
  {
    BlocksDisjoint(x.main, seqnr, 0, 32, x.main, seqnr', 1, len');
    if seqnr != seqnr' {
      BlocksDisjoint(x.main, seqnr, 0, 32, x.main, seqnr', 0, 32);
      BlocksDisjoint(x.main, seqnr, 1, len, x.main, seqnr', 1, len');
      BlocksDisjoint(x.header, seqnr, 0, aad, x.header, seqnr', 0, aad');
    }
    if seqnr != seqnr' || x.main != x.header {
      BlocksDisjoint(x.header, seqnr, 0, aad, x.main, seqnr', 0, 32);
      BlocksDisjoint(x.header, seqnr, 0, aad, x.main, seqnr', 1, len');
    }
  }

  /** With equal keys a header does reuse the block of its own Poly1305 key. */
  lemma EqualKeysMeet(x: Cipher, seqnr: nat, aad: nat)
    requires IsCipher(x) && x.main == x.header && aad > 0
    ensures BlockInput(x.main, seqnr, 0) in HeaderBlocks(x, seqnr, aad) * KeyBlocks(x, seqnr)
  {
    var k: nat := 0;
    assert BlockInput(x.main, seqnr, 0 + k / 64) in KeyBlocks(x, seqnr);
    assert BlockInput(x.header, seqnr, 0 + k / 64) in HeaderBlocks(x, seqnr, aad);
  }

  /** Two octets of one text are never masked by the same block octet. */
  lemma TextOctetsDiffer(x: Cipher, seqnr: nat, k: nat, l: nat)
    requires IsCipher(x) && seqnr < MOD32 && k < l < MOD32
    ensures BlockInput(x.main, seqnr, 1 + k / 64) != BlockInput(x.main, seqnr, 1 + l / 64) || k % 64 != l % 64
  {
    if BlockInput(x.main, seqnr, 1 + k / 64) == BlockInput(x.main, seqnr, 1 + l / 64) {
      BlockInputInjective(x.main, seqnr, 1 + k / 64, x.main, seqnr, 1 + l / 64);
    }
  }

  lemma NonceInput(w: seq<nat>, seqnr: nat, n: nat)
    requires IsInput(w)
    ensures WithNonce(w, U64(seqnr), n) == BlockInput(w[..12], seqnr, n)
  {
  }

  class ChachaPoly {
    const main: Chacha
    const header: Chacha
    const mac: Mac

    ghost predicate Valid()
      reads this, main, header
    {
      main != header && main.Valid() && header.Valid() && main.core == header.core && IsMac(mac)
    }

    ghost function View(): (x: Cipher)
      requires Valid()
      reads this, main, header
      ensures IsCipher(x)
    {
      Cipher(main.core, mac, main.input[..12], header.input[..12])
    }

    constructor (key: seq<byte>, core: Core, mac: Mac)
      requires |key| == 64 && IsCore(core) && IsMac(mac)
      ensures Valid() && fresh(main) && fresh(header)
      ensures View() == Cipher(core, mac, KeyWords(SIGMA, key[..32], 16), KeyWords(SIGMA, key[32..], 16))
    {
      main := new Chacha(core);
      header := new Chacha(core);
      this.mac := mac;
      new;
      main.KeySetup(key[..32], 256);
      header.KeySetup(key[32..], 256);
    }

    /** The one-time key of a packet. */
    method MakePolyKey(seqnr: nat) returns (k: seq<byte>)
      requires Valid()
      modifies main`input
      ensures Valid() && View() == old(View()) && k == PolyKey(View(), seqnr)
    {
      var polyKey := new byte[32](i => 0);
      assert polyKey[0..0 + 32] == Zeros();
      NonceInput(main.input, seqnr, 0);
      main.IvSetup(U64(seqnr), None);
      main.EncryptBytes(polyKey, 0, polyKey, 0, 32);
      k := polyKey[..];
      assert polyKey[0..0 + 32] == polyKey[..];
    }

    /** The header octets under the header key. */
    method CryptHeader(seqnr: nat, dest: array<byte>, src: array<byte>, aad: nat)
      requires Valid() && aad <= src.Length && aad <= dest.Length
      modifies header`input, dest
      ensures Valid() && View() == old(View())
      ensures dest[..aad] == Crypted(View().core, BlockInput(View().header, seqnr, 0), old(src[..aad]))
      ensures forall i :: aad <= i < dest.Length ==> dest[i] == old(dest[i])
    {
      if aad > 0 {
        assert src[0..0 + aad] == src[..aad];
        NonceInput(header.input, seqnr, 0);
        header.IvSetup(U64(seqnr), None);
        header.EncryptBytes(src, 0, dest, 0, aad);
        assert dest[..aad] == dest[0..0 + aad];
      }
    }

    /** The text under the main key, with the block counter set to 1. */
    method CryptText(seqnr: nat, dest: array<byte>, src: array<byte>, len: nat, aad: nat)
      requires Valid() && aad + len <= src.Length && aad + len <= dest.Length
      modifies main`input, dest
      ensures Valid() && View() == old(View())
      ensures dest[aad..aad + len] ==
        Crypted(View().core, BlockInput(View().main, seqnr, 1), old(src[aad..aad + len]))
      ensures forall i :: 0 <= i < dest.Length && !(aad <= i < aad + len) ==> dest[i] == old(dest[i])
    {
      OneIsOne();
      NonceInput(main.input, seqnr, 1);
      main.IvSetup(U64(seqnr), Some([1, 0, 0, 0, 0, 0, 0, 0]));
      main.EncryptBytes(src, aad, dest, aad, len);
    }

    /** Header and text, in that order. */
    method CryptBody(seqnr: nat, dest: array<byte>, src: array<byte>, len: nat, aad: nat)
      requires Valid() && aad + len <= src.Length && aad + len <= dest.Length
      modifies main`input, header`input, dest
      ensures Valid() && View() == old(View())
      ensures dest[..aad + len] == Body(View(), seqnr, aad, old(src[..aad + len]))
      ensures forall i :: aad + len <= i < dest.Length ==> dest[i] == old(dest[i])
    {
      ghost var p := src[..aad + len];
      assert src[..aad] == p[..aad] && src[aad..aad + len] == p[aad..];
      CryptHeader(seqnr, dest, src, aad);
      ghost var head := dest[..aad];
      assert src[aad..aad + len] == p[aad..];
      CryptText(seqnr, dest, src, len, aad);
      assert dest[..aad] == head;
      assert dest[..aad + len] == dest[..aad] + dest[aad..aad + len];
    }

    /** chachapoly_crypt sealing a packet, possibly in place. */
    method Seal(seqnr: nat, dest: array<byte>, src: array<byte>, len: nat, aad: nat)
      requires Valid() && aad + len <= src.Length && aad + len + TAGLEN <= dest.Length
      modifies main`input, header`input, dest
      ensures Valid() && View() == old(View())
      ensures dest[..aad + len + TAGLEN] == Sealed(View(), seqnr, aad, old(src[..aad + len]))
      ensures forall i :: aad + len + TAGLEN <= i < dest.Length ==> dest[i] == old(dest[i])
    {
      var polyKey := MakePolyKey(seqnr);
      CryptBody(seqnr, dest, src, len, aad);
      var n := aad + len;
      var body := dest[..n];
      var tag := mac(body, polyKey);
      for i := 0 to TAGLEN
        invariant dest[..n] == body
        invariant forall k :: 0 <= k < i ==> dest[n + k] == tag[k]
        invariant forall k :: n + TAGLEN <= k < dest.Length ==> dest[k] == old(dest[k])
        modifies dest
      {
        dest[n + i] := tag[i];
      }
      assert dest[..n + TAGLEN] == body + tag;
    }

    /** chachapoly_crypt opening a packet, possibly in place: nothing is written unless the tag
        is right. */
    method Open(seqnr: nat, dest: array<byte>, src: array<byte>, len: nat, aad: nat) returns (ok: bool)
      requires Valid() && aad + len + TAGLEN <= src.Length && aad + len <= dest.Length
      modifies main`input, header`input, dest
      ensures Valid() && View() == old(View())
      ensures match Opened(View(), seqnr, aad, old(src[..aad + len + TAGLEN]))
        case None => !ok && dest[..] == old(dest[..])
        case Some(p) => ok && dest[..aad + len] == p && forall i :: aad + len <= i < dest.Length ==> dest[i] == old(dest[i])
    {
      var n := aad + len;
      ghost var s := src[..n + TAGLEN];
      assert s[..|s| - TAGLEN] == src[..n] && s[|s| - TAGLEN..] == src[n..n + TAGLEN];
      var polyKey := MakePolyKey(seqnr);
      var expected := mac(src[..n], polyKey);
      if expected != src[n..n + TAGLEN] {
        return false;
      }
      CryptBody(seqnr, dest, src, len, aad);
      ok := true;
    }

    /** chachapoly_get_length. */
    method GetLength(seqnr: nat, cp: seq<byte>) returns (plen: Option<nat>)
      requires Valid()
      modifies header`input
      ensures Valid() && View() == old(View()) && plen == LengthOf(View(), seqnr, cp)
    {
      if |cp| < 4 {
        return None;
      }
      var src := new byte[4](i requires 0 <= i < 4 => cp[i]);
      var buf := new byte[4](i => 0);
      assert src[0..0 + 4] == cp[..4];
      NonceInput(header.input, seqnr, 0);
      header.IvSetup(U64(seqnr), None);
      header.EncryptBytes(src, 0, buf, 0, 4);
      assert buf[0..0 + 4] == buf[..];
      plen := Some(GetBE(buf[..]));
    }
  }

  /** chachapoly_new: two 256-bit keys, or nothing. */
  method New(key: seq<byte>, core: Core, mac: Mac) returns (r: ChachaPoly?)
    requires IsCore(core) && IsMac(mac)
    ensures r == null <==> |key| != 64
    ensures r != null ==> r.Valid()
    ensures r != null ==>
      r.View() == Cipher(core, mac, KeyWords(SIGMA, key[..32], 16), KeyWords(SIGMA, key[32..], 16))
  {
    if |key| != 32 + 32 {
      return null;
    }
    r := new ChachaPoly(key, core, mac);
  }

  lemma OneIsOne()
    ensures GetLE([1, 0, 0, 0, 0, 0, 0, 0]) == 1
  {
    ZerosAreZero([0, 0, 0, 0, 0, 0, 0]);
    assert [1, 0, 0, 0, 0, 0, 0, 0][1..] == [0, 0, 0, 0, 0, 0, 0];
  }

  lemma {:induction false} ZerosAreZero(s: seq<byte>)
    requires forall i :: 0 <= i < |s| ==> s[i] == 0
    ensures GetLE(s) == 0
  {
    if s != [] { ZerosAreZero(s[1..]); }
  }
}
