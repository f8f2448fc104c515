/**
 * addr.c: network masks and the arithmetic of 32- and 128-bit addresses kept in 32-bit words.
 * Words are held in host order; the conversions to network order cancel out.
 */
module Addr {
  import opened Octets
  import opened Bits
  import opened Wire

  const WORD: nat := 0x1_0000_0000
  const ALL: nat := 0xffff_ffff

  // ---- one word

  /** The first l bits set. */
  function MaskWord(l: nat): nat
    requires l <= 32
  {
    if l == 0 then 0 else Shl(ALL, 32 - l) % WORD
  }

  lemma {:induction false} ShlIsTimes(w: nat, k: nat)
    ensures Shl(w, k) == w * Pow2(k)
  {
    if k > 0 {
      ShlIsTimes(w, k - 1);
      assert 2 * (w * Pow2(k - 1)) == w * (2 * Pow2(k - 1));
    }
  }

  lemma MaskWordValue(l: nat)
    requires l <= 32
    ensures Pow2(32 - l) <= WORD && MaskWord(l) == WORD - Pow2(32 - l)
  {
    WordIsPow2();
    Pow2Monotone(32 - l, 32);
    ShlIsTimes(ALL, 32 - l);
    MaskArith(Pow2(32 - l));
  }

  lemma MaskArith(p: nat)
    requires 0 < p <= WORD
    ensures (ALL * p) % WORD == WORD - p || (p == WORD && (ALL * p) % WORD == 0)
  {
    assert ALL * p == WORD * (p - 1) + (WORD - p);
  }

  /** w with its low k bits cleared. */
  function Floor(w: nat, k: nat): nat { Shl(Shr(w, k), k) }

  lemma {:induction false} FloorBounds(w: nat, k: nat)
    ensures Floor(w, k) <= w < Floor(w, k) + Pow2(k)
    decreases k
  {
    if k > 0 { FloorBounds(w / 2, k - 1); }
  }

  lemma {:induction false} AndAllOnes(w: nat, n: nat)
    requires w < Pow2(n)
    ensures And(w, Pow2(n) - 1) == w
    decreases n
  {
    if n > 0 {
      AndAllOnes(w / 2, n - 1);
      assert (Pow2(n) - 1) / 2 == Pow2(n - 1) - 1;
    }
  }

  lemma {:induction false} AndMask(w: nat, n: nat, k: nat)
    requires w < Pow2(n) && k <= n
    ensures Pow2(k) <= Pow2(n) && And(w, Pow2(n) - Pow2(k)) == Floor(w, k)
    decreases k
  {
    Pow2Monotone(k, n);
    if k == 0 {
      AndAllOnes(w, n);
    } else {
      AndMask(w / 2, n - 1, k - 1);
      assert (Pow2(n) - Pow2(k)) / 2 == Pow2(n - 1) - Pow2(k - 1);
    }
  }

  lemma {:induction false} OrNothing(w: nat)
    ensures Or(w, 0) == w
  {
    if w > 0 { OrNothing(w / 2); }
  }

  lemma {:induction false} OrOnes(w: nat, k: nat)
    ensures Or(w, Pow2(k) - 1) == Floor(w, k) + Pow2(k) - 1
    decreases k
  {
    if k == 0 {
      OrNothing(w);
    } else {
      OrOnes(w / 2, k - 1);
      assert (Pow2(k) - 1) / 2 == Pow2(k - 1) - 1;
    }
  }

  lemma MaskWordFits(l: nat)
    requires l <= 32
    ensures MaskWord(l) <= ALL
  {
    MaskWordValue(l);
  }

  /** What masking and filling do to one word, as multiples of 2^k. */
  lemma WordFloor(w: nat, l: nat) returns (q: nat)
    requires w < WORD && l <= 32
    ensures var p := Pow2(32 - l); q * p <= w < q * p + p
    ensures And(w, MaskWord(l)) == q * Pow2(32 - l)
    ensures Or(w, ALL - MaskWord(l)) == q * Pow2(32 - l) + Pow2(32 - l) - 1
    ensures MaskWord(l) <= ALL
  {
    var k := 32 - l;
    q := Shr(w, k);
    ShlIsTimes(q, k);
    FloorBounds(w, k);
    MaskWordValue(l);
    WordIsPow2();
    AndMask(w, 32, k);
    OrOnes(w, k);
  }

  // ---- big-endian words

  predicate Words(ws: seq<nat>) { forall i :: 0 <= i < |ws| ==> ws[i] < WORD }

  function Value(ws: seq<nat>): nat {
    if ws == [] then 0 else ws[0] * Pow2(32 * (|ws| - 1)) + Value(ws[1..])
  }

  lemma {:induction false} Pow2Sum(a: nat, b: nat)
    ensures Pow2(a + b) == Pow2(a) * Pow2(b)
  {
    if a > 0 {
      Pow2Sum(a - 1, b);
      assert 2 * (Pow2(a - 1) * Pow2(b)) == (2 * Pow2(a - 1)) * Pow2(b);
    }
  }

  lemma MulMono(a: nat, b: nat, m: nat)
    requires a <= b
    ensures a * m <= b * m
  {
    if a < b { TimesGrows(a, b, m); }
  }

  lemma {:induction false} ValueBound(ws: seq<nat>)
    requires Words(ws)
    ensures Value(ws) < Pow2(32 * |ws|)
  {
    if ws != [] {
      ValueBound(ws[1..]);
      var p := Pow2(32 * (|ws| - 1));
      WordIsPow2();
      Pow2Sum(32, 32 * (|ws| - 1));
      MulMono(ws[0] + 1, WORD, p);
      assert (ws[0] + 1) * p == ws[0] * p + p;
    }
  }

  /** The words of a network mask of length l. */
  function NetWords(n: nat, l: nat): (m: seq<nat>)
    requires l <= 32 * n
    ensures |m| == n
  {
    if n == 0 then []
    else if l >= 32 then [MaskWord(32)] + NetWords(n - 1, l - 32)
    else [MaskWord(l)] + NetWords(n - 1, 0)
  }

  function AndWords(a: seq<nat>, b: seq<nat>): (r: seq<nat>)
    requires |a| == |b|
    ensures |r| == |a|
  {
    if a == [] then [] else [And(a[0], b[0])] + AndWords(a[1..], b[1..])
  }

  function OrWords(a: seq<nat>, b: seq<nat>): (r: seq<nat>)
    requires |a| == |b|
    ensures |r| == |a|
  {
    if a == [] then [] else [Or(a[0], b[0])] + OrWords(a[1..], b[1..])
  }

  lemma {:induction false} AndOne(w: nat)
    ensures And(w, w) == w
  {
    if w > 0 { AndOne(w / 2); }
  }

  lemma {:induction false} OrOne(w: nat)
    ensures Or(w, w) == w
  {
    if w > 0 { OrOne(w / 2); }
  }

  lemma {:induction false} AndSelf(ws: seq<nat>)
    ensures AndWords(ws, ws) == ws
  {
    if ws != [] {
      AndOne(ws[0]);
      AndSelf(ws[1..]);
    }
  }

  lemma {:induction false} OrSelf(ws: seq<nat>)
    ensures OrWords(ws, ws) == ws
  {
    if ws != [] {
      OrOne(ws[0]);
      OrSelf(ws[1..]);
    }
  }

  /** Complement of 32-bit words. */
  function Inverted(a: seq<nat>): (r: seq<nat>)
    requires Words(a)
    ensures |r| == |a|
  {
    if a == [] then [] else [ALL - a[0]] + Inverted(a[1..])
  }

  lemma {:induction false} NetWordsAreWords(n: nat, l: nat)
    requires l <= 32 * n
    ensures Words(NetWords(n, l))
    decreases n
  {
    if n > 0 {
      MaskWordValue(if l >= 32 then 32 else l);
      NetWordsAreWords(n - 1, if l >= 32 then l - 32 else 0);
    }
  }

  ghost predicate IsFloor(v: nat, s: nat, q: nat) { q * s <= v < q * s + s }

  lemma WholeArith(w: nat, s: nat, r: nat, p: nat, qt: nat, v: nat)
    requires p == s * r && IsFloor(v, s, qt)
    ensures IsFloor(w * p + v, s, w * r + qt) && w * p + qt * s == (w * r + qt) * s
  {
    assert w * (s * r) == (w * r) * s;
    assert (w * r + qt) * s == (w * r) * s + qt * s;
  }

  lemma SplitArith(w: nat, b: nat, p: nat, s: nat, q: nat, v: nat)
    requires s == b * p && IsFloor(w, b, q) && v < p
    ensures IsFloor(w * p + v, s, q) && (q * b) * p == q * s && (q * b + b - 1) * p + p == q * s + s
  {
    assert q * (b * p) == (q * b) * p;
    assert (q * b + b) * p == (q * b) * p + b * p;
    assert (q * b + b - 1) * p + p == (q * b + b) * p;
    MulMono(q * b, w, p);
    MulMono(w + 1, q * b + b, p);
    assert (w + 1) * p == w * p + p;
  }

  /** How much of the mask falls on the first word, and on the rest. */
  function Here(l: nat): nat { if l >= 32 then 32 else l }

  function There(l: nat): nat { if l >= 32 then l - 32 else 0 }

  function Masked(ws: seq<nat>, l: nat): nat
    requires l <= 32 * |ws|
  {
    if ws == [] then 0
    else And(ws[0], MaskWord(Here(l))) * Pow2(32 * (|ws| - 1)) + Masked(ws[1..], There(l))
  }

  function Filled(ws: seq<nat>, l: nat): nat
    requires l <= 32 * |ws|
  {
    if ws == [] then 0
    else
      MaskWordFits(Here(l));
      Or(ws[0], ALL - MaskWord(Here(l))) * Pow2(32 * (|ws| - 1)) + Filled(ws[1..], There(l))
  }

  /** Masking and filling word by word. */
  lemma {:induction false} MaskedIsAnd(ws: seq<nat>, l: nat)
    requires l <= 32 * |ws|
    ensures Value(AndWords(ws, NetWords(|ws|, l))) == Masked(ws, l)
  {
    if ws != [] {
      var (net, t) := (NetWords(|ws|, l), ws[1..]);
      MaskedIsAnd(t, There(l));
      assert net[0] == MaskWord(Here(l)) && net[1..] == NetWords(|t|, There(l));
      var a := AndWords(ws, net);
      assert a[0] == And(ws[0], net[0]) && a[1..] == AndWords(t, net[1..]);
    }
  }

  lemma {:induction false} FilledIsOr(ws: seq<nat>, l: nat)
    requires l <= 32 * |ws|
    ensures Words(NetWords(|ws|, l)) && Value(OrWords(ws, Inverted(NetWords(|ws|, l)))) == Filled(ws, l)
  {
    NetWordsAreWords(|ws|, l);
    if ws != [] {
      var (net, t) := (NetWords(|ws|, l), ws[1..]);
      FilledIsOr(t, There(l));
      assert net[0] == MaskWord(Here(l)) && net[1..] == NetWords(|t|, There(l));
      var inv := Inverted(net);
      assert inv[0] == ALL - net[0] && inv[1..] == Inverted(net[1..]);
      var o := OrWords(ws, inv);
      assert o[0] == Or(ws[0], inv[0]) && o[1..] == OrWords(t, inv[1..]);
    }
  }

  lemma Unfold(ws: seq<nat>, l: nat, a: nat, o: nat)
    requires ws != [] && l <= 32 * |ws| && MaskWord(Here(l)) <= ALL
    requires a == And(ws[0], MaskWord(Here(l))) && o == Or(ws[0], ALL - MaskWord(Here(l)))
    ensures var (p, t) := (Pow2(32 * (|ws| - 1)), ws[1..]);
      && Value(ws) == ws[0] * p + Value(t)
      && Masked(ws, l) == a * p + Masked(t, There(l)) && Filled(ws, l) == o * p + Filled(t, There(l))
  {
  }

  /** Masking rounds an address down to a multiple of the block size; filling rounds it up to the
      last address of the block. */
  lemma {:induction false} MaskedValue(ws: seq<nat>, l: nat) returns (q: nat)
    requires Words(ws) && l <= 32 * |ws|
    ensures IsBlock(Value(ws), Masked(ws, l), Filled(ws, l), Pow2(32 * |ws| - l), q)
  {
    if ws == [] {
      q := 0;
    } else if l >= 32 {
      var qt := MaskedValue(ws[1..], l - 32);
      q := WholeCase(ws, l, qt);
    } else {
      q := WordFloor(ws[0], l);
      SplitCase(ws, l, q);
    }
  }

  /** v lies in block q of size s, from m to f. */
  ghost predicate IsBlock(v: nat, m: nat, f: nat, s: nat, q: nat) {
    IsFloor(v, s, q) && m == q * s && f == q * s + s - 1
  }

  lemma WholeCase(ws: seq<nat>, l: nat, qt: nat) returns (q: nat)
    requires ws != [] && Words(ws) && 32 <= l <= 32 * |ws|
    requires IsBlock(Value(ws[1..]), Masked(ws[1..], l - 32), Filled(ws[1..], l - 32), Pow2(32 * |ws| - l), qt)
    ensures IsBlock(Value(ws), Masked(ws, l), Filled(ws, l), Pow2(32 * |ws| - l), q)
  {
    var (t, s, p) := (ws[1..], Pow2(32 * |ws| - l), Pow2(32 * (|ws| - 1)));
    WholeUnfold(ws, l);
    Pow2Sum(32 * |ws| - l, l - 32);
    assert 32 * |ws| - l + (l - 32) == 32 * (|ws| - 1);
    q := WholeBlock(ws[0], s, Pow2(l - 32), p, qt, Value(t), Masked(t, l - 32), Filled(t, l - 32));
  }

  /** A first word inside the prefix is neither masked nor filled. */
  lemma WholeUnfold(ws: seq<nat>, l: nat)
    requires ws != [] && Words(ws) && 32 <= l <= 32 * |ws|
    ensures var (p, t) := (Pow2(32 * (|ws| - 1)), ws[1..]);
      && Value(ws) == ws[0] * p + Value(t)
      && Masked(ws, l) == ws[0] * p + Masked(t, l - 32) && Filled(ws, l) == ws[0] * p + Filled(t, l - 32)
  {
    WholeWord(ws[0]);
    assert Here(l) == 32 && There(l) == l - 32;
    Unfold(ws, l, ws[0], ws[0]);
  }

  lemma WholeBlock(w: nat, s: nat, r: nat, p: nat, qt: nat, v: nat, m: nat, f: nat) returns (q: nat)
    requires p == s * r && IsBlock(v, m, f, s, qt)
    ensures IsBlock(w * p + v, w * p + m, w * p + f, s, q)
  {
    WholeArith(w, s, r, p, qt, v);
    q := w * r + qt;
  }

  lemma SplitCase(ws: seq<nat>, l: nat, q: nat)
    requires ws != [] && Words(ws) && l < 32
    requires MaskWord(l) <= ALL
    requires IsBlock(ws[0], And(ws[0], MaskWord(l)), Or(ws[0], ALL - MaskWord(l)), Pow2(32 - l), q)
    ensures IsBlock(Value(ws), Masked(ws, l), Filled(ws, l), Pow2(32 * |ws| - l), q)
  {
    var (t, a, o) := (ws[1..], And(ws[0], MaskWord(l)), Or(ws[0], ALL - MaskWord(l)));
    Pow2Sum(32 - l, 32 * |t|);
    assert 32 - l + 32 * |t| == 32 * |ws| - l;
    ValueBound(t);
    SplitUnfold(ws, l);
    SplitBlock(ws[0], a, o, Pow2(32 - l), Pow2(32 * |t|), Pow2(32 * |ws| - l), q, Value(t));
  }

  /** A prefix that ends in the first word masks and fills all others. */
  lemma SplitUnfold(ws: seq<nat>, l: nat)
    requires ws != [] && Words(ws) && l < 32 && MaskWord(l) <= ALL
    ensures var p := Pow2(32 * (|ws| - 1));
      && Value(ws) == ws[0] * p + Value(ws[1..]) && Masked(ws, l) == And(ws[0], MaskWord(l)) * p
      && Filled(ws, l) == Or(ws[0], ALL - MaskWord(l)) * p + (p - 1)
  {
    assert Here(l) == l && There(l) == 0;
    NoMask(ws[1..]);
    Unfold(ws, l, And(ws[0], MaskWord(l)), Or(ws[0], ALL - MaskWord(l)));
  }

  lemma SplitBlock(w: nat, a: nat, o: nat, b: nat, p: nat, s: nat, q: nat, v: nat)
    requires s == b * p && IsBlock(w, a, o, b, q) && v < p
    ensures IsBlock(w * p + v, a * p, o * p + (p - 1), s, q)
  {
    SplitArith(w, b, p, s, q, v);
  }

  lemma WholeWord(w: nat)
    requires w < WORD
    ensures MaskWord(32) <= ALL && And(w, MaskWord(32)) == w && Or(w, ALL - MaskWord(32)) == w
  {
    var x := WordFloor(w, 32);
  }

  lemma EmptyWord(w: nat)
    requires w < WORD
    ensures And(w, MaskWord(0)) == 0 && Or(w, ALL - MaskWord(0)) == ALL
  {
    var x := WordFloor(w, 0);
    WordIsPow2();
    assert x == 0 by { if x > 0 { MulMono(1, x, WORD); } }
  }

  lemma FullSum(p: nat)
    ensures 0 * p == 0 && ALL * p + p == WORD * p
  {
  }

  lemma {:induction false} NoMask(ws: seq<nat>)
    requires Words(ws)
    ensures Masked(ws, 0) == 0 && Filled(ws, 0) == Pow2(32 * |ws|) - 1
  {
    if ws != [] {
      NoMask(ws[1..]);
      EmptyWord(ws[0]);
      MaskWordValue(0);
      assert Here(0) == 0 && There(0) == 0;
      Unfold(ws, 0, 0, ALL);
      WordIsPow2();
      Pow2Sum(32, 32 * (|ws| - 1));
      FullSum(Pow2(32 * (|ws| - 1)));
    }
  }

  // ---- the host part

  lemma {:induction false} AndOnes(w: nat, k: nat)
    ensures And(w, Pow2(k) - 1) == w - Floor(w, k)
    decreases k
  {
    if k == 0 {
      AndNothing(w);
    } else {
      AndOnes(w / 2, k - 1);
      assert (Pow2(k) - 1) / 2 == Pow2(k - 1) - 1;
    }
  }

  lemma {:induction false} AndNothing(w: nat)
    ensures And(w, 0) == 0
  {
    if w > 0 { AndNothing(w / 2); }
  }

  lemma HostWord(w: nat, l: nat)
    requires w < WORD && l <= 32
    ensures MaskWord(l) <= ALL && And(w, MaskWord(l)) + And(w, ALL - MaskWord(l)) == w
  {
    var k := 32 - l;
    MaskWordValue(l);
    WordIsPow2();
    AndMask(w, 32, k);
    AndOnes(w, k);
  }

  /** An address is its network part plus its host part. */
  lemma {:induction false} HostPart(ws: seq<nat>, l: nat)
    requires Words(ws) && l <= 32 * |ws|
    ensures Words(NetWords(|ws|, l))
    ensures Masked(ws, l) + Value(AndWords(ws, Inverted(NetWords(|ws|, l)))) == Value(ws)
  {
    NetWordsAreWords(|ws|, l);
    if ws != [] {
      var (net, t) := (NetWords(|ws|, l), ws[1..]);
      HostPart(t, There(l));
      HostWord(ws[0], Here(l));
      assert net[0] == MaskWord(Here(l)) && net[1..] == NetWords(|t|, There(l));
      var inv := Inverted(net);
      assert inv[0] == ALL - net[0] && inv[1..] == Inverted(net[1..]);
      var h := AndWords(ws, inv);
      assert h[0] == And(ws[0], inv[0]) && h[1..] == AndWords(t, inv[1..]);
      HostSum(ws[0], And(ws[0], net[0]), h[0], Pow2(32 * (|ws| - 1)));
    }
  }

  lemma HostSum(w: nat, a: nat, h: nat, p: nat)
    requires a + h == w
    ensures a * p + h * p == w * p
  {
  }

  // ---- order

  /** Octets of the words, most significant first. */
  function Flat(ws: seq<nat>): (s: seq<byte>)
    ensures |s| == 4 * |ws|
  {
    if ws == [] then [] else PutBE(ws[0], 4) + Flat(ws[1..])
  }

  lemma {:induction false} GetBEAppend(a: seq<byte>, b: seq<byte>)
    ensures GetBE(a + b) == GetBE(a) * Pow256(|b|) + GetBE(b)
    decreases |b|
  {
    if b == [] {
      assert a + b == a;
    } else {
      var (init, last) := (b[..|b| - 1], b[|b| - 1]);
      GetBEAppend(a, init);
      LastOctet(a + b);
      LastOctet(b);
      assert (a + b)[..|a + b| - 1] == a + init;
      AppendArith(GetBE(a), Pow256(|b| - 1), GetBE(init), last);
    }
  }

  lemma LastOctet(s: seq<byte>)
    requires s != []
    ensures GetBE(s) == 256 * GetBE(s[..|s| - 1]) + s[|s| - 1]
  {
  }

  lemma AppendArith(x: nat, p: nat, v: nat, d: nat)
    ensures 256 * (x * p + v) + d == x * (256 * p) + (256 * v + d)
  {
  }

  lemma {:induction false} Pow256IsPow2(n: nat)
    ensures Pow256(n) == Pow2(8 * n)
  {
    if n > 0 {
      Pow256IsPow2(n - 1);
      assert Pow2(8) == 256;
      Pow2Sum(8, 8 * (n - 1));
    }
  }

  lemma {:induction false} FlatValue(ws: seq<nat>)
    requires Words(ws)
    ensures GetBE(Flat(ws)) == Value(ws)
  {
    if ws != [] {
      FlatValue(ws[1..]);
      GetBEAppend(PutBE(ws[0], 4), Flat(ws[1..]));
      WordIsPow2();
      Pow256IsPow2(4);
      GetPutBE(ws[0], 4);
      Pow256IsPow2(4 * (|ws| - 1));
    }
  }

  /** The first difference of two octet strings from position i on. */
  function FirstDiff(s: seq<byte>, t: seq<byte>, i: nat): int
    requires |s| == |t| && i <= |s|
    decreases |s| - i
  {
    if i == |s| then 0 else if s[i] != t[i] then s[i] - t[i] else FirstDiff(s, t, i + 1)
  }

  lemma {:induction false} SmallerAt(s: seq<byte>, t: seq<byte>, i: nat)
    requires |s| == |t| && i < |s| && s[..i] == t[..i] && s[i] < t[i]
    ensures GetBE(s) < GetBE(t)
    decreases |s|
  {
    var n := |s| - 1;
    if i < n {
      assert s[..n][..i] == s[..i] && t[..n][..i] == t[..i];
      SmallerAt(s[..n], t[..n], i);
    }
  }

  lemma {:induction false} DiffIsOrder(s: seq<byte>, t: seq<byte>, i: nat)
    requires |s| == |t| && i <= |s| && s[..i] == t[..i]
    ensures FirstDiff(s, t, i) < 0 <==> GetBE(s) < GetBE(t)
    ensures FirstDiff(s, t, i) == 0 <==> GetBE(s) == GetBE(t)
    decreases |s| - i
  {
    if i == |s| {
      assert s[..i] == s && t[..i] == t;
    } else if s[i] < t[i] {
      SmallerAt(s, t, i);
    } else if s[i] > t[i] {
      SmallerAt(t, s, i);
    } else {
      assert s[..i + 1] == s[..i] + [s[i]] && t[..i + 1] == t[..i] + [t[i]];
      DiffIsOrder(s, t, i + 1);
    }
  }

  // ---- increment

  /** Adding one from the last word backwards. */
  function Incremented(ws: seq<nat>): (r: seq<nat>)
    ensures |r| == |ws|
  {
    if ws == [] then []
    else
      var (n, last) := (|ws| - 1, (ws[|ws| - 1] + 1) % WORD);
      if last != 0 then ws[..n] + [last] else Incremented(ws[..n]) + [last]
  }

  lemma {:induction false} ValueBack(ws: seq<nat>, x: nat)
    ensures Value(ws + [x]) == Value(ws) * WORD + x
  {
    if ws == [] {
      assert ws + [x] == [x] && [x][1..] == [];
      assert Pow2(0) == 1;
    } else {
      ValueBack(ws[1..], x);
      assert (ws + [x])[1..] == ws[1..] + [x];
      WordIsPow2();
      Pow2Sum(32 * (|ws| - 1), 32);
      BackSum(ws[0], Pow2(32 * (|ws| - 1)), Value(ws[1..]));
    }
  }

  lemma BackSum(w: nat, p: nat, v: nat)
    ensures w * (p * WORD) + v * WORD == (w * p + v) * WORD
  {
    assert w * (p * WORD) == (w * p) * WORD;
  }

  lemma CarryArith(v: nat, w: nat, p: nat)
    requires v < p && w < WORD
    ensures w + 1 < WORD ==> v * WORD + w + 1 < p * WORD
    ensures w + 1 == WORD ==> (v * WORD + w + 1 < p * WORD <==> v + 1 < p)
  {
  }

  /** The same, for a last word w after words worth v. */
  lemma LastWord(init: seq<nat>, w: nat)
    requires Words(init) && w < WORD
    ensures Value(init + [w]) == Value(init) * WORD + w
    ensures w + 1 < WORD ==> Value(init + [w]) + 1 < Pow2(32 * |init + [w]|)
    ensures w + 1 == WORD ==>
      (Value(init + [w]) + 1 < Pow2(32 * |init + [w]|) <==> Value(init) + 1 < Pow2(32 * |init|))
  {
    ValueBack(init, w);
    ValueBound(init);
    WordIsPow2();
    Pow2Sum(32 * |init|, 32);
    CarryArith(Value(init), w, Pow2(32 * |init|));
  }

  lemma IncrementLast(init: seq<nat>, w: nat)
    requires w < WORD
    ensures Incremented(init + [w]) == if w + 1 < WORD then init + [w + 1] else Incremented(init) + [0]
  {
    assert (init + [w])[..|init|] == init;
  }

  lemma {:induction false} IncrementStep(init: seq<nat>, w: nat)
    requires Words(init) && w < WORD && Words(Incremented(init))
    requires Value(Incremented(init)) == if Value(init) + 1 < Pow2(32 * |init|) then Value(init) + 1 else 0
    ensures Words(Incremented(init + [w]))
    ensures var v := Value(init + [w]);
      Value(Incremented(init + [w])) == if v + 1 < Pow2(32 * |init + [w]|) then v + 1 else 0
  {
    LastWord(init, w);
    IncrementLast(init, w);
    ValueBack(init, w + 1);
    ValueBack(Incremented(init), 0);
  }

  /** Increment is addition of one modulo the size of the address space. */
  lemma {:induction false} IncrementAdds(ws: seq<nat>)
    requires Words(ws)
    ensures Words(Incremented(ws))
    ensures Value(Incremented(ws)) == if Value(ws) + 1 < Pow2(32 * |ws|) then Value(ws) + 1 else 0
  {
    if ws != [] {
      var (init, w) := (ws[..|ws| - 1], ws[|ws| - 1]);
      assert ws == init + [w];
      IncrementAdds(init);
      IncrementStep(init, w);
    }
  }
}
