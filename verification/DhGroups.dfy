/**
 * choose_dh of dh.c: the two passes over the moduli file. A line is either unusable or a prime of
 * a given size; drawing a random number below the count is a parameter.
 */
module DhGroups {
  import opened Octets

  /** parse_prime only accepts sizes of at least two bits. */
  type size = n: int | n >= 2 witness 2

  datatype Line = Unusable | Prime(bits: size)

  datatype Wanted = Wanted(min: int, bits: int, max: int)

  predicate Admissible(l: Line, w: Wanted) { l.Prime? && w.min <= l.bits <= w.max }

  function Count(ls: seq<Line>, w: Wanted, bits: int): nat {
    if ls == [] then 0
    else
      var (n, l) := (Count(ls[..|ls| - 1], w, bits), ls[|ls| - 1]);
      if Admissible(l, w) && l.bits == bits then n + 1 else n
  }

  predicate Offers(ls: seq<Line>, w: Wanted, bits: int) {
    exists i :: 0 <= i < |ls| && Admissible(ls[i], w) && ls[i].bits == bits
  }

  datatype Best = Best(bits: int, count: nat)

  /** One line of the first pass. */
  function Consider(b: Best, l: Line, w: Wanted): Best {
    if !Admissible(l, w) then b
    else
      var b' := if (l.bits > w.bits && l.bits < b.bits) || (l.bits > b.bits && b.bits < w.bits)
                then Best(l.bits, 0) else b;
      if l.bits == b'.bits then Best(b'.bits, b'.count + 1) else b'
  }

  function Scan(ls: seq<Line>, w: Wanted): Best {
    if ls == [] then Best(0, 0) else Consider(Scan(ls[..|ls| - 1], w), ls[|ls| - 1], w)
  }

  /** The size of the first usable line of at least the wanted size; 0 if there is none. */
  function FirstEnough(ls: seq<Line>, w: Wanted): int {
    if ls == [] then 0
    else
      var (f, l) := (FirstEnough(ls[..|ls| - 1], w), ls[|ls| - 1]);
      if f == 0 && Admissible(l, w) && l.bits >= w.bits then l.bits else f
  }

  // ---- what the first pass finds

  /** The chosen size is good: large enough if any is, then as small as possible, else the largest. */
  ghost predicate Good(ls: seq<Line>, w: Wanted, b: int) {
    && (b >= w.bits ==> forall s: int :: Offers(ls, w, s) ==> !(w.bits < s < b))
    && (b < w.bits ==> forall s: int :: Offers(ls, w, s) ==> s <= b)
  }

  lemma OffersLast(ls: seq<Line>, w: Wanted, s: int)
    requires ls != []
    ensures var (init, l) := (ls[..|ls| - 1], ls[|ls| - 1]);
      Offers(ls, w, s) <==> Offers(init, w, s) || (Admissible(l, w) && l.bits == s)
  {
    var (init, l) := (ls[..|ls| - 1], ls[|ls| - 1]);
    if Offers(init, w, s) {
      var i :| 0 <= i < |init| && Admissible(init[i], w) && init[i].bits == s;
      assert ls[i] == init[i];
    }
    if Offers(ls, w, s) {
      var i :| 0 <= i < |ls| && Admissible(ls[i], w) && ls[i].bits == s;
      if i < |init| { assert init[i] == ls[i]; }
    }
  }

  lemma {:induction false} CountOffers(ls: seq<Line>, w: Wanted, s: int)
    ensures Count(ls, w, s) > 0 <==> Offers(ls, w, s)
  {
    if ls != [] {
      CountOffers(ls[..|ls| - 1], w, s);
      OffersLast(ls, w, s);
    }
  }

  /** The first pass over any file: the choice is good, and its count is the number of its lines. */
  lemma {:induction false} ScanIsGood(ls: seq<Line>, w: Wanted)
    requires w.bits >= 1
    ensures var b := Scan(ls, w);
      && Good(ls, w, b.bits) && b.count == Count(ls, w, b.bits)
      && (b.count == 0 <==> b.bits == 0) && (b.count == 0 <==> forall s: int :: !Offers(ls, w, s))
      && (b.count > 0 ==> Offers(ls, w, b.bits))
  {
    if ls != [] {
      var (init, l) := (ls[..|ls| - 1], ls[|ls| - 1]);
      ScanIsGood(init, w);
      forall s: int ensures Offers(ls, w, s) <==> Offers(init, w, s) || (Admissible(l, w) && l.bits == s) {
        OffersLast(ls, w, s);
      }
      if Admissible(l, w) { CountOffers(init, w, l.bits); }
    }
  }

  /** Whether the wanted size itself is chosen depends on the order of the file: exactly if it comes
      before every larger one. */
  lemma {:induction false} ExactSizeChosen(ls: seq<Line>, w: Wanted)
    requires w.bits >= 1
    ensures Scan(ls, w).bits == w.bits <==> FirstEnough(ls, w) == w.bits
    ensures Scan(ls, w).bits > w.bits <==> FirstEnough(ls, w) > w.bits
    ensures Scan(ls, w).bits < w.bits <==> FirstEnough(ls, w) == 0
  {
    if ls != [] { ExactSizeChosen(ls[..|ls| - 1], w); }
  }

  /** With the two lines the other way round the wanted size is passed over. */
  lemma WantedSizeSkipped()
    ensures var w := Wanted(1024, 2048, 8192);
      && Scan([Prime(3072), Prime(2048)], w).bits == 3072 && Offers([Prime(3072), Prime(2048)], w, 2048)
      && Scan([Prime(2048), Prime(3072)], w).bits == 2048
  {
    var (w, a, b) := (Wanted(1024, 2048, 8192), [Prime(3072), Prime(2048)], [Prime(2048), Prime(3072)]);
    assert a[..1] == [Prime(3072)] && b[..1] == [Prime(2048)] && a[..1][..0] == [] && b[..1][..0] == [];
    assert Scan(a[..1], w) == Consider(Best(0, 0), Prime(3072), w) == Best(3072, 1);
    assert Scan(b[..1], w) == Consider(Best(0, 0), Prime(2048), w) == Best(2048, 1);
    assert Admissible(a[1], w) && a[1].bits == 2048;
  }

  // ---- the second pass

  /** The index of the line that is number `which` of its kind; the length if there is none. */
  function Find(ls: seq<Line>, w: Wanted, bits: int, which: nat, i: nat): (k: nat)
    requires i <= |ls|
    ensures i <= k <= |ls|
    decreases |ls| - i
  {
    if i == |ls| then i
    else if Admissible(ls[i], w) && ls[i].bits == bits then
      if which == 0 then i else Find(ls, w, bits, which - 1, i + 1)
    else Find(ls, w, bits, which, i + 1)
  }

  lemma CountNext(ls: seq<Line>, w: Wanted, bits: int, i: nat)
    requires i < |ls|
    ensures Count(ls[..i + 1], w, bits) ==
      Count(ls[..i], w, bits) + if Admissible(ls[i], w) && ls[i].bits == bits then 1 else 0
  {
    assert ls[..i + 1][..i] == ls[..i];
  }

  lemma {:induction false} CountGrows(ls: seq<Line>, w: Wanted, bits: int, i: nat)
    requires i <= |ls|
    ensures Count(ls[..i], w, bits) <= Count(ls, w, bits)
    decreases |ls| - i
  {
    if i < |ls| {
      CountNext(ls, w, bits, i);
      CountGrows(ls, w, bits, i + 1);
    } else {
      assert ls[..i] == ls;
    }
  }

  /** The line is found exactly if the file has more than `which` lines of that size, and then it is
      the one with `which` such lines before it. */
  lemma {:induction false} FindMeans(ls: seq<Line>, w: Wanted, bits: int, which: nat, i: nat)
    requires i <= |ls|
    ensures var k := Find(ls, w, bits, which, i);
      && (k < |ls| <==> Count(ls[..i], w, bits) + which < Count(ls, w, bits))
      && (k < |ls| ==> Admissible(ls[k], w) && ls[k].bits == bits)
      && (k < |ls| ==> Count(ls[..k], w, bits) == Count(ls[..i], w, bits) + which)
    decreases |ls| - i
  {
    if i == |ls| {
      assert ls[..i] == ls;
    } else {
      CountNext(ls, w, bits, i);
      if Admissible(ls[i], w) && ls[i].bits == bits {
        CountGrows(ls, w, bits, i + 1);
        if which > 0 { FindMeans(ls, w, bits, which - 1, i + 1); }
      } else {
        FindMeans(ls, w, bits, which, i + 1);
      }
    }
  }

  /** On an unchanged file every draw below the count finds a line of the chosen size, and
      different draws find different lines. */
  lemma SecondPassFinds(ls: seq<Line>, w: Wanted, which: nat)
    requires w.bits >= 1 && which < Scan(ls, w).count
    ensures var b := Scan(ls, w).bits;
      var k := Find(ls, w, b, which, 0);
      k < |ls| && Admissible(ls[k], w) && ls[k].bits == b && Count(ls[..k], w, b) == which
  {
    ScanIsGood(ls, w);
    FindMeans(ls, w, Scan(ls, w).bits, which, 0);
    assert ls[..0] == [];
  }

  // ---- the code

  /** The first loop of choose_dh. */
  method FirstPass(ls: seq<Line>, w: Wanted) returns (best: int, bestcount: nat)
    ensures Best(best, bestcount) == Scan(ls, w)
  {
    best, bestcount := 0, 0;
    for linenum := 0 to |ls|
      invariant Best(best, bestcount) == Scan(ls[..linenum], w)
    {
      assert ls[..linenum + 1][..linenum] == ls[..linenum];
      var l := ls[linenum];
      if l.Unusable? {
        continue;
      }
      if l.bits > w.max || l.bits < w.min {
        continue;
      }
      if (l.bits > w.bits && l.bits < best) || (l.bits > best && best < w.bits) {
        best := l.bits;
        bestcount := 0;
      }
      if l.bits == best {
        bestcount := bestcount + 1;
      }
    }
    assert ls[..|ls|] == ls;
  }

  /** The second loop of choose_dh. */
  method SecondPass(ls: seq<Line>, w: Wanted, best: int, which: nat) returns (r: Option<nat>)
    ensures var k := Find(ls, w, best, which, 0); r == if k < |ls| then Some(k) else None
  {
    var bestcount := 0;
    var linenum := 0;
    while linenum < |ls|
      invariant linenum <= |ls| && bestcount <= which
      invariant Find(ls, w, best, which, 0) == Find(ls, w, best, which - bestcount, linenum)
    {
      var l := ls[linenum];
      if l.Prime? && l.bits <= w.max && l.bits >= w.min && l.bits == best {
        bestcount := bestcount + 1;
        if bestcount - 1 == which {
          break;
        }
      }
      linenum := linenum + 1;
    }
    if bestcount != which + 1 {
      return None;
    }
    r := Some(linenum);
  }

  /** choose_dh: the line picked, or nothing when the fixed group is used instead. The file may have
      changed between the passes. */
  method ChooseDh(first: seq<Line>, second: seq<Line>, w: Wanted, draw: nat -> nat) returns (r: Option<nat>)
    requires forall n: nat :: n > 0 ==> draw(n) < n
    ensures var b := Scan(first, w);
      if b.count == 0 then r == None
      else
        var k := Find(second, w, b.bits, draw(b.count), 0);
        r == if k < |second| then Some(k) else None
  {
    var best, bestcount := FirstPass(first, w);
    if bestcount == 0 {
      return None;
    }
    var which := draw(bestcount);
    r := SecondPass(second, w, best, which);
  }
}
