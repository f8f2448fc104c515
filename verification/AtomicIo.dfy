/**
 * atomicio.c: transfers that are resumed until complete. The bytes to move are named by their
 * addresses (`cells`), so that reading and writing are the same; the results of the calls to the
 * transfer function, and whether the callback then asks to stop, come as a list.
 */
module AtomicIo {
  type pos = n: int | n > 0 witness 1

  datatype Res =
    | Moved(n: pos, stop: bool)
    | Zero
    | Interrupted(stop: bool)
    | Again
    | Failed

  datatype Err = Fine | Intr | Pipe | Fault | Invalid | Device

  /** The value and errno of the call and the bytes moved, or still waiting for the transfer function. */
  datatype End = End(value: nat, err: Err, moved: seq<nat>) | Waiting(moved: seq<nat>)

  datatype Iovec = Iovec(base: nat, len: nat)

  /** The addresses of a region, and of a list of regions, in transfer order. */
  function Region(v: Iovec): (s: seq<nat>)
    ensures |s| == v.len
  {
    seq(v.len, i requires 0 <= i < v.len => v.base + i)
  }

  function Cells(iov: seq<Iovec>): seq<nat> {
    if iov == [] then [] else Region(iov[0]) + Cells(iov[1..])
  }

  // ---- one buffer

  /** atomicio6 with `rest` to go after `moved`. */
  function Io(rest: seq<nat>, moved: seq<nat>, rs: seq<Res>): End
    decreases |rs|
  {
    if rest == [] then End(|moved|, Fine, moved)
    else if rs == [] then Waiting(moved)
    else match rs[0]
      case Interrupted(stop) => if stop then End(|moved|, Intr, moved) else Io(rest, moved, rs[1..])
      case Again => Io(rest, moved, rs[1..])
      case Failed => End(0, Device, moved)
      case Zero => End(|moved|, Pipe, moved)
      case Moved(n, stop) =>
        if n > |rest| then End(|moved| + n, if stop then Intr else Fine, moved + rest)
        else if stop then End(|moved| + n, Intr, moved + rest[..n])
        else Io(rest[n..], moved + rest[..n], rs[1..])
  }

  /** No call moves more than it was asked to. */
  predicate Honest(rest: seq<nat>, rs: seq<Res>)
    decreases |rs|
  {
    if rest == [] || rs == [] then true
    else match rs[0]
      case Interrupted(stop) => stop || Honest(rest, rs[1..])
      case Again => Honest(rest, rs[1..])
      case Moved(n, stop) => n <= |rest| && (stop || Honest(rest[n..], rs[1..]))
      case _ => true
  }

  /** What has been moved is always a prefix of what was to be moved, on success all of it, and its
      length is what the call returns unless the device failed. */
  lemma {:induction false} IoMovesPrefix(rest: seq<nat>, moved: seq<nat>, rs: seq<Res>)
    requires Honest(rest, rs)
    ensures Io(rest, moved, rs).moved <= moved + rest
    ensures var e := Io(rest, moved, rs); e.End? && e.err == Fine ==> e.moved == moved + rest
    ensures var e := Io(rest, moved, rs); e.End? && e.err != Device ==> e.value == |e.moved|
    decreases |rs|
  {
    if rest != [] && rs != [] {
      match rs[0]
      case Interrupted(stop) => if !stop { IoMovesPrefix(rest, moved, rs[1..]); }
      case Again => IoMovesPrefix(rest, moved, rs[1..]);
      case Moved(n, stop) =>
        if !stop { IoMovesPrefix(rest[n..], moved + rest[..n], rs[1..]); }
        assert moved + rest[..n] + rest[n..] == moved + rest;
      case _ =>
    }
  }

  // ---- scatter and gather

  /** Entries that rem bytes complete are dropped, empty ones included. */
  function Skip(iov: seq<Iovec>, rem: nat): (seq<Iovec>, nat) {
    if iov == [] || rem < iov[0].len then (iov, rem) else Skip(iov[1..], rem - iov[0].len)
  }

  /** The entries left after rem bytes. */
  function Advance(iov: seq<Iovec>, rem: nat): seq<Iovec> {
    var (left, r) := Skip(iov, rem);
    MovedUp(left, r)
  }

  /** A partial first entry moved up by r. */
  function MovedUp(left: seq<Iovec>, r: nat): seq<Iovec> {
    if left == [] || r > left[0].len then [] else [Iovec(left[0].base + r, left[0].len - r)] + left[1..]
  }

  /** atomiciov6 with `iov` to go after `moved`. */
  function IoV(iov: seq<Iovec>, moved: seq<nat>, rs: seq<Res>): End
    decreases |rs|
  {
    if iov == [] || iov[0].len == 0 then End(|moved|, Fine, moved)
    else if rs == [] then Waiting(moved)
    else match rs[0]
      case Interrupted(stop) => if stop then End(|moved|, Intr, moved) else IoV(iov, moved, rs[1..])
      case Again => IoV(iov, moved, rs[1..])
      case Failed => End(0, Device, moved)
      case Zero => End(|moved|, Pipe, moved)
      case Moved(n, stop) =>
        var (left, r) := Skip(iov, n);
        if r > 0 && (left == [] || r > left[0].len) then End(0, Fault, moved)
        else
          var moved' := moved + Cells(iov)[..if n <= |Cells(iov)| then n else |Cells(iov)|];
          if stop then End(|moved| + n, Intr, moved') else IoV(Advance(iov, n), moved', rs[1..])
  }

  predicate Ready(iov: seq<Iovec>) { iov == [] || iov[0].len > 0 }

  lemma {:induction false} SkipStops(iov: seq<Iovec>, rem: nat)
    ensures var (left, r) := Skip(iov, rem);
      && (left != [] ==> r < left[0].len)
      && (left == [] && r > 0 <==> rem > |Cells(iov)|)
    decreases |iov|
  {
    if iov != [] && rem >= iov[0].len { SkipStops(iov[1..], rem - iov[0].len); }
  }

  /** Skipping stops at an entry that is not complete, or at the end with nothing left over exactly
      if no more was moved than there was. */
  lemma {:induction false} SkipFinds(iov: seq<Iovec>, rem: nat)
    ensures var (left, r) := Skip(iov, rem);
      if rem <= |Cells(iov)| then
        && (left == [] ==> r == 0) && (left != [] ==> r < left[0].len)
        && (if left == [] then [] else Region(left[0])[r..] + Cells(left[1..])) == Cells(iov)[rem..]
      else left == [] && r > 0
    decreases |iov|
  {
    if iov != [] {
      var (first, rest) := (Region(iov[0]), Cells(iov[1..]));
      assert Cells(iov) == first + rest;
      if rem < iov[0].len {
        assert (first + rest)[rem..] == first[rem..] + rest;
      } else {
        SkipFinds(iov[1..], rem - iov[0].len);
        if rem <= |Cells(iov)| {
          assert (first + rest)[rem..] == rest[rem - iov[0].len..];
        }
      }
    }
  }

  lemma CellsCons(v: Iovec, iov: seq<Iovec>)
    ensures Cells([v] + iov) == Region(v) + Cells(iov)
  {
    assert ([v] + iov)[1..] == iov;
  }

  lemma RegionTail(v: Iovec, r: nat)
    requires r <= v.len
    ensures Region(Iovec(v.base + r, v.len - r)) == Region(v)[r..]
  {
  }

  lemma MovedUpCells(left: seq<Iovec>, r: nat)
    requires left != [] ==> r < left[0].len
    ensures Ready(MovedUp(left, r))
    ensures Cells(MovedUp(left, r)) == if left == [] then [] else Region(left[0])[r..] + Cells(left[1..])
  {
    if left != [] {
      RegionTail(left[0], r);
      CellsCons(Iovec(left[0].base + r, left[0].len - r), left[1..]);
    }
  }

  /** The entries left hold exactly the bytes not yet moved, starting with one that is not empty. */
  lemma AdvanceLeaves(iov: seq<Iovec>, n: nat)
    requires n <= |Cells(iov)|
    ensures Ready(Advance(iov, n)) && Cells(Advance(iov, n)) == Cells(iov)[n..]
  {
    SkipFinds(iov, n);
    var (left, r) := Skip(iov, n);
    MovedUpCells(left, r);
  }

  /** Under every pattern of short transfers and retries, scatter/gather moves the same bytes in the
      same order, with the same outcome, as one buffer holding the concatenation. */
  lemma {:induction false} IoVIsIo(iov: seq<Iovec>, moved: seq<nat>, rs: seq<Res>)
    requires Ready(iov) && Honest(Cells(iov), rs)
    ensures IoV(iov, moved, rs) == Io(Cells(iov), moved, rs)
    decreases |rs|
  {
    if iov != [] && rs != [] {
      assert Cells(iov) != [];
      match rs[0]
      case Interrupted(stop) => if !stop { IoVIsIo(iov, moved, rs[1..]); }
      case Again => IoVIsIo(iov, moved, rs[1..]);
      case Moved(n, stop) =>
        SkipFinds(iov, n);
        AdvanceLeaves(iov, n);
        if !stop { IoVIsIo(Advance(iov, n), moved + Cells(iov)[..n], rs[1..]); }
      case _ =>
    }
  }

  /** The fault is reported exactly when a call moved more than it was asked to. */
  lemma {:induction false} FaultMeansDishonest(iov: seq<Iovec>, moved: seq<nat>, rs: seq<Res>)
    requires Ready(iov)
    ensures var e := IoV(iov, moved, rs); e.End? && e.err == Fault <==> !Honest(Cells(iov), rs)
    decreases |rs|
  {
    if iov != [] && rs != [] {
      assert Cells(iov) != [];
      match rs[0]
      case Interrupted(stop) => FaultMeansDishonest(iov, moved, rs[1..]);
      case Again => FaultMeansDishonest(iov, moved, rs[1..]);
      case Moved(n, stop) =>
        SkipFinds(iov, n);
        if n <= |Cells(iov)| {
          AdvanceLeaves(iov, n);
          FaultMeansDishonest(Advance(iov, n), moved + Cells(iov)[..n], rs[1..]);
        }
      case _ =>
    }
  }

  /** That a first entry is not empty matters: otherwise nothing at all is moved. */
  lemma EmptyFirstStops(iov: seq<Iovec>, rs: seq<Res>)
    requires iov != [] && iov[0].len == 0
    ensures IoV(iov, [], rs) == End(0, Fine, [])
    ensures (forall t :: IoV(iov, [], t) == Io(Cells(iov), [], t)) <==> Cells(iov) == []
  {
    if Cells(iov) == [] {
      forall t ensures IoV(iov, [], t) == Io(Cells(iov), [], t) {
        assert IoV(iov, [], t) == End(0, Fine, []) == Io([], [], t);
      }
    } else {
      assert Io(Cells(iov), [], []) == Waiting([]);
      assert IoV(iov, [], []) != Io(Cells(iov), [], []);
    }
  }

  // ---- the code

  /** atomicio6 on n bytes at s. */
  method AtomicIo6(s: nat, n: nat, rs: seq<Res>) returns (e: End)
    ensures e == Io(Region(Iovec(s, n)), [], rs)
  {
    var cells := Region(Iovec(s, n));
    var pos := 0;
    var i := 0;
    while n > pos
      invariant 0 <= pos && i <= |rs|
      invariant Io(cells, [], rs) ==
        if pos <= n then Io(cells[pos..], cells[..pos], rs[i..]) else End(pos, Fine, cells)
      decreases |rs| - i
    {
      if i == |rs| {
        return Waiting(cells[..pos]);
      }
      var res := rs[i];
      assert rs[i..][0] == res && rs[i..][1..] == rs[i + 1..];
      i := i + 1;
      match res {
        case Interrupted(stop) =>
          if stop {
            return End(pos, Intr, cells[..pos]);
          }
        case Again =>
        case Failed => return End(0, Device, cells[..pos]);
        case Zero => return End(pos, Pipe, cells[..pos]);
        case Moved(m, stop) =>
          if m <= n - pos {
            assert cells[..pos] + cells[pos..][..m] == cells[..pos + m] && cells[pos..][m..] == cells[pos + m..];
          } else {
            assert cells[..pos] + cells[pos..] == cells;
          }
          pos := pos + m;
          if stop {
            return End(pos, Intr, cells[..if pos <= n then pos else n]);
          }
      }
    }
    return End(pos, Fine, cells[..if pos <= n then pos else n]);
  }

  /** The inner loop of atomiciov6 on the copied entries from index `at` on. */
  method SkipDone(iov: array<Iovec>, first: nat, n: nat) returns (at: nat, rem: nat)
    requires first <= iov.Length
    ensures first <= at <= iov.Length && Skip(iov[first..], n) == (iov[at..], rem)
    ensures at < iov.Length ==> rem < iov[at].len
  {
    at, rem := first, n;
    while at < iov.Length && rem >= iov[at].len
      invariant first <= at <= iov.Length && Skip(iov[first..], n) == Skip(iov[at..], rem)
    {
      assert iov[at..][1..] == iov[at + 1..];
      rem := rem - iov[at].len;
      at := at + 1;
    }
  }

  lemma AfterSkip(was: seq<Iovec>, n: nat, left: seq<Iovec>, rem: nat)
    requires Skip(was, n) == (left, rem)
    ensures n <= |Cells(was)| <==> !(rem > 0 && left == [])
    ensures left != [] ==> rem < left[0].len
    ensures Advance(was, n) ==
      if left == [] then [] else [Iovec(left[0].base + rem, left[0].len - rem)] + left[1..]
  {
    SkipStops(was, n);
  }

  /** The update of a partially completed entry. */
  method MoveUp(iov: array<Iovec>, at: nat, rem: nat)
    requires at < iov.Length && rem < iov[at].len
    modifies iov
    ensures var left := old(iov[at..]);
      iov[at..] == [Iovec(left[0].base + rem, left[0].len - rem)] + left[1..]
  {
    ghost var left := iov[at..];
    iov[at] := Iovec(iov[at].base + rem, iov[at].len - rem);
    assert iov[at..] == [iov[at]] + iov[at + 1..] && iov[at + 1..] == left[1..];
  }

  /** One successful call: completed entries are skipped and a partial one is moved up in place. */
  method Resume(iov: array<Iovec>, first: nat, n: nat) returns (at: nat, ok: bool)
    requires first <= iov.Length
    modifies iov
    ensures first <= at <= iov.Length && ok == (n <= |Cells(old(iov[first..]))|)
    ensures ok ==> iov[at..] == Advance(old(iov[first..]), n)
  {
    ghost var was := iov[first..];
    var rem;
    at, rem := SkipDone(iov, first, n);
    AfterSkip(was, n, iov[at..], rem);
    if rem > 0 && (at == iov.Length || rem > iov[at].len) {
      return at, false;
    }
    if at < iov.Length {
      MoveUp(iov, at, rem);
    }
    ok := true;
  }

  /** atomiciov6 on the first iovcnt entries. */
  method AtomicIoV6(entries: seq<Iovec>, iovcnt: int, iovMax: nat, rs: seq<Res>) returns (e: End)
    requires iovcnt <= |entries|
    ensures e == if iovcnt < 0 || iovcnt > iovMax then End(0, Invalid, []) else IoV(entries[..iovcnt], [], rs)
  {
    if iovcnt < 0 || iovcnt > iovMax {
      return End(0, Invalid, []);
    }
    ghost var given := entries[..iovcnt];
    var iov := new Iovec[iovcnt](i requires 0 <= i < iovcnt => entries[i]);
    assert iov[0..] == given;
    var moved: seq<nat> := [];
    var at := 0;
    var i := 0;
    while at < iov.Length && iov[at].len > 0
      invariant at <= iov.Length && i <= |rs| && fresh(iov)
      invariant IoV(given, [], rs) == IoV(iov[at..], moved, rs[i..])
      decreases |rs| - i
    {
      if i == |rs| {
        return Waiting(moved);
      }
      var res := rs[i];
      assert rs[i..][0] == res && rs[i..][1..] == rs[i + 1..];
      i := i + 1;
      match res {
        case Interrupted(stop) =>
          if stop {
            return End(|moved|, Intr, moved);
          }
        case Again =>
        case Failed => return End(0, Device, moved);
        case Zero => return End(|moved|, Pipe, moved);
        case Moved(m, stop) =>
          var cells := Cells(iov[at..]);
          SkipFinds(iov[at..], m);
          var ok;
          at, ok := Resume(iov, at, m);
          if !ok {
            return End(0, Fault, moved);
          }
          moved := moved + cells[..m];
          if stop {
            return End(|moved|, Intr, moved);
          }
      }
    }
    return End(|moved|, Fine, moved);
  }
}
