/** How a request is served: the choice smalloc makes and the row of blocks it leaves. */
module RequestSpec {
  import opened Memory
  import opened Tiling
  import opened BlockListModel
  import opened HeapSpec
  import opened SizeArithmetic

  predicate FitsTile(t: Tile, size: int) { t.free && t.size >= size }

  ghost predicate NoFit(ts: seq<Tile>, size: int) { forall i :: 0 <= i < |ts| ==> !FitsTile(ts[i], size) }

  /** Block k is the smallest adequate free block, and the lowest of those. */
  ghost predicate BestFit(ts: seq<Tile>, k: int, size: int) {
    && 0 <= k < |ts| && FitsTile(ts[k], size)
    && forall i :: 0 <= i < |ts| && i != k && FitsTile(ts[i], size) ==>
         ts[k].size < ts[i].size || (ts[k].size == ts[i].size && ts[k].addr < ts[i].addr)
  }

  /** The list search finds the best fit: the list order is the order of preference. */
  lemma SearchIsBestFit(m: Memory, head: int, o: seq<int>, start: int, brk: int, ts: seq<Tile>, iter: int, size: int)
      returns (k: int)
    requires HeapOK(m, head, o, start, brk, ts)
    requires iter in o && Fits(m.words, iter, size)
    requires forall h :: h in o && Fits(m.words, h, size) && h != iter ==> Before(m.words, iter, h)
    ensures BestFit(ts, k, size) && ts[k].addr == iter
  {
    InAddrs(o, ts);
    k :| 0 <= k < |ts| && Addrs(ts)[k] == iter;
    forall i | 0 <= i < |ts| ensures Fits(m.words, ts[i].addr, size) <==> FitsTile(ts[i], size) {
      assert TileCells(m.words, ts[i]);
    }
    forall i | 0 <= i < |ts| && i != k && FitsTile(ts[i], size)
      ensures ts[k].size < ts[i].size || (ts[k].size == ts[i].size && ts[k].addr < ts[i].addr)
    {
      assert ts[i].addr in o && ts[i].addr != iter;
      assert TileCells(m.words, ts[i]) && TileCells(m.words, ts[k]);
    }
  }

  lemma SearchFindsNone(m: Memory, head: int, o: seq<int>, start: int, brk: int, ts: seq<Tile>, size: int)
    requires HeapOK(m, head, o, start, brk, ts) && forall h :: h in o ==> !Fits(m.words, h, size)
    ensures NoFit(ts, size)
  {
    InAddrs(o, ts);
    forall i | 0 <= i < |ts| ensures !FitsTile(ts[i], size) {
      assert TileCells(m.words, ts[i]) && ts[i].addr in o;
      assert !Fits(m.words, ts[i].addr, size);
    }
  }

  lemma FlagsReadable(m: Memory, head: int, o: seq<int>, start: int, brk: int, ts: seq<Tile>)
    requires HeapOK(m, head, o, start, brk, ts)
    ensures forall h :: h in o ==> h + 8 in m.words
  {
    InAddrs(o, ts);
    forall h | h in o ensures h + 8 in m.words {
      var k :| 0 <= k < |ts| && Addrs(ts)[k] == h;
      assert TileCells(m.words, ts[k]);
    }
  }

  /** The row after free block k was handed out for size bytes. */
  ghost function Served(ts: seq<Tile>, k: int, size: nat): seq<Tile>
    requires 0 <= k < |ts|
  {
    if ts[k].size >= size + 2 * SOM + MIN_SPLIT_SIZE then SplitAt(ts, k, size) else SetFlag(ts, k, false)
  }

  datatype Service = Reuse(k: int) | Grow | Append | MapAnew

  /** The four ways a request of size bytes (already rounded) is served; the block comes to
      lie at the start of [lo, hi), the only region written besides list links. */
  ghost predicate Serves(how: Service, ts: seq<Tile>, mp: seq<Tile>, brk: int, size: nat,
                         ts2: seq<Tile>, mp2: seq<Tile>, brk2: int, at: Place, lo: int, hi: int)
  {
    match how
    case Reuse(k) =>
      && size < MMAP_THRESHOLD && BestFit(ts, k, size)
      && ts2 == Served(ts, k, size) && mp2 == mp && brk2 == brk
      && at == InHeap(k) && lo == ts[k].addr && hi == End(ts[k])
    case Grow =>
      && size < MMAP_THRESHOLD && NoFit(ts, size) && ts != [] && ts[|ts| - 1].free
      && ts2 == ts[..|ts| - 1] + [Tile(lo, size, false)] && mp2 == mp && brk2 == hi
      && at == InHeap(|ts| - 1) && lo == ts[|ts| - 1].addr && hi == lo + size + 2 * SOM
    case Append =>
      && size < MMAP_THRESHOLD && NoFit(ts, size) && (ts == [] || !ts[|ts| - 1].free)
      && ts2 == ts + [Tile(lo, size, false)] && mp2 == mp && brk2 == hi
      && at == InHeap(|ts|) && lo == brk && hi == lo + size + 2 * SOM
    case MapAnew =>
      && size >= MMAP_THRESHOLD
      && ts2 == ts && mp2 == mp + [Tile(lo, size, false)] && brk2 == brk
      && at == InMap(|mp|) && hi == lo + SOM + size
  }

  lemma AloneOnTheRight(ts: seq<Tile>, k: int)
    requires NoFreePair(ts) && 0 <= k < |ts| && ts[k].free
    ensures !FreeRight(ts, k)
  {
    assert k + 1 < |ts| ==> !FreePair(ts, k);
  }

  /** Counters and structure after block k was handed out. */
  lemma ServedInvariant(start: int, brk: int, ts: seq<Tile>, k: int, size: nat, w: int, base: Stats)
    requires Tiled(start, brk, ts) && NoFreePair(ts) && WildOK(ts, w) && 0 <= k < |ts| && FitsTile(ts[k], size)
    ensures NoFreePair(Served(ts, k, size)) && !FreeRight(ts, k)
    ensures ts[k].size >= size + 2 * SOM + MIN_SPLIT_SIZE ==>
      && WildOK(SplitAt(ts, k, size), SplitWild(ts, k, size, w))
      && Plus(Plus(Totals(ts), base), SplitDelta(ts, k, size)) == Plus(Totals(SplitAt(ts, k, size)), base)
    ensures WildOK(SetFlag(ts, k, false), w)
    ensures Plus(Plus(Totals(ts), base), Stats(0, -1, 0, -(ts[k].size as int), 0))
      == Plus(Totals(SetFlag(ts, k, false)), base)
  {
    hide SplitDelta, Totals, SplitAt, SplitWild, Tiled, WildOK, NoFreePair, FreeRight;
    AloneOnTheRight(ts, k);
    FlagDown(ts, k, w);
    if ts[k].size >= size + 2 * SOM + MIN_SPLIT_SIZE {
      SplitKeepsInvariant(start, brk, ts, k, size, w);
      SplitTotals(start, brk, ts, k, size);
      assert SetFlag(ts, k, true) == ts;
    }
  }

  lemma TileBound(start: int, brk: int, ts: seq<Tile>, k: int)
    requires Tiled(start, brk, ts) && 0 <= k < |ts|
    ensures 0 < ts[k].addr && End(ts[k]) <= brk && ts[k].size < brk
  {
  }

  /** A change inside block k keeps all other payloads. */
  lemma OthersOfOne(m: Memory, m': Memory, o: seq<int>, start: int, brk: int, ts: seq<Tile>, mp: seq<Tile>, k: int)
    requires Tiled(start, brk, ts) && multiset(o) == multiset(Addrs(ts)) && 0 <= k < |ts|
    requires MappedOK(m, start, brk, mp) && Frame(m, m', ts[k].addr, End(ts[k]), o)
    ensures OthersKept(m, m', ts, mp, k, -1) && MappedOK(m', start, brk, mp)
  {
    hide Frame, BytesKept, MappedOK;
    MappedOutside(m, start, brk, mp);
    EndsBefore(start, brk, ts, k);
    EndsBefore(start, brk, ts, k + 1);
    OthersOutside(m, m', o, start, brk, ts, mp, k, k + 1, ts[k].addr, End(ts[k]), o);
  }

  lemma FrameMore(m: Memory, m': Memory, lo: int, hi: int, hs: seq<int>, hs': seq<int>)
    requires Frame(m, m', lo, hi, hs) && forall h :: h in hs ==> h in hs'
    ensures Frame(m, m', lo, hi, hs')
  {
  }

  lemma StartAfter(start: int, brk: int, ts: seq<Tile>, k: int)
    requires Tiled(start, brk, ts) && 0 <= k < |ts|
    ensures StartOf(ts, k + 1, brk) == End(ts[k])
  {
    EndsBefore(start, brk, ts, k + 1);
  }

  /** Why a call cannot be followed any further. */
  datatype Hazard =
    | UnmapsHeap        // munmap is called on a block of the sbrk heap
    | OverwritesLinks   // a payload is moved over the links of a block still in the list
    | SplitsMapping     // splitBlock is called on a mapped block
    | NullCopy          // memmove to a null pointer
    | AssertFails       // an assert of the allocator fails

  datatype Outcome = Ptr(p: int) | Stuck(why: Hazard)

  // The kernel.

  /** The kernel's answers to one call: will it move the break, will it do so for the padding of a
      misaligned first break, and where would it map. */
  datatype Kernel = Kernel(grants: bool, pads: bool, place: int)

  /** The break may move up to brk without running into a mapping. */
  predicate BreakClear(start: int, brk: int, mp: seq<Tile>) {
    forall j :: 0 <= j < |mp| ==> MapEnd(mp[j]) <= start || brk <= mp[j].addr
  }

  /** Does sbrk(n) succeed?  sbrk(0) always does. */
  predicate Granted(brk: int, n: int, start: int, mp: seq<Tile>, ker: Kernel) {
    n == 0 || (ker.grants && brk + n < TWO64 && BreakClear(start, brk + n, mp))
  }

  /** Does the kernel give the padding of a misaligned first break, and then a block of size bytes? */
  predicate FirstGranted(brk: int, size: nat, start: int, mp: seq<Tile>, ker: Kernel) {
    var pad := 8 - brk % 8;
    Granted(brk, pad, start, mp, ker.(grants := ker.pads)) && Granted(brk + pad, size + 2 * SOM, brk, mp, ker)
  }

  /** Address a belongs to a mapping. */
  ghost predicate InMapping(mp: seq<Tile>, a: int) { exists j :: 0 <= j < |mp| && mp[j].addr <= a < MapEnd(mp[j]) }

  /** sbrk(n) succeeds exactly if n is 0, or the kernel is willing, the new break is an address, and
      no address up to it belongs to a mapping. */
  lemma GrantedExactly(start: int, brk: int, n: int, mp: seq<Tile>, ker: Kernel)
    requires start < brk + n
    ensures Granted(brk, n, start, mp, ker) <==>
      n == 0 || (ker.grants && brk + n < 0x1_0000_0000_0000_0000
                 && forall a :: start <= a < brk + n ==> !InMapping(mp, a))
  {
    if BreakClear(start, brk + n, mp) {
      forall a | start <= a < brk + n ensures !InMapping(mp, a) {}
    } else {
      var j :| 0 <= j < |mp| && start < MapEnd(mp[j]) && mp[j].addr < brk + n;
      assert InMapping(mp, if mp[j].addr < start then start else mp[j].addr);
    }
  }

  /** mmap may give [a, a + n) exactly if it lies beside the heap and no address of it belongs to a
      mapping. */
  lemma MapClearExactly(start: int, brk: int, mp: seq<Tile>, a: int, n: int)
    requires n > 0
    ensures MapClear(start, brk, mp, a, n) <==>
      && 0 < a && a + n < 0x1_0000_0000_0000_0000 && (a + n <= start || brk <= a)
      && forall x :: a <= x < a + n ==> !InMapping(mp, x)
  {
    if MapClear(start, brk, mp, a, n) {
      forall x | a <= x < a + n ensures !InMapping(mp, x) {}
    } else if j :| 0 <= j < |mp| && a < MapEnd(mp[j]) && mp[j].addr < a + n {
      assert InMapping(mp, if mp[j].addr < a then a else mp[j].addr);
    }
  }

  lemma GrantedNone(brk: int, start: int, mp: seq<Tile>, ker: Kernel)
    ensures Granted(brk, 0, start, mp, ker)
  {
  }

  lemma GrantedClear(m: Memory, start: int, brk: int, n: int, mp: seq<Tile>, ker: Kernel)
    requires MappedOK(m, start, brk, mp) && Granted(brk, n, start, mp, ker) && brk < TWO64
    ensures MappedOK(m, start, brk + n, mp) && brk + n < TWO64
  {
  }

  /** Replacing the last blocks, from i on, by one live block t that ends at the new break. */
  lemma TailRebuilt(m0: Memory, m2: Memory, o0: seq<int>, head2: int, o2: seq<int>, start: int, brk: int, brk2: int,
                    ts: seq<Tile>, mp: seq<Tile>, i: int, t: Tile)
    requires Tiled(start, brk, ts) && CellsOK(m0.words, ts) && multiset(o0) == multiset(Addrs(ts))
    requires 0 <= i <= |ts| <= i + 1 && t.addr == StartOf(ts, i, brk) && End(t) == brk2 && brk <= brk2
    requires MappedOK(m0, start, brk2, mp)
    requires Frame(m0, m2, t.addr, brk2, o0) && TileCells(m2.words, t)
    requires Apart(o2) && Linked(m2.words, head2, o2) && Sorted(m2.words, o2)
    requires multiset(o2) == multiset(o0) - multiset(Addrs(ts[i..])) + multiset{t.addr}
    ensures HeapOK(m2, head2, o2, start, brk2, ts[..i] + [t]) && MappedOK(m2, start, brk2, mp)
    ensures OthersKept(m0, m2, ts, mp, i, -1)
  {
    hide Linked, Sorted, Apart, Frame, BytesKept, TileCells, MappedOK, OthersKept, Tiled, HeapOK, Splice;
    CoversOne(t);
    assert Addrs([t]) == [t.addr] && ts[i..|ts|] == ts[i..];
    Rebuilt(m0, m2, o0, head2, o2, start, brk, brk2, ts, i, |ts|, [t], t.addr, brk2, o0);
    SpliceTail(ts, i, t);
    EndsBefore(start, brk, ts, i);
    TailOthers(m0, m2, o0, start, brk, brk2, ts, mp, i, t.addr);
  }

  lemma SpliceTail(ts: seq<Tile>, i: int, t: Tile)
    requires 0 <= i <= |ts|
    ensures Splice(ts, i, |ts|, [t]) == ts[..i] + [t]
  {
  }

  lemma TailOthers(m0: Memory, m2: Memory, o0: seq<int>, start: int, brk: int, brk2: int, ts: seq<Tile>, mp: seq<Tile>,
                   i: int, lo: int)
    requires Tiled(start, brk, ts) && multiset(o0) == multiset(Addrs(ts)) && MappedOK(m0, start, brk2, mp)
    requires 0 <= i <= |ts| <= i + 1 && lo == StartOf(ts, i, brk) && brk <= brk2 && Frame(m0, m2, lo, brk2, o0)
    ensures MappedOK(m2, start, brk2, mp) && OthersKept(m0, m2, ts, mp, i, -1)
  {
    hide Frame, BytesKept, MappedOK, Tiled, Records;
    EndsBefore(start, brk, ts, i);
    HeadersInHeap(o0, start, brk, ts);
    MappedOutside(m0, start, brk2, mp);
    MappedAgain(m0, m0, start, brk2, brk, mp);
    OthersOutside(m0, m2, o0, start, brk, ts, mp, i, |ts|, lo, brk2, o0);
    MappedOutside(m2, start, brk, mp);
    MappedAgain(m2, m2, start, brk, brk2, mp);
  }

  lemma TailTotals(ts: seq<Tile>, i: int, t: Tile)
    requires 0 <= i <= |ts| <= i + 1
    ensures i < |ts| ==> Plus(Totals(ts[..i] + [t]), Count(ts[i])) == Plus(Totals(ts), Count(t))
    ensures i == |ts| ==> Totals(ts[..i] + [t]) == Plus(Totals(ts), Count(t))
  {
    hide Totals, Count;
    TotalsSplice(ts, i, |ts|, [t]);
    assert Splice(ts, i, |ts|, [t]) == ts[..i] + [t];
    TotalsFew(t, t);
    if i < |ts| {
      assert ts[i..|ts|] == [ts[i]];
      TotalsFew(ts[i], ts[i]);
    } else {
      assert ts[i..|ts|] == [];
      TotalsNone();
    }
  }

  lemma TotalsNone()
    ensures Totals([]) == ZERO
  {
  }

  lemma TailNoPair(ts: seq<Tile>, i: int, t: Tile)
    requires NoFreePair(ts) && 0 <= i <= |ts| && !t.free
    ensures NoFreePair(ts[..i] + [t])
  {
    var r := ts[..i] + [t];
    forall x {:trigger FreePair(r, x)} | 0 <= x < |r| - 1 ensures !FreePair(r, x) {
      assert x + 1 < i ==> !FreePair(ts, x);
    }
  }

  lemma GrowMembers(ts: seq<Tile>, o0: seq<int>, o2: seq<int>, p: int)
    requires ts != [] && p == ts[|ts| - 1].addr && multiset(o2) == multiset(o0) == multiset(Addrs(ts))
    ensures multiset(o2) == multiset(o0) - multiset(Addrs(ts[|ts| - 1..])) + multiset{p}
  {
    assert Addrs(ts)[|ts| - 1] in multiset(Addrs(ts));
    assert ts[|ts| - 1..] == [ts[|ts| - 1]] && Addrs(ts[|ts| - 1..]) == [p];
  }

  lemma AppendMembers(ts: seq<Tile>, o0: seq<int>, o2: seq<int>, p: int)
    requires multiset(o2) == multiset(o0) + multiset{p}
    ensures multiset(o2) == multiset(o0) - multiset(Addrs(ts[|ts|..])) + multiset{p}
  {
    assert ts[|ts|..] == [] && Addrs(ts[|ts|..]) == [];
  }

  /** The best fit is so large that the rest to split off reaches the mmap threshold; sfree
      will then take that rest for a mapping. */
  ghost predicate SplitsTooMuch(ts: seq<Tile>, size: int) {
    exists k :: BestFit(ts, k, size) && ts[k].size >= size + 2 * SOM + MMAP_THRESHOLD
  }

  lemma BestFitUnique(ts: seq<Tile>, k: int, l: int, size: int)
    requires BestFit(ts, k, size) && BestFit(ts, l, size)
    ensures k == l
  {
  }

  /** May the kernel map n bytes at a? */
  predicate MapClear(start: int, brk: int, mp: seq<Tile>, a: int, n: int) {
    && 0 < a && a + n < TWO64 && (a + n <= start || brk <= a)
    && forall j :: 0 <= j < |mp| ==> MapEnd(mp[j]) <= a || a + n <= mp[j].addr
  }

  lemma MapAdded(m0: Memory, m1: Memory, m2: Memory, head: int, o: seq<int>, start: int, brk: int, ts: seq<Tile>,
                 mp: seq<Tile>,
                 t: Tile)
    requires HeapOK(m0, head, o, start, brk, ts) && MappedOK(m0, start, brk, mp)
    requires MapClear(start, brk, mp, t.addr, SOM + t.size) && t.size >= MMAP_THRESHOLD && !t.free
    requires Stored(m0, m1, t.addr, t.size) && Stored(m1, m2, t.addr + 8, 0)
    ensures HeapOK(m2, head, o, start, brk, ts) && MappedOK(m2, start, brk, mp + [t])
    ensures OthersKept(m0, m2, ts, mp, -1, -1) && Frame(m0, m2, t.addr, MapEnd(t), [])
  {
    hide HeapOK, BytesKept;
    assert Records(m2.words, t.addr, t);
    assert Frame(m0, m2, t.addr, MapEnd(t), []) by {
      assert forall y :: WordClear(y, t.addr, MapEnd(t), []) ==> y + 8 <= t.addr || MapEnd(t) <= y;
      assert forall y :: ByteClear(y, t.addr, MapEnd(t), []) ==> y < t.addr || MapEnd(t) <= y;
    }
    HeapElsewhere(m0, m2, head, o, start, brk, ts, t.addr, MapEnd(t));
    forall j | 0 <= j < |mp| ensures Records(m2.words, mp[j].addr, mp[j])
      && BytesKept(m0, m2, Payload(mp[j]), mp[j].size) {
      hide Frame, Stored;
      MapKept(m0, m2, start, brk, mp[j], t.addr, MapEnd(t), []);
    }
  }

  lemma MapTotal(mp: seq<Tile>, t: Tile)
    requires !t.free
    ensures Totals(mp + [t]) == Plus(Totals(mp), Stats(1, 0, t.size, 0, 2 * SOM))
  {
    TotalsConcat(mp, [t]);
    TotalsFew(t, t);
  }

  lemma NoBlocks(m: Memory, head: int, o: seq<int>, start: int, brk: int)
    requires HeapOK(m, head, o, start, brk, [])
    ensures o == [] && 0 < brk == start && Apart(o) && Linked(m.words, head, o) && Sorted(m.words, o)
  {
  }

  lemma OneMember(o: seq<int>, p: int)
    requires multiset(o) == multiset([]) + multiset{p}
    ensures o == [p]
  {
    assert |multiset(o)| == 1;
    assert o[0] in multiset(o);
  }

  lemma ReuseFacts(start: int, brk: int, ts: seq<Tile>, k: int, size: nat)
    requires Tiled(start, brk, ts) && BestFit(ts, k, size)
    ensures 0 <= k < |ts| && ts[k].free && 0 < ts[k].addr
    ensures SplitsTooMuch(ts, size) <==> ts[k].size >= size + 2 * SOM + MMAP_THRESHOLD
    ensures ts != [] && |Served(ts, k, size)| > k && Served(ts, k, size)[k].addr == ts[k].addr
  {
  }

  /** The block handed out: live, large enough, and not wastefully large. */
  lemma ServedBlock(start: int, brk: int, ts: seq<Tile>, k: int, size: nat)
    requires Tiled(start, brk, ts) && 0 <= k < |ts| && FitsTile(ts[k], size)
    ensures var s := Served(ts, k, size);
      |s| > k && s[k].addr == ts[k].addr && !s[k].free && size <= s[k].size < size + 2 * SOM + MIN_SPLIT_SIZE
  {
  }

  lemma NoFitNoSplit(ts: seq<Tile>, size: int)
    requires NoFit(ts, size)
    ensures !SplitsTooMuch(ts, size)
  {
  }

  lemma LastFlag(m: Memory, head: int, o: seq<int>, start: int, brk: int, ts: seq<Tile>, w: int)
    requires HeapOK(m, head, o, start, brk, ts) && WildOK(ts, w)
    ensures ts == [] <==> w == NULL
    ensures ts != [] ==> w + 8 in m.words && (m.words[w + 8] != 0 <==> ts[|ts| - 1].free)
    ensures 0 < brk
  {
  }

  /** The last block was taken out of the list, written anew with more room, and put back. */
  lemma LastGrown(m0: Memory, m2: Memory, o0: seq<int>, head2: int, o2: seq<int>, start: int, brk: int, brk2: int,
                  ts: seq<Tile>, mp: seq<Tile>, t: Tile, s: Stats, base: Stats)
    requires Tiled(start, brk, ts) && CellsOK(m0.words, ts) && multiset(o0) == multiset(Addrs(ts)) && NoFreePair(ts)
    requires ts != [] && ts[|ts| - 1].free && !t.free && t.addr == ts[|ts| - 1].addr && t.size >= ts[|ts| - 1].size
    requires End(t) == brk2 && MappedOK(m0, start, brk2, mp) && Frame(m0, m2, t.addr, brk2, o0)
    requires TileCells(m2.words, t) && Apart(o2) && Linked(m2.words, head2, o2) && Sorted(m2.words, o2)
    requires multiset(o2) == multiset(o0) && s == Plus(Totals(ts), base)
    ensures var n, ts2 := |ts| - 1, ts[..|ts| - 1] + [t];
      && HeapOK(m2, head2, o2, start, brk2, ts2) && MappedOK(m2, start, brk2, mp) && OthersKept(m0, m2, ts, mp, n, -1)
      && |ts2| == |ts| && NoFreePair(ts2) && WildOK(ts2, t.addr)
      && Plus(s, Stats(0, -1, t.size - ts[n].size, -(ts[n].size as int), 0)) == Plus(Totals(ts2), base)
  {
    hide Tiled, CellsOK, Apart, Linked, Sorted, HeapOK, MappedOK, OthersKept, Frame, TileCells, NoFreePair, Totals,
         WildOK, Plus, Count, Addrs;
    var n := |ts| - 1;
    StartAfter(start, brk, ts, n);
    GrowMembers(ts, o0, o2, t.addr);
    TailRebuilt(m0, m2, o0, head2, o2, start, brk, brk2, ts, mp, n, t);
    TailNoPair(ts, n, t);
    TailTotals(ts, n, t);
    GrowCounts(s, Totals(ts), Totals(ts[..n] + [t]), base, ts[n], t);
    LastIsWild(ts[..n], t);
  }

  /** How far smalloc asks the kernel to move the break when no free block fits. */
  ghost function Need(ts: seq<Tile>, size: nat): int {
    if ts != [] && ts[|ts| - 1].free then size - ts[|ts| - 1].size else size + 2 * SOM
  }

  lemma AppendNeeds(ts: seq<Tile>, size: nat)
    requires ts == [] || !ts[|ts| - 1].free
    ensures Need(ts, size) == size + 2 * SOM
  {
  }

  /** The counters after a new live block t was put at the end. */
  lemma AppendCounts(s: Stats, a: Stats, b: Stats, t: Tile)
    requires s == Plus(a, b) && !t.free
    ensures Plus(s, Stats(1, 0, t.size, 0, 2 * SOM)) == Plus(Plus(a, Count(t)), b)
  {
  }

  /** The counters after the last block was taken and grown. */
  lemma GrowCounts(s: Stats, a: Stats, a2: Stats, b: Stats, was: Tile, t: Tile)
    requires s == Plus(a, b) && Plus(a2, Count(was)) == Plus(a, Count(t)) && was.free && !t.free
    ensures Plus(s, Stats(0, -1, t.size - was.size, -(was.size as int), 0)) == Plus(a2, b)
  {
  }

  /** The last block, free but too small, seen through the wilderness pointer. */
  lemma LastTooSmall(o: seq<int>, start: int, brk: int, ts: seq<Tile>, w: int, size: nat)
    requires Tiled(start, brk, ts) && multiset(o) == multiset(Addrs(ts)) && WildOK(ts, w)
    requires NoFit(ts, size) && ts != [] && ts[|ts| - 1].free
    ensures var n := |ts| - 1;
      && w == ts[n].addr == StartOf(ts, n, brk) && 0 < w && w in o
      && size > ts[n].size && Need(ts, size) == size - ts[n].size && brk == w + ts[n].size + 2 * SOM
    ensures forall x :: x in o && x != w ==> x + SOM <= w
    ensures var t := Tile(w, size, false);
      End(t) == w + size + 2 * SOM && Payload(t) == w + SOM && Footer(t) == w + size + SOM
  {
    hide Tiled, Addrs;
    var n := |ts| - 1;
    assert !FitsTile(ts[n], size);
    HeadersAround(o, start, brk, ts, n);
    HeadersInHeap(o, start, brk, ts);
    StartAfter(start, brk, ts, n);
  }

  /** The room behind the last block is free of headers. */
  lemma RoomAtEnd(o: seq<int>, start: int, brk: int, ts: seq<Tile>, p: int, size: nat)
    requires Tiled(start, brk, ts) && multiset(o) == multiset(Addrs(ts)) && p == brk
    ensures 0 < p && ApartFrom(p, o) && p == StartOf(ts, |ts|, brk) && size + 2 * SOM >= 0
    ensures forall x :: x in o ==> x + SOM <= p
    ensures End(Tile(p, size, false)) == p + size + 2 * SOM && ts[..|ts|] == ts
  {
    HeadersInHeap(o, start, brk, ts);
    EndsBefore(start, brk, ts, |ts|);
  }

  lemma LastIsWild(ts: seq<Tile>, t: Tile)
    ensures WildOK(ts + [t], t.addr)
  {
  }

  /** smalloc gets no memory for a request of size bytes (already rounded). */
  ghost predicate Refused(ts: seq<Tile>, mp: seq<Tile>, start: int, brk: int, size: nat, ker: Kernel) {
    if size < MMAP_THRESHOLD then NoFit(ts, size) && !Granted(brk, Need(ts, size), start, mp, ker)
    else !MapClear(start, brk, mp, ker.place, SOM + size)
  }

  lemma FitIsNotNone(ts: seq<Tile>, k: int, size: nat)
    requires BestFit(ts, k, size)
    ensures !NoFit(ts, size)
  {
  }

  lemma RefusedBelow(ts: seq<Tile>, mp: seq<Tile>, start: int, brk: int, size: nat, ker: Kernel)
    requires size < MMAP_THRESHOLD
    ensures Refused(ts, mp, start, brk, size, ker) <==>
      NoFit(ts, size) && !Granted(brk, Need(ts, size), start, mp, ker)
  {
    hide NoFit, Granted, Need;
  }

  lemma RefusedAbove(ts: seq<Tile>, mp: seq<Tile>, start: int, brk: int, size: nat, ker: Kernel)
    requires size >= MMAP_THRESHOLD
    ensures Refused(ts, mp, start, brk, size, ker) <==> !MapClear(start, brk, mp, ker.place, SOM + size)
  {
    hide NoFit, Granted, Need, MapClear;
  }

  lemma ServedByMapping(how: Service, ts: seq<Tile>, mp: seq<Tile>, brk: int, size: nat,
                        ts2: seq<Tile>, mp2: seq<Tile>, brk2: int, at: Place, lo: int, hi: int)
    requires Serves(how, ts, mp, brk, size, ts2, mp2, brk2, at, lo, hi) && size >= MMAP_THRESHOLD
    ensures ts2 == ts && mp2 == mp + [Tile(lo, size, false)] && brk2 == brk && at == InMap(|mp|)
    ensures Payload(Tile(lo, size, false)) == lo + SOM
  {
    hide NoFit, BestFit, Served;
  }

  /** The three ways a request below the threshold is served. */
  lemma ServesReuse(start: int, brk: int, ts: seq<Tile>, mp: seq<Tile>, k: int, size: nat)
    requires Tiled(start, brk, ts) && BestFit(ts, k, size) && size < MMAP_THRESHOLD
    ensures 0 <= k < |ts| && ts[k].free && |Served(ts, k, size)| > k
    ensures SplitsTooMuch(ts, size) <==>
      ts[k].size >= size + 2 * SOM + MIN_SPLIT_SIZE && HighPart(ts[k], size).size >= MMAP_THRESHOLD
    ensures Serves(Reuse(k), ts, mp, brk, size, Served(ts, k, size), mp, brk, InHeap(k), ts[k].addr, End(ts[k]))
    ensures Payload(Served(ts, k, size)[k]) == ts[k].addr + SOM && Ptr(ts[k].addr + SOM) != Ptr(NULL)
  {
    hide BestFit, Served, SplitsTooMuch, Tiled;
    ReuseFacts(start, brk, ts, k, size);
  }

  lemma ServesGrow(ts: seq<Tile>, mp: seq<Tile>, brk: int, size: nat, p: int)
    requires size < MMAP_THRESHOLD && NoFit(ts, size) && ts != [] && ts[|ts| - 1].free && 0 < p == ts[|ts| - 1].addr
    ensures var n, ts2, hi := |ts| - 1, ts[..|ts| - 1] + [Tile(p, size, false)], p + size + 2 * SOM;
      && Serves(Grow, ts, mp, brk, size, ts2, mp, hi, InHeap(n), p, hi)
      && |ts2| == |ts| && Payload(ts2[n]) == p + SOM && Ptr(p + SOM) != Ptr(NULL)
  {
    hide NoFit;
  }

  lemma ServesAppend(ts: seq<Tile>, mp: seq<Tile>, brk: int, size: nat, p: int)
    requires size < MMAP_THRESHOLD && NoFit(ts, size) && (ts == [] || !ts[|ts| - 1].free) && 0 < p == brk
    ensures var n, ts2, hi := |ts|, ts + [Tile(p, size, false)], p + size + 2 * SOM;
      && Serves(Append, ts, mp, brk, size, ts2, mp, hi, InHeap(n), p, hi)
      && |ts2| == n + 1 && Payload(ts2[n]) == p + SOM && Ptr(p + SOM) != Ptr(NULL)
  {
    hide NoFit;
  }

  /** Serving a request from the heap leaves a heap with blocks in it; mapping leaves the break. */
  lemma ServesStart(ts: seq<Tile>, mp: seq<Tile>, brk: int, how: Service, size: nat,
                    ts2: seq<Tile>, mp2: seq<Tile>, brk2: int, at: Place, lo: int, hi: int)
    requires Serves(how, ts, mp, brk, size, ts2, mp2, brk2, at, lo, hi)
    ensures ts2 == [] ==> ts == [] && brk2 == brk
  {
  }

  lemma SomethingLeft(ts: seq<Tile>, k: int, size: nat)
    requires 0 <= k < |ts|
    ensures |Served(ts, k, size)| > 0 && |Freed(ts, k)| > 0
  {
  }
}
