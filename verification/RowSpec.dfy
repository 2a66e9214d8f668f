/** One call of the allocator as a step from row to row: what it makes of the blocks, the
    mappings and the break, and when it leaves the heap aligned. */
module RowSpec {
  import opened Memory
  import opened Tiling
  import opened BlockListModel
  import opened HeapSpec
  import opened RequestSpec
  import opened ReallocSpec
  import opened Survival
  import opened Guarantees
  import opened SizeArithmetic

  /** All of the allocator's state but the contents of memory and the counters. */
  datatype Row = Row(tiles: seq<Tile>, mapped: seq<Tile>, wilderness: int, start: int, brk: int)

  ghost predicate RowOK(v: Row) {
    Tiled(v.start, v.brk, v.tiles) && Ordered(v.tiles) && WildOK(v.tiles, v.wilderness)
  }

  /** smalloc(n) answers p and makes v into v2. */
  ghost predicate Requested(v: Row, n: nat, ker: Kernel, p: int, v2: Row) {
    && (p == NULL <==> n == 0 || n > MAX_REQUEST || Refused(v.tiles, v.mapped, v.start, v.brk, RoundUp(n), ker))
    && v2.start == v.start
    && if p == NULL then v2.tiles == v.tiles && v2.mapped == v.mapped && v2.brk == v.brk
       else Obtained(v, RoundUp(n), ker, p, v2)
  }

  ghost predicate Obtained(v: Row, size: nat, ker: Kernel, p: int, v2: Row) {
    && (size >= MMAP_THRESHOLD ==> p == ker.place + SOM)
    && exists how, at, lo, hi ::
         Serves(how, v.tiles, v.mapped, v.brk, size, v2.tiles, v2.mapped, v2.brk, at, lo, hi) && p == lo + SOM
  }

  lemma ObtainedBy(v: Row, size: nat, ker: Kernel, p: int, v2: Row, how: Service, at: Place, lo: int, hi: int)
    requires Serves(how, v.tiles, v.mapped, v.brk, size, v2.tiles, v2.mapped, v2.brk, at, lo, hi) && p == lo + SOM
    requires size >= MMAP_THRESHOLD ==> lo == ker.place
    ensures Obtained(v, size, ker, p, v2)
  {
    hide Serves;
  }

  /** The place is a live block of the row. */
  ghost predicate LiveIn(v: Row, p: int, at: Place) {
    match at
    case Nothing => false
    case InHeap(k) => 0 <= k < |v.tiles| && !v.tiles[k].free && p == Payload(v.tiles[k])
    case InMap(j) => 0 <= j < |v.mapped| && p == Payload(v.mapped[j])
  }

  ghost predicate PlaceOK(v: Row, at: Place) {
    (at.InHeap? && 0 <= at.k < |v.tiles| && !v.tiles[at.k].free) || (at.InMap? && 0 <= at.j < |v.mapped|)
  }

  ghost function SizeAt(v: Row, at: Place): nat
    requires PlaceOK(v, at)
  {
    if at.InHeap? then v.tiles[at.k].size else v.mapped[at.j].size
  }

  ghost function VerdictIn(v: Row, at: Place, n: nat, ker1: Kernel, ker2: Kernel): Verdict
    requires RowOK(v) && PlaceOK(v, at)
  {
    ReallocVerdict(v.tiles, v.mapped, v.wilderness, v.start, v.brk, at, n, ker1, ker2)
  }

  /** srealloc of heap block k finds room around it. */
  ghost predicate GrowsInPlace(v: Row, k: int, n: nat, ker1: Kernel)
    requires RowOK(v) && 0 <= k < |v.tiles|
  {
    var fate := Fate(v.tiles, k, RoundUp(n), v.wilderness, v.brk, v.start, v.mapped, ker1);
    WayFits(v.tiles, k, WayOf(v.tiles, k, RoundUp(n), v.wilderness)) && fate.Ptr? && fate.p != NULL
  }

  /** Heap block k was merged as its way says and then cut to n bytes. */
  ghost predicate InPlaceResult(v: Row, k: int, n: nat, v2: Row)
    requires 0 <= k < |v.tiles|
  {
    var way := WayOf(v.tiles, k, RoundUp(n), v.wilderness);
    && WayFits(v.tiles, k, way) && v2.start == v.start && v2.mapped == v.mapped
    && v2.tiles == Trimmed(Resized(v.tiles, k, way, RoundUp(n)), From(way, k), n)
    && v2.brk == v.brk + Growth(v.tiles, k, way, RoundUp(n))
  }

  lemma InPlaceIs(v: Row, k: int, n: nat, v2: Row)
    requires 0 <= k < |v.tiles| && WayFits(v.tiles, k, WayOf(v.tiles, k, RoundUp(n), v.wilderness))
    requires v2.start == v.start && v2.mapped == v.mapped
    requires var way := WayOf(v.tiles, k, RoundUp(n), v.wilderness);
      && 0 <= From(way, k) < |Resized(v.tiles, k, way, RoundUp(n))|
      && v2.tiles == Trimmed(Resized(v.tiles, k, way, RoundUp(n)), From(way, k), n)
      && v2.brk == v.brk + Growth(v.tiles, k, way, RoundUp(n))
    ensures InPlaceResult(v, k, n, v2)
  {
    hide WayOf, WayFits, Trimmed, Resized, Growth, RoundUp;
  }

  /** srealloc to n bytes of the live block at the place answers p and makes v into v2. */
  ghost predicate Resizes(v: Row, at: Place, n: nat, ker1: Kernel, ker2: Kernel, p: int, v2: Row)
    requires RowOK(v) && PlaceOK(v, at)
  {
    && v2.start == v.start
    && if SizeAt(v, at) >= n then
         && p == (if at.InHeap? then Payload(v.tiles[at.k]) else Payload(v.mapped[at.j]))
         && v2.tiles == (if at.InHeap? then Trimmed(v.tiles, at.k, n) else v.tiles) && v2.mapped == v.mapped
         && v2.brk == v.brk
       else if at.InMap? then
         && p == ker1.place + SOM && v2.tiles == v.tiles && v2.brk == v.brk
         && v2.mapped == Drop(v.mapped + [Tile(ker1.place, RoundUp(n), false)], at.j)
       else if GrowsInPlace(v, at.k, n, ker1) then
         && p == Payload(v.tiles[From(WayOf(v.tiles, at.k, RoundUp(n), v.wilderness), at.k)])
         && InPlaceResult(v, at.k, n, v2)
       else
         Obtained(v.(tiles := Freed(v.tiles, at.k)), RoundUp(n), ker2, p, v2)
  }

  /** The outcome is the one the verdict announces. */
  ghost predicate Agrees(verdict: Verdict, r: Outcome) {
    match verdict
    case Fine => r.Ptr? && r.p != NULL
    case Hazardous(why) => r == Stuck(why)
  }

  lemma AgreesWhenFine(verdict: Verdict, r: Outcome)
    requires Agrees(verdict, r)
    ensures verdict.Fine? <==> r.Ptr?
    ensures r.Ptr? ==> r.p != NULL
  {
  }

  ghost function PointerTo(v: Row, at: Place): int
    requires PlaceOK(v, at)
  {
    if at.InHeap? then Payload(v.tiles[at.k]) else Payload(v.mapped[at.j])
  }

  // What each route of srealloc means for verdict, counters, wilderness and row.

  lemma DownMeans(v: Row, at: Place, n: nat, ker1: Kernel, ker2: Kernel, r: Outcome, v2: Row)
    requires RowOK(v) && PlaceOK(v, at) && SizeAt(v, at) >= n && PointerTo(v, at) != NULL
    requires var s := SizeAt(v, at);
      r == if at.InMap? && s >= n + 2 * SOM + MIN_SPLIT_SIZE then Stuck(SplitsMapping)
           else if at.InHeap? && s >= n + 2 * SOM + MMAP_THRESHOLD then Stuck(UnmapsHeap)
           else Ptr(PointerTo(v, at))
    requires v2.start == v.start && v2.brk == v.brk
    requires r.Ptr? ==>
      v2.mapped == v.mapped && v2.tiles == if at.InHeap? then Trimmed(v.tiles, at.k, n) else v.tiles
    ensures Agrees(VerdictIn(v, at, n, ker1, ker2), r)
    ensures Miscount(v.tiles, v.mapped, v.wilderness, v.start, v.brk, at, n, ker1) == ZERO
    ensures !Forgets(v.tiles, v.wilderness, at, n)
    ensures r.Ptr? ==> Resizes(v, at, n, ker1, ker2, r.p, v2)
  {
    hide Tiled, WildOK, Ordered, Trimmed, WayOf, Fate, Target, Forgotten, Obtained, GrowsInPlace, InPlaceResult;
  }

  lemma MappingMeans(v: Row, at: Place, n: nat, ker1: Kernel, ker2: Kernel, r: Outcome, v2: Row)
    requires RowOK(v) && PlaceOK(v, at) && MMAP_THRESHOLD <= SizeAt(v, at) < n
    requires r == if !MapClear(v.start, v.brk, v.mapped, ker1.place, SOM + RoundUp(n)) then Stuck(NullCopy)
                  else if at.InHeap? then Stuck(UnmapsHeap) else Ptr(ker1.place + SOM)
    requires r.Ptr? ==> r.p != NULL && v2.start == v.start && v2.brk == v.brk && v2.tiles == v.tiles
                        && v2.mapped == Drop(v.mapped + [Tile(ker1.place, RoundUp(n), false)], at.j)
    ensures Agrees(VerdictIn(v, at, n, ker1, ker2), r)
    ensures Miscount(v.tiles, v.mapped, v.wilderness, v.start, v.brk, at, n, ker1) == ZERO
    ensures !Forgets(v.tiles, v.wilderness, at, n)
    ensures r.Ptr? ==> Resizes(v, at, n, ker1, ker2, r.p, v2)
  {
    hide Tiled, WildOK, Ordered, WayOf, Fate, Target, Forgotten, Obtained, GrowsInPlace, InPlaceResult, MapClear,
         RoundUp;
  }

  lemma InPlaceMeans(v: Row, at: Place, n: nat, ker1: Kernel, ker2: Kernel, r: Outcome, v2: Row)
    requires RowOK(v) && PlaceOK(v, at) && at.InHeap? && SizeAt(v, at) < n && SizeAt(v, at) < MMAP_THRESHOLD
    requires var fate := Fate(v.tiles, at.k, RoundUp(n), v.wilderness, v.brk, v.start, v.mapped, ker1);
      var way := WayOf(v.tiles, at.k, RoundUp(n), v.wilderness);
      r == if fate.Stuck? || fate.p == NULL then fate
           else if WayFits(v.tiles, at.k, way)
             && Target(v.tiles, at.k, way, RoundUp(n)).size >= n + 2 * SOM + MMAP_THRESHOLD
           then Stuck(UnmapsHeap)
           else fate
    requires r.Ptr? && r.p != NULL ==> InPlaceResult(v, at.k, n, v2)
    ensures r != Ptr(NULL) ==> Agrees(VerdictIn(v, at, n, ker1, ker2), r)
    ensures Miscount(v.tiles, v.mapped, v.wilderness, v.start, v.brk, at, n, ker1)
            == if r == Ptr(NULL) && WayOf(v.tiles, at.k, RoundUp(n), v.wilderness) == Wild
               then Stats(0, 0, RoundUp(n) - v.tiles[at.k].size, 0, 0) else ZERO
    ensures Forgets(v.tiles, v.wilderness, at, n) <==>
      Forgotten(v.tiles, at.k, WayOf(v.tiles, at.k, RoundUp(n), v.wilderness), RoundUp(n), n)
    ensures r.Ptr? && r.p != NULL ==> Resizes(v, at, n, ker1, ker2, r.p, v2)
  {
    hide Tiled, WildOK, Ordered, WayOf, Fate, Target, Forgotten, Obtained, RoundUp, WayFits, GrowsInPlace;
    OnlyPlaceLeft(v, at, n, ker1, ker2);
    InPlaceStart(v, at.k, n, v2);
  }

  lemma InPlaceStart(v: Row, k: int, n: nat, v2: Row)
    requires 0 <= k < |v.tiles|
    ensures InPlaceResult(v, k, n, v2) ==> v2.start == v.start
  {
    hide WayOf, WayFits, Trimmed, Resized, Growth;
  }

  lemma MoveMeans(v: Row, at: Place, n: nat, ker1: Kernel, ker2: Kernel, r: Outcome, v2: Row)
    requires RowOK(v) && PlaceOK(v, at) && at.InHeap? && SizeAt(v, at) < n && SizeAt(v, at) < MMAP_THRESHOLD
    requires Fate(v.tiles, at.k, RoundUp(n), v.wilderness, v.brk, v.start, v.mapped, ker1) == Ptr(NULL)
    requires r.Stuck? ==> r.why == UnmapsHeap || r.why == NullCopy
    requires r == Stuck(UnmapsHeap) <==>
      RoundUp(n) < MMAP_THRESHOLD && SplitsTooMuch(Freed(v.tiles, at.k), RoundUp(n))
    requires r == Stuck(NullCopy) <==> Refused(Freed(v.tiles, at.k), v.mapped, v.start, v.brk, RoundUp(n), ker2)
    requires r.Ptr? ==> r.p != NULL && v2.start == v.start
    requires r.Ptr? ==> Obtained(v.(tiles := Freed(v.tiles, at.k)), RoundUp(n), ker2, r.p, v2)
    ensures Agrees(VerdictIn(v, at, n, ker1, ker2), r)
    ensures r.Ptr? ==> Resizes(v, at, n, ker1, ker2, r.p, v2)
  {
    hide Tiled, WildOK, Ordered, WayOf, Fate, Target, Forgotten, Obtained, RoundUp, WayFits, GrowsInPlace, Freed,
         SplitsTooMuch, Refused;
    OnlyPlaceLeft(v, at, n, ker1, ker2);
  }

  /** What the outcome of tryMergeRealloc means for the step. */
  lemma OnlyPlaceLeft(v: Row, at: Place, n: nat, ker1: Kernel, ker2: Kernel)
    requires RowOK(v) && PlaceOK(v, at) && at.InHeap? && SizeAt(v, at) < n
    ensures var fate := Fate(v.tiles, at.k, RoundUp(n), v.wilderness, v.brk, v.start, v.mapped, ker1);
      && (fate == Ptr(NULL) ==> !GrowsInPlace(v, at.k, n, ker1))
      && (fate.Ptr? && fate.p != NULL ==>
            && GrowsInPlace(v, at.k, n, ker1)
            && fate.p == Payload(v.tiles[From(WayOf(v.tiles, at.k, RoundUp(n), v.wilderness), at.k)]))
  {
    hide WayOf, Fate, Tiled, Target;
    var fate := Fate(v.tiles, at.k, RoundUp(n), v.wilderness, v.brk, v.start, v.mapped, ker1);
    if fate.Ptr? && fate.p != NULL {
      FateTarget(v.start, v.brk, v.tiles, at.k, RoundUp(n), v.wilderness, v.mapped, ker1);
      TargetPlace(v.tiles, at.k, WayOf(v.tiles, at.k, RoundUp(n), v.wilderness), RoundUp(n));
    }
  }

  /** No call but the first request gives the heap its start. */
  lemma ResizesStart(v: Row, at: Place, n: nat, ker1: Kernel, ker2: Kernel, p: int, v2: Row)
    requires RowOK(v) && PlaceOK(v, at) && Resizes(v, at, n, ker1, ker2, p, v2)
    ensures v2.tiles == [] ==> v.tiles == [] && v2.brk == v.brk
  {
    hide Tiled, Serves, Freed, Trimmed, Resized, WayOf, Fate, Growth;
    if at.InHeap? {
      SomeTrimmed(v.tiles, at.k, n);
      if SizeAt(v, at) < n && GrowsInPlace(v, at.k, n, ker1) {
        var way := WayOf(v.tiles, at.k, RoundUp(n), v.wilderness);
        TargetAt(v.tiles, at.k, way, RoundUp(n));
        TakenLeftmost(v.tiles, at.k, way);
        SomeTrimmed(Resized(v.tiles, at.k, way, RoundUp(n)), From(way, at.k), n);
      } else if SizeAt(v, at) < n {
        SomethingLeft(v.tiles, at.k, n);
        var how, at2, lo, hi :|
          Serves(how, Freed(v.tiles, at.k), v.mapped, v.brk, RoundUp(n), v2.tiles, v2.mapped, v2.brk, at2, lo, hi)
          && p == lo + SOM;
        ServesStart(Freed(v.tiles, at.k), v.mapped, v.brk, how, RoundUp(n), v2.tiles, v2.mapped, v2.brk, at2, lo, hi);
      }
    }
  }

  lemma SomeTrimmed(ts: seq<Tile>, k: int, n: nat)
    requires 0 <= k < |ts|
    ensures Trimmed(ts, k, n) != []
  {
  }

  lemma TakenLeftmost(ts: seq<Tile>, k: int, way: Way)
    requires WayFits(ts, k, way)
    ensures 0 <= From(way, k) < |ts|
  {
  }

  // Alignment.

  ghost predicate OnEights(v: Row) { Aligned(v.tiles) && v.brk % 8 == 0 }

  /** Cutting an aligned block keeps alignment exactly if nothing is cut, or a multiple of 8. */
  lemma TrimmedAlignedExactly(start: int, brk: int, ts: seq<Tile>, k: int, n: nat)
    requires Tiled(start, brk, ts) && Aligned(ts) && 0 <= k < |ts| && !ts[k].free && ts[k].size >= n
    ensures Aligned(Trimmed(ts, k, n)) <==> (Trims(ts[k], n) ==> n % 8 == 0)
  {
    hide Aligned, Tiled;
    if n % 8 == 0 || !Trims(ts[k], n) {
      if n % 8 == 0 { TrimmedAligned(ts, k, n); }
    } else {
      SplitRemainder(ts, k, n);
      LowIsNotAligned(Trimmed(ts, k, n), k);
    }
  }

  lemma LowIsNotAligned(ts: seq<Tile>, k: int)
    requires 0 <= k < |ts| && ts[k].size % 8 != 0
    ensures !Aligned(ts)
  {
  }

  /** The same for a merge and the cut that follows it. */
  lemma RegrownAlignedExactly(v: Row, k: int, n: nat)
    requires RowOK(v) && OnEights(v) && 0 <= k < |v.tiles| && !v.tiles[k].free && v.tiles[k].size < n
    requires WayOf(v.tiles, k, RoundUp(n), v.wilderness) != Alone
    ensures var way := WayOf(v.tiles, k, RoundUp(n), v.wilderness);
      && WayFits(v.tiles, k, way)
      && (v.brk + Growth(v.tiles, k, way, RoundUp(n))) % 8 == 0
      && (Aligned(Trimmed(Resized(v.tiles, k, way, RoundUp(n)), From(way, k), n)) <==>
            (Trims(Target(v.tiles, k, way, RoundUp(n)), n) ==> n % 8 == 0))
  {
    hide Aligned, Tiled, WayOf, Resized, Target, Growth, Room, Fate, Trimmed, Trims, WildOK, Ordered;
    RoundUpFacts(n);
    var size := RoundUp(n);
    var way := WayOf(v.tiles, k, size, v.wilderness);
    WayShape(v.start, v.brk, v.tiles, k, size, v.wilderness);
    ResizedAligned(v.start, v.brk, v.tiles, k, size, v.wilderness, v.mapped, Kernel(true, true, 0));
    TargetAt(v.tiles, k, way, size);
    TargetPlace(v.tiles, k, way, size);
    ResizedTiled(v, k, size);
    TrimmedAlignedExactly(v.start, v.brk + Growth(v.tiles, k, way, size), Resized(v.tiles, k, way, size),
                          From(way, k), n);
  }

  lemma ResizedTiled(v: Row, k: int, size: int)
    requires RowOK(v) && 0 <= k < |v.tiles| && !v.tiles[k].free && size > v.tiles[k].size
    requires WayOf(v.tiles, k, size, v.wilderness) != Alone
    ensures var way := WayOf(v.tiles, k, size, v.wilderness);
      && WayFits(v.tiles, k, way)
      && Tiled(v.start, v.brk + Growth(v.tiles, k, way, size), Resized(v.tiles, k, way, size))
  {
    hide Tiled, WayOf, Target, Growth, Room, Splice, WildOK, Ordered;
    var way := WayOf(v.tiles, k, size, v.wilderness);
    WayShape(v.start, v.brk, v.tiles, k, size, v.wilderness);
    var t := Target(v.tiles, k, way, size);
    CoversOne(t);
    SpliceTiled(v.start, v.brk, v.brk + Growth(v.tiles, k, way, size), v.tiles, From(way, k), To(way, k), [t], t.addr,
                End(t));
  }

  /** srealloc leaves an aligned heap unaligned exactly if it cuts a heap block to a size that is
      no multiple of 8. */
  ghost predicate LosesAlignment(v: Row, at: Place, n: nat, ker1: Kernel)
    requires RowOK(v) && PlaceOK(v, at)
  {
    && at.InHeap? && n % 8 != 0
    && if SizeAt(v, at) >= n then Trims(v.tiles[at.k], n)
       else GrowsInPlace(v, at.k, n, ker1)
            && Trims(Target(v.tiles, at.k, WayOf(v.tiles, at.k, RoundUp(n), v.wilderness), RoundUp(n)), n)
  }

  lemma ResizesAligned(v: Row, at: Place, n: nat, ker1: Kernel, ker2: Kernel, p: int, v2: Row)
    requires RowOK(v) && PlaceOK(v, at) && OnEights(v) && Resizes(v, at, n, ker1, ker2, p, v2)
    ensures OnEights(v2) <==> !LosesAlignment(v, at, n, ker1)
  {
    hide Aligned, Tiled, Serves, Freed, Trimmed, Resized, Target, Growth, Room, Fate, WayOf, Trims, Obtained;
    if SizeAt(v, at) >= n {
      if at.InHeap? { TrimmedAlignedExactly(v.start, v.brk, v.tiles, at.k, n); }
    } else if at.InHeap? && GrowsInPlace(v, at.k, n, ker1) {
      RegrownAlignedExactly(v, at.k, n);
    } else if at.InHeap? {
      FreedAligned(v.tiles, at.k);
      ObtainedOnEights(v.(tiles := Freed(v.tiles, at.k)), n, ker2, p, v2);
    }
  }

  lemma ObtainedOnEights(v: Row, n: nat, ker: Kernel, p: int, v2: Row)
    requires OnEights(v) && Obtained(v, RoundUp(n), ker, p, v2)
    ensures OnEights(v2)
  {
    hide Aligned, Serves;
    RoundUpFacts(n);
    var how, at, lo, hi :| Serves(how, v.tiles, v.mapped, v.brk, RoundUp(n), v2.tiles, v2.mapped, v2.brk, at, lo, hi)
                           && p == lo + SOM;
    ServesAligned(v.tiles, v.mapped, v.brk, how, RoundUp(n), v2.tiles, v2.mapped, v2.brk, at, lo, hi);
  }
}
