/** What one call, and a chain of calls, does to the blocks other than the one it is about. */
module Survival {
  import opened Memory
  import opened Tiling
  import opened BlockListModel
  import opened HeapSpec
  import opened RequestSpec
  import opened ReallocSpec
  import opened SizeArithmetic

  /** Every live block but the one at pointer skip is still there, unmoved and of the same size. */
  ghost predicate Survive(ts: seq<Tile>, mp: seq<Tile>, ts2: seq<Tile>, mp2: seq<Tile>, skip: int) {
    && (forall t :: t in ts && !t.free && Payload(t) != skip ==> t in ts2)
    && (forall t :: t in mp && Payload(t) != skip ==> t in mp2)
  }

  /** Every live block but the one at pointer skip keeps the bytes of its payload. */
  ghost predicate AllKept(m: Memory, m': Memory, ts: seq<Tile>, mp: seq<Tile>, skip: int) {
    && (forall t :: t in ts && !t.free && Payload(t) != skip ==> BytesKept(m, m', Payload(t), t.size))
    && (forall t :: t in mp && Payload(t) != skip ==> BytesKept(m, m', Payload(t), t.size))
  }

  lemma KeptByValue(m: Memory, m': Memory, ts: seq<Tile>, mp: seq<Tile>, k: int, j: int, skip: int)
    requires OthersKept(m, m', ts, mp, k, j)
    requires 0 <= k < |ts| ==> Payload(ts[k]) == skip || ts[k].free
    requires 0 <= j < |mp| ==> Payload(mp[j]) == skip
    ensures AllKept(m, m', ts, mp, skip)
  {
  }

  lemma KeptChain(m0: Memory, m1: Memory, m2: Memory, ts: seq<Tile>, mp: seq<Tile>, ts1: seq<Tile>, mp1: seq<Tile>,
                  skip: int, skip1: int)
    requires AllKept(m0, m1, ts, mp, skip) && AllKept(m1, m2, ts1, mp1, skip1) && Survive(ts, mp, ts1, mp1, skip)
    requires skip1 == skip || NotAt(ts, mp, skip, skip1)
    ensures AllKept(m0, m2, ts, mp, skip)
  {
  }

  lemma SurviveChain(ts: seq<Tile>, mp: seq<Tile>, ts1: seq<Tile>, mp1: seq<Tile>, ts2: seq<Tile>, mp2: seq<Tile>,
                     skip: int, skip1: int)
    requires Survive(ts, mp, ts1, mp1, skip) && Survive(ts1, mp1, ts2, mp2, skip1)
    requires skip1 == skip || NotAt(ts, mp, skip, skip1)
    ensures Survive(ts, mp, ts2, mp2, skip)
  {
  }

  /** Pointer p is none of the live blocks, skip apart. */
  ghost predicate NotAt(ts: seq<Tile>, mp: seq<Tile>, skip: int, p: int) {
    && (forall t :: t in ts && !t.free && Payload(t) != skip ==> Payload(t) != p)
    && (forall t :: t in mp && Payload(t) != skip ==> Payload(t) != p)
  }

  lemma SpliceHas(ts: seq<Tile>, i: int, j: int, mid: seq<Tile>, x: int)
    requires 0 <= i <= j <= |ts| && 0 <= x < |ts| && (x < i || j <= x)
    ensures ts[x] in Splice(ts, i, j, mid)
  {
  }

  /** Whatever replaces blocks of which only block k is live loses no other live block. */
  lemma SpliceSurvives(ts: seq<Tile>, mp: seq<Tile>, i: int, j: int, mid: seq<Tile>, k: int, skip: int)
    requires 0 <= i <= j <= |ts| && (forall x :: i <= x < j && x != k ==> ts[x].free)
    requires 0 <= k < |ts| ==> Payload(ts[k]) == skip || ts[k].free
    ensures Survive(ts, mp, Splice(ts, i, j, mid), mp, skip)
  {
  }

  lemma FreedSurvives(ts: seq<Tile>, mp: seq<Tile>, k: int)
    requires 0 <= k < |ts|
    ensures Survive(ts, mp, Freed(ts, k), mp, Payload(ts[k]))
  {
  }

  lemma SplitSurvives(ts: seq<Tile>, mp: seq<Tile>, k: int, size: nat)
    requires 0 <= k < |ts| && ts[k].size >= size + 2 * SOM
    ensures Survive(ts, mp, SplitAt(ts, k, size), mp, Payload(ts[k]))
  {
    hide Splice, Freed;
    var l, h, c := LowPart(ts[k], size), HighPart(ts[k], size), Cut(ts, k, size);
    SpliceSurvives(ts, mp, k, k + 1, [l, h], k, Payload(ts[k]));
    FreedSurvives(c, mp, k + 1);
    forall t | t in ts && !t.free && Payload(t) != Payload(ts[k]) ensures t in SplitAt(ts, k, size) {
      var x :| 0 <= x < |ts| && ts[x] == t;
      assert t in c;
      CutKeepsOthers(ts, k, size, x);
    }
  }

  lemma CutKeepsOthers(ts: seq<Tile>, k: int, size: nat, x: int)
    requires 0 <= k < |ts| && ts[k].size >= size + 2 * SOM && 0 <= x < |ts| && x != k && !ts[x].free
    ensures ts[x] in SplitAt(ts, k, size)
  {
    hide JoinSize;
    var c := Cut(ts, k, size);
    var f := SetFlag(c, k + 1, true);
    var y := if x < k then x else x + 1;
    assert f[y] == ts[x];
    assert y < JoinFrom(f, k + 1) || JoinTo(f, k + 1) <= y;
    SpliceHas(f, JoinFrom(f, k + 1), JoinTo(f, k + 1), [Merged(f, k + 1)], y);
  }

  lemma TrimSurvives(ts: seq<Tile>, mp: seq<Tile>, k: int, size: nat)
    requires 0 <= k < |ts|
    ensures Survive(ts, mp, Trimmed(ts, k, size), mp, Payload(ts[k]))
  {
    hide SplitAt;
    if Trims(ts[k], size) { SplitSurvives(ts, mp, k, size); }
  }

  /** Serving a request disturbs no live block, and the new one lies where none was. */
  lemma ServesSurvives(start: int, brk: int, m: Memory, m2: Memory, ts: seq<Tile>, mp: seq<Tile>, how: Service,
                       size: nat,
                       ts2: seq<Tile>, mp2: seq<Tile>, brk2: int, at: Place, lo: int, hi: int, skip: int)
    requires Tiled(start, brk, ts) && MappedOK(m, start, brk, mp)
    requires Serves(how, ts, mp, brk, size, ts2, mp2, brk2, at, lo, hi)
    requires MappedOK(m2, start, brk2, mp2)
    ensures Survive(ts, mp, ts2, mp2, skip) && NotAt(ts, mp, skip, lo + SOM)
  {
    hide Served, BestFit, Tiled;
    OrderedOf(start, brk, ts);
    match how
    case Reuse(k) => ReuseSurvives(start, brk, m, ts, mp, k, size, skip);
    case Grow => TailSurvives(start, brk, brk2, m2, ts, mp, |ts| - 1, lo, skip);
    case Append => TailSurvives(start, brk, brk2, m2, ts, mp, |ts|, lo, skip);
    case MapAnew => MapSurvives(start, brk, m2, ts, mp, lo, size, skip);
  }

  lemma ReuseSurvives(start: int, brk: int, m: Memory, ts: seq<Tile>, mp: seq<Tile>, k: int, size: nat, skip: int)
    requires Tiled(start, brk, ts) && MappedOK(m, start, brk, mp) && BestFit(ts, k, size)
    ensures Survive(ts, mp, Served(ts, k, size), mp, skip) && NotAt(ts, mp, skip, Payload(ts[k]))
  {
    hide SplitAt;
    if ts[k].size >= size + 2 * SOM + MIN_SPLIT_SIZE {
      SplitSurvives(ts, mp, k, size);
    }
    DistinctFrom(start, brk, m, ts, mp, k);
    forall t | t in ts && !t.free ensures t in Served(ts, k, size) {
      var x :| 0 <= x < |ts| && ts[x] == t;
      if ts[k].size < size + 2 * SOM + MIN_SPLIT_SIZE { assert Served(ts, k, size)[x] == t; }
    }
  }

  /** A block shares its pointer with no other block. */
  lemma DistinctFrom(start: int, brk: int, m: Memory, ts: seq<Tile>, mp: seq<Tile>, k: int)
    requires Tiled(start, brk, ts) && MappedOK(m, start, brk, mp) && 0 <= k < |ts|
    ensures forall t :: t in ts && t.free != ts[k].free ==> Payload(t) != Payload(ts[k])
    ensures forall x :: 0 <= x < |ts| && x != k ==> Payload(ts[x]) != Payload(ts[k])
    ensures forall t :: t in mp ==> Payload(t) != Payload(ts[k])
  {
  }

  lemma TailSurvives(start: int, brk: int, brk2: int, m: Memory, ts: seq<Tile>, mp: seq<Tile>, i: int, lo: int,
                     skip: int)
    requires Tiled(start, brk, ts) && MappedOK(m, start, brk2, mp) && lo < brk2 && 0 <= i <= |ts| <= i + 1
    requires lo == StartOf(ts, i, brk)
    requires i < |ts| ==> ts[i].free
    ensures forall t: Tile :: Survive(ts, mp, ts[..i] + [t], mp, skip)
    ensures NotAt(ts, mp, skip, lo + SOM)
  {
  }

  lemma MapSurvives(start: int, brk: int, m: Memory, ts: seq<Tile>, mp: seq<Tile>, lo: int, size: nat, skip: int)
    requires Tiled(start, brk, ts) && MappedOK(m, start, brk, mp + [Tile(lo, size, false)])
    ensures Survive(ts, mp, ts, mp + [Tile(lo, size, false)], skip) && NotAt(ts, mp, skip, lo + SOM)
  {
    var mp2 := mp + [Tile(lo, size, false)];
    assert mp2[|mp|] == Tile(lo, size, false);
    forall u | u in ts ensures Payload(u) != lo + SOM {
      var x :| 0 <= x < |ts| && ts[x] == u;
      EndsBefore(start, brk, ts, x);
    }
    forall u | u in mp ensures Payload(u) != lo + SOM {
      var x :| 0 <= x < |mp| && mp[x] == u;
      assert mp2[x] == u;
    }
  }

  /** Pointer p belongs to a live block with room for n bytes. */
  ghost predicate Owns(ts: seq<Tile>, mp: seq<Tile>, p: int, n: int) {
    exists t :: ((t in ts && !t.free) || t in mp) && Payload(t) == p && t.size >= n
  }

  /** srealloc of the block at oldp, which held n bytes, into p: the payload came along, no other
      live block or byte of it was touched, and p is not the pointer of one of those. */
  ghost predicate Reallocated(m: Memory, ts: seq<Tile>, mp: seq<Tile>, m': Memory, ts': seq<Tile>, mp': seq<Tile>,
                              oldp: int, p: int, n: int)
  {
    && BytesMoved(m, m', oldp, p, n) && AllKept(m, m', ts, mp, oldp) && Survive(ts, mp, ts', mp', oldp)
    && NotAt(ts, mp, oldp, p)
  }

  /** The block at p has room for n bytes and is not wastefully large. */
  ghost predicate Fitted(ts: seq<Tile>, mp: seq<Tile>, p: int, n: nat) {
    exists t :: ((t in ts && !t.free) || t in mp) && Payload(t) == p && RightSize(t, n)
  }

  predicate RightSize(t: Tile, n: nat) { n <= t.size < RoundUp(n) + 2 * SOM + MIN_SPLIT_SIZE }

  lemma IsRightSize(t: Tile, n: nat)
    requires t.size == RoundUp(n)
    ensures RightSize(t, n)
  {
    RoundUpFacts(n);
  }

  lemma FittedOwns(ts: seq<Tile>, mp: seq<Tile>, p: int, n: nat)
    requires Fitted(ts, mp, p, n)
    ensures Owns(ts, mp, p, n)
  {
  }

  lemma FittedTile(ts: seq<Tile>, mp: seq<Tile>, k: int, n: nat)
    requires 0 <= k < |ts| && !ts[k].free && RightSize(ts[k], n)
    ensures Fitted(ts, mp, Payload(ts[k]), n)
  {
  }

  lemma FittedMap(ts: seq<Tile>, mp: seq<Tile>, j: int, n: nat)
    requires 0 <= j < |mp| && RightSize(mp[j], n)
    ensures Fitted(ts, mp, Payload(mp[j]), n)
  {
  }

  lemma OwnsTile(ts: seq<Tile>, mp: seq<Tile>, k: int, n: int)
    requires 0 <= k < |ts| && !ts[k].free && ts[k].size >= n
    ensures Owns(ts, mp, Payload(ts[k]), n)
  {
  }

  lemma OwnsMap(ts: seq<Tile>, mp: seq<Tile>, j: int, n: int)
    requires 0 <= j < |mp| && mp[j].size >= n
    ensures Owns(ts, mp, Payload(mp[j]), n)
  {
  }

  lemma SameForAll(m: Memory, ts: seq<Tile>, mp: seq<Tile>, oldp: int, n: int)
    ensures Reallocated(m, ts, mp, m, ts, mp, oldp, oldp, n)
  {
  }

  lemma ResizedSurvives(ts: seq<Tile>, mp: seq<Tile>, k: int, way: Way, size: int)
    requires WayFits(ts, k, way) && forall x :: From(way, k) <= x < To(way, k) && x != k ==> ts[x].free
    ensures Survive(ts, mp, Resized(ts, k, way, size), mp, Payload(ts[k]))
  {
  }

  /** The block a merge ends in is not at the pointer of another live block. */
  lemma TargetIsNew(start: int, brk: int, m: Memory, ts: seq<Tile>, mp: seq<Tile>, k: int, way: Way)
    requires Tiled(start, brk, ts) && MappedOK(m, start, brk, mp) && WayFits(ts, k, way) && !ts[k].free
    requires From(way, k) != k ==> ts[From(way, k)].free
    ensures NotAt(ts, mp, Payload(ts[k]), Payload(ts[From(way, k)]))
  {
  }

  /** A merge, then a cut. */
  lemma GrownInPlace(m0: Memory, m1: Memory, m2: Memory, start: int, brk: int, o0: seq<int>, ts: seq<Tile>,
                     mp: seq<Tile>,
                     k: int, size: int, request: nat, w: int)
    requires Tiled(start, brk, ts) && WildOK(ts, w) && MappedOK(m0, start, brk, mp)
    requires 0 <= k < |ts| && !ts[k].free && size > ts[k].size && request > ts[k].size
    requires WayOf(ts, k, size, w) != Alone && WayFits(ts, k, WayOf(ts, k, size, w))
    requires var way := WayOf(ts, k, size, w); var ts1, i := Resized(ts, k, way, size), From(way, k);
      && Settled(m0, o0, ts, mp, m1, k, way, size)
      && i < |ts1| && ts1[i] == Target(ts, k, way, size) && ts1[i].size >= request
      && OthersKept(m1, m2, ts1, mp, i, -1) && BytesKept(m1, m2, Payload(ts1[i]), request)
    ensures var way := WayOf(ts, k, size, w); var ts1, i := Resized(ts, k, way, size), From(way, k);
      Reallocated(m0, ts, mp, m2, Trimmed(ts1, i, request), mp, Payload(ts[k]), Payload(ts1[i]), ts[k].size)
  {
    hide Tiled, MappedOK, WayOf, Resized, Target, OthersKept, BytesKept, BytesMoved, AllKept, Survive, Frame,
         Trimmed, WayFits, From, To, NotAt, Growth, Room;
    var way := WayOf(ts, k, size, w);
    var ts1, i := Resized(ts, k, way, size), From(way, k);
    TargetPlace(ts, k, way, size);
    var oldp, p := Payload(ts[k]), Payload(ts1[i]);
    WayShape(start, brk, ts, k, size, w);
    KeptPart(m1, m2, p, request, ts[k].size);
    MovedThenKept(m0, m1, m2, oldp, p, ts[k].size);
    KeptByValue(m0, m1, ts, mp, k, -1, oldp);
    KeptByValue(m1, m2, ts1, mp, i, -1, p);
    ResizedSurvives(ts, mp, k, way, size);
    TrimSurvives(ts1, mp, i, request);
    TakenLeft(ts, k, way);
    TargetIsNew(start, brk, m0, ts, mp, k, way);
    KeptChain(m0, m1, m2, ts, mp, ts1, mp, oldp, p);
    SurviveChain(ts, mp, ts1, mp, Trimmed(ts1, i, request), mp, oldp, p);
  }

  lemma TakenLeft(ts: seq<Tile>, k: int, way: Way)
    requires WayFits(ts, k, way) && forall x :: From(way, k) <= x < To(way, k) && x != k ==> ts[x].free
    ensures 0 <= From(way, k) < |ts| && (From(way, k) != k ==> ts[From(way, k)].free)
  {
  }

  // Moving a block: free, allocate, copy.

  /** Nothing around block k was large enough.  So once freed it is too small for the request,
      even merged; and it is the last block only if new memory would have helped. */
  lemma StillTooSmall(start: int, brk: int, ts: seq<Tile>, k: int, size: int, w: int)
    requires Tiled(start, brk, ts) && WildOK(ts, w) && 0 <= k < |ts| && !ts[k].free && size > ts[k].size
    requires Short(ts, k, WayOf(ts, k, size, w), size)
    ensures var f := SetFlag(ts, k, true); var ts1, i, t := Freed(ts, k), JoinFrom(f, k), Merged(f, k);
      && 0 <= i < |ts1| && ts1[i] == t && t.size < size && t.free
      && (i < |ts1| - 1 <==> WayOf(ts, k, size, w) == Alone)
      && t.addr <= ts[k].addr && End(ts[k]) <= End(t) && 0 < t.addr
      && (t.addr < ts[k].addr ==> Payload(t) + SOM <= ts[k].addr)
      && ts[k].size <= t.size
      && (FreeLeft(f, k) <==> t.addr < ts[k].addr)
  {
    hide JoinSize, Tiled, Ordered, WayOf, Short, Freed;
    var f := SetFlag(ts, k, true);
    NeighboursTooSmall(start, brk, ts, k, size, w);
    FreedIs(ts, k);
    MergedSpan(start, brk, ts, k);
    JoinSizes(f, JoinFrom(f, k), JoinTo(f, k));
    Range(start, brk, ts, k, k + 1);
    if k > 0 { Range(start, brk, ts, k - 1, k); }
    TileBound(start, brk, ts, JoinFrom(f, k));
  }

  lemma NeighboursTooSmall(start: int, brk: int, ts: seq<Tile>, k: int, size: int, w: int)
    requires Tiled(start, brk, ts) && WildOK(ts, w) && 0 <= k < |ts| && size > ts[k].size
    requires Short(ts, k, WayOf(ts, k, size, w), size)
    ensures size > ts[k].size + (if FreeLeft(ts, k) then ts[k - 1].size + 2 * SOM else 0)
                   + (if FreeRight(ts, k) then ts[k + 1].size + 2 * SOM else 0)
    ensures WayOf(ts, k, size, w) != Alone <==> JoinTo(ts, k) == |ts|
  {
    hide JoinSize, Tiled, Ordered;
    OrderedOf(start, brk, ts);
    WayFitsAlways(ts, k, size, w);
    FateNullSteps(start, brk, ts, k, size, w);
    var way := WayOf(ts, k, size, w);
    if way != Alone { JoinSizes(ts, From(way, k), To(way, k)); }
  }

  /** What is left of block k after sfree: its payload, and in its old header one of two sizes. */
  lemma FreedLeaves(m0: Memory, o0: seq<int>, ts: seq<Tile>, w0: int, s0: Stats,
                    m1: Memory, ts1: seq<Tile>, w1: int, s1: Stats, k: int)
    requires 0 <= k < |ts| && MergeResult(m0, o0, SetFlag(ts, k, true), w0, s0, m1, ts1, w1, s1, k)
    ensures ts1 == Freed(ts, k) && BytesKept(m0, m1, Payload(ts[k]), ts[k].size)
    ensures || LinkIs(m1.words, ts[k].addr, ts[k].size)
            || LinkIs(m1.words, ts[k].addr, Merged(SetFlag(ts, k, true), k).size)
  {
    hide BytesKept, LinkIs, Coalesced, Merged, MergeDelta, WildAfter, Frame;
  }

  /** The request is served somewhere else than in free block i, unless that is the last one and
      is grown. */
  lemma ServedElsewhere(start: int, brk: int, m2: Memory, ts: seq<Tile>, mp: seq<Tile>, how: Service, size: nat,
                        ts2: seq<Tile>, mp2: seq<Tile>, brk2: int, at: Place, lo: int, hi: int, i: int)
    requires Tiled(start, brk, ts) && Serves(how, ts, mp, brk, size, ts2, mp2, brk2, at, lo, hi)
    requires MappedOK(m2, start, brk2, mp2)
    requires 0 <= i < |ts| && ts[i].free && ts[i].size < size
    ensures if how.Grow? && i == |ts| - 1 then lo == ts[i].addr && hi == lo + size + 2 * SOM && at.InHeap?
            else hi <= ts[i].addr || End(ts[i]) <= lo
  {
    hide Served;
    EndsBefore(start, brk, ts, i);
    match how
    case Reuse(k) =>
      assert k < i ==> End(ts[k]) <= ts[i].addr;
      assert i < k ==> End(ts[i]) <= ts[k].addr;
    case Grow =>
    case Append =>
    case MapAnew =>
      assert mp2[|mp|] == Tile(lo, size, false);
  }

  /** What lay in the freed block is still there after the request was served, elsewhere or by
      growing that very block. */
  lemma LeftBehind(m1: Memory, m2: Memory, o1: seq<int>, start: int, brk: int, ts: seq<Tile>, i: int, lo: int,
                   hi: int, t: Tile)
    requires Tiled(start, brk, ts) && multiset(o1) == multiset(Addrs(ts)) && 0 <= i < |ts|
    requires Frame(m1, m2, lo, hi, o1)
    requires || hi <= ts[i].addr || End(ts[i]) <= lo
             || (lo == ts[i].addr && Footer(ts[i]) <= hi - SOM && InnerKept(m1, m2, lo + SOM, hi - SOM))
    requires ts[i].addr <= t.addr && End(t) <= End(ts[i]) && (ts[i].addr < t.addr ==> Payload(ts[i]) + SOM <= t.addr)
    ensures BytesKept(m1, m2, Payload(t), t.size)
    ensures lo != t.addr ==> Same(m1.words, m2.words, t.addr)
  {
    if hi <= ts[i].addr || End(ts[i]) <= lo {
      HeadersAround(o1, start, brk, ts, i);
      assert WordClear(t.addr, lo, hi, o1);
      forall y | Payload(t) <= y < Payload(t) + t.size ensures ByteClear(y, lo, hi, o1) {
      }
    }
  }

  /** The block a request got: live, at the start of the region, and of the right size. */
  lemma ServedTile(start: int, brk: int, ts: seq<Tile>, mp: seq<Tile>, how: Service, size: nat,
                   ts2: seq<Tile>, mp2: seq<Tile>, brk2: int, at: Place, lo: int, hi: int)
    requires Tiled(start, brk, ts) && Serves(how, ts, mp, brk, size, ts2, mp2, brk2, at, lo, hi)
    ensures match at
      case Nothing => false
      case InHeap(x) =>
        0 <= x < |ts2| && ts2[x].addr == lo && !ts2[x].free && size <= ts2[x].size < size + 2 * SOM + MIN_SPLIT_SIZE
      case InMap(x) => 0 <= x < |mp2| && mp2[x] == Tile(lo, size, false)
  {
  }

  lemma SkipMore(m: Memory, m': Memory, ts: seq<Tile>, mp: seq<Tile>, p: int)
    requires OthersKept(m, m', ts, mp, -1, -1)
    ensures AllKept(m, m', ts, mp, p)
  {
  }

  lemma MovedPart(m: Memory, m': Memory, src: int, dst: int, n: int, k: int)
    requires BytesMoved(m, m', src, dst, n) && k <= n
    ensures BytesMoved(m, m', src, dst, k)
  {
  }

  /** Free, allocate, copy: put together. */
  lemma MovedAway(m0: Memory, m1: Memory, m2: Memory, m3: Memory, ts: seq<Tile>, mp: seq<Tile>, ts1: seq<Tile>,
                  mp1: seq<Tile>,
                  ts2: seq<Tile>, mp2: seq<Tile>, oldp: int, p: int, s: int, n: int)
    requires Survive(ts, mp, ts1, mp1, oldp) && Survive(ts1, mp1, ts2, mp2, oldp) && NotAt(ts1, mp1, oldp, p)
    requires AllKept(m0, m1, ts, mp, oldp) && AllKept(m1, m2, ts1, mp1, oldp) && AllKept(m2, m3, ts2, mp2, p)
    requires BytesKept(m0, m1, oldp, s) && BytesKept(m1, m2, oldp, s) && BytesMoved(m2, m3, oldp, p, n) && s <= n
    ensures Reallocated(m0, ts, mp, m3, ts2, mp2, oldp, p, s)
  {
  }

  lemma DropSurvives(ts: seq<Tile>, mp: seq<Tile>, j: int)
    requires 0 <= j < |mp|
    ensures Survive(ts, mp, ts, Drop(mp, j), Payload(mp[j]))
  {
  }

  /** Allocate, copy, free: put together. */
  lemma CopiedAway(m0: Memory, m1: Memory, m2: Memory, m3: Memory, ts: seq<Tile>, mp: seq<Tile>, ts1: seq<Tile>,
                   mp1: seq<Tile>,
                   mp3: seq<Tile>, oldp: int, p: int, s: int, t: Tile)
    requires Survive(ts, mp, ts1, mp1, oldp) && Survive(ts1, mp1, ts1, mp3, oldp) && NotAt(ts, mp, oldp, p) && p != oldp
    requires AllKept(m0, m1, ts, mp, 0) && AllKept(m1, m2, ts1, mp1, p) && AllKept(m2, m3, ts1, mp1, oldp)
    requires BytesKept(m0, m1, oldp, s) && BytesMoved(m1, m2, oldp, p, s)
    requires ((t in ts1 && !t.free) || t in mp1) && Payload(t) == p && t.size >= s
    requires forall u :: (u in ts && !u.free) || u in mp ==> Payload(u) != 0
    ensures Reallocated(m0, ts, mp, m3, ts1, mp3, oldp, p, s)
  {
  }

  lemma PointersPositive(start: int, brk: int, m: Memory, ts: seq<Tile>, mp: seq<Tile>)
    requires Tiled(start, brk, ts) && MappedOK(m, start, brk, mp)
    ensures forall u :: (u in ts && !u.free) || u in mp ==> Payload(u) > SOM && Payload(u) != 0
  {
  }

  lemma StillThere(m: Memory, m': Memory, ts: seq<Tile>, mp: seq<Tile>, at: Place)
    requires OthersKept(m, m', ts, mp, -1, -1)
    ensures at.InHeap? && 0 <= at.k < |ts| && !ts[at.k].free ==> BytesKept(m, m', Payload(ts[at.k]), ts[at.k].size)
    ensures at.InMap? && 0 <= at.j < |mp| ==> BytesKept(m, m', Payload(mp[at.j]), mp[at.j].size)
  {
  }

  lemma MapApart(m: Memory, start: int, brk: int, ts: seq<Tile>, mp: seq<Tile>, at: Place, x: int)
    requires Tiled(start, brk, ts) && MappedOK(m, start, brk, mp) && 0 <= x < |mp|
    ensures at.InHeap? && 0 <= at.k < |ts| ==> Payload(ts[at.k]) != Payload(mp[x])
    ensures at.InMap? && 0 <= at.j < |mp| && at.j != x ==> Payload(mp[at.j]) != Payload(mp[x])
  {
  }

  lemma FittedAfterDrop(ts: seq<Tile>, mp: seq<Tile>, j: int, t: Tile, n: nat)
    requires 0 <= j < |mp| - 1 && mp[|mp| - 1] == t && RightSize(t, n)
    ensures Fitted(ts, Drop(mp, j), Payload(t), n)
  {
    assert Drop(mp, j)[|mp| - 2] == t;
  }

  datatype Verdict = Fine | Hazardous(why: Hazard)

  /** Exactly when, and at what, a call of srealloc on a live block comes to grief. */
  ghost function ReallocVerdict(ts: seq<Tile>, mp: seq<Tile>, w: int, start: int, brk: int, at: Place, request: nat,
                                ker1: Kernel, ker2: Kernel): Verdict
    requires (at.InHeap? && 0 <= at.k < |ts|) || (at.InMap? && 0 <= at.j < |mp|)
    requires WildOK(ts, w) && Ordered(ts)
  {
    var s, size := (if at.InHeap? then ts[at.k] else mp[at.j]).size, RoundUp(request);
    if s >= request then
      if at.InMap? && s >= request + 2 * SOM + MIN_SPLIT_SIZE then Hazardous(SplitsMapping)
      else if at.InHeap? && s >= request + 2 * SOM + MMAP_THRESHOLD then Hazardous(UnmapsHeap)
      else Fine
    else if s >= MMAP_THRESHOLD then
      if !MapClear(start, brk, mp, ker1.place, SOM + size) then Hazardous(NullCopy)
      else if at.InHeap? then Hazardous(UnmapsHeap)
      else Fine
    else if at.InMap? then Fine
    else
      var way, fate := WayOf(ts, at.k, size, w), Fate(ts, at.k, size, w, brk, start, mp, ker1);
      if fate.Stuck? then Hazardous(fate.why)
      else if fate.p == NULL then
        if size < MMAP_THRESHOLD && SplitsTooMuch(Freed(ts, at.k), size) then Hazardous(UnmapsHeap)
        else if Refused(Freed(ts, at.k), mp, start, brk, size, ker2) then Hazardous(NullCopy)
        else Fine
      else if WayFits(ts, at.k, way) && Target(ts, at.k, way, size).size >= request + 2 * SOM + MMAP_THRESHOLD
      then Hazardous(UnmapsHeap)
      else Fine
  }

  /** By how much srealloc leaves the counters wrong: in case c they are raised before sbrk is
      asked, and not lowered if it refuses. */
  ghost function Miscount(ts: seq<Tile>, mp: seq<Tile>, w: int, start: int, brk: int, at: Place, request: nat,
                          ker1: Kernel): Stats
    requires at.InHeap? ==> 0 <= at.k < |ts|
    requires WildOK(ts, w) && Ordered(ts)
  {
    if at.InHeap? && ts[at.k].size < request && ts[at.k].size < MMAP_THRESHOLD
      && WayOf(ts, at.k, RoundUp(request), w) == Wild
      && Fate(ts, at.k, RoundUp(request), w, brk, start, mp, ker1) == Ptr(NULL)
    then Stats(0, 0, RoundUp(request) - ts[at.k].size, 0, 0)
    else ZERO
  }

  /** srealloc on a live block loses track of the wilderness. */
  ghost predicate Forgets(ts: seq<Tile>, w: int, at: Place, request: nat) {
    at.InHeap? && 0 <= at.k < |ts| && ts[at.k].size < request && ts[at.k].size < MMAP_THRESHOLD
    && Forgotten(ts, at.k, WayOf(ts, at.k, RoundUp(request), w), RoundUp(request), request)
  }
}
