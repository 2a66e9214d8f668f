/** The boundary-tag allocator. */
module AllocatorModel {
  import opened Memory
  import opened Tiling
  import opened BlockListModel
  import opened HeapSpec
  import opened RequestSpec
  import opened ReallocSpec
  import opened Survival
  import opened SizeArithmetic
  import opened RowSpec

  /** What the header in front of a pointer says. */
  lemma Located(m: Memory, head: int, o: seq<int>, start: int, brk: int, ts: seq<Tile>, mp: seq<Tile>, at: Place)
    requires HeapOK(m, head, o, start, brk, ts) && MappedOK(m, start, brk, mp)
    ensures forall p :: OthersKept(m, m, ts, mp, p, -1)
    ensures at.InHeap? && 0 <= at.k < |ts| ==> 0 < ts[at.k].addr && Records(m.words, ts[at.k].addr, ts[at.k])
    ensures at.InMap? && 0 <= at.j < |mp| ==>
      && Records(m.words, mp[at.j].addr, mp[at.j]) && !mp[at.j].free && 0 < mp[at.j].addr
      && mp[at.j].size >= MMAP_THRESHOLD
  {
  }

  /** Which block begins at address a, and that no other mapping does. */
  lemma MappingAt(m: Memory, head: int, o: seq<int>, start: int, brk: int, ts: seq<Tile>, mp: seq<Tile>, at: Place,
                  a: int)
    requires HeapOK(m, head, o, start, brk, ts) && MappedOK(m, start, brk, mp)
    requires || (at.InHeap? && 0 <= at.k < |ts| && a == ts[at.k].addr)
             || (at.InMap? && 0 <= at.j < |mp| && a == mp[at.j].addr)
    ensures forall j :: 0 <= j < |mp| && mp[j].addr == a ==> at == InMap(j)
    ensures at.InHeap? ==> Records(m.words, a, ts[at.k]) && Records(m.words, Footer(ts[at.k]), ts[at.k])
    ensures at.InMap? ==> Records(m.words, a, mp[at.j]) && (MapEnd(mp[at.j]) <= start || brk <= a)
    ensures at.InMap? ==> forall m' :: Frame(m, m', a, MapEnd(mp[at.j]), []) ==> OthersKept(m, m', ts, mp, -1, at.j)
  {
    hide HeapOK, Frame, BytesKept;
    HeapTiles(m, head, o, start, brk, ts, 0, 0);
    if at.InHeap? {
      HeapTiles(m, head, o, start, brk, ts, at.k, at.k + 1);
      EndsBefore(start, brk, ts, at.k);
    } else {
      forall m' | Frame(m, m', a, MapEnd(mp[at.j]), []) ensures OthersKept(m, m', ts, mp, -1, at.j) {
        MapDropped(m, m', start, brk, mp, at.j);
        HeapElsewhere(m, m', head, o, start, brk, ts, a, MapEnd(mp[at.j]));
      }
    }
  }

  lemma SameWord(m: Memory, m': Memory, a: int)
    requires Same(m.words, m'.words, a) && a in m.words
    ensures a in m'.words && m'.words[a] == m.words[a] && LinkIs(m'.words, a, m.words[a])
  {
  }

  /** The allocator at one moment. */
  datatype Snapshot = Snapshot(mem: Memory, order: seq<int>, wilderness: int, tiles: seq<Tile>, mapped: seq<Tile>,
                               start: int, brk: int, stats: Stats, drift: Stats)

  /** What the very first request does at a break that is no multiple of 8: the break is padded if
      the kernel agrees, sbrk_start becomes the break before that, or -1, and the block, if there is
      one, is the only one listed. */
  ghost predicate FirstServed(before: Snapshot, size: nat, ker: Kernel, p: int, after: Snapshot) {
    var pad := 8 - before.brk % 8;
    var padded := Granted(before.brk, pad, before.start, before.mapped, ker.(grants := ker.pads));
    var t := Tile(before.brk + pad, size, false);
    && (p != NULL <==> FirstGranted(before.brk, size, before.start, before.mapped, ker))
    && after.start == (if padded then before.brk else -1)
    && after.brk == before.brk + (if padded then pad else 0) + (if p != NULL then size + 2 * SOM else 0)
    && after.mapped == before.mapped && after.drift == before.drift
    && if p != NULL then
         && p == Payload(t) && after.order == [t.addr] && after.wilderness == t.addr
         && TileCells(after.mem.words, t) && after.stats == Plus(before.stats, Count(t))
         && OthersKept(before.mem, after.mem, [], before.mapped, -1, -1)
       else
         && after.mem == before.mem && after.order == before.order && after.wilderness == before.wilderness
         && after.stats == before.stats
  }

  lemma FirstRefused(b: Snapshot, size: nat, ker: Kernel, padded: bool)
    requires padded == Granted(b.brk, 8 - b.brk % 8, b.start, b.mapped, ker.(grants := ker.pads))
    requires !FirstGranted(b.brk, size, b.start, b.mapped, ker)
    ensures FirstServed(b, size, ker, NULL,
                        if padded then b.(start := b.brk, brk := b.brk + 8 - b.brk % 8) else b.(start := -1))
  {
    hide Granted, FirstGranted;
  }

  lemma FirstObtained(b: Snapshot, size: nat, ker: Kernel, m: Memory, t: Tile)
    requires FirstGranted(b.brk, size, b.start, b.mapped, ker) && b.start == b.brk > 0
    requires t == Tile(b.brk + 8 - b.brk % 8, size, false)
    requires MappedOK(b.mem, b.start, b.brk, b.mapped) && TileCells(m.words, t) && Frame(b.mem, m, t.addr, End(t), [])
    ensures FirstServed(b, size, ker, t.addr + SOM,
                        b.(mem := m, order := [t.addr], wilderness := t.addr, brk := End(t),
                           stats := Plus(b.stats, Stats(1, 0, size, 0, 2 * SOM))))
  {
    hide TileCells, BytesKept;
    forall i | 0 <= i < |b.mapped| ensures BytesKept(b.mem, m, Payload(b.mapped[i]), b.mapped[i].size) {
      assert MapEnd(b.mapped[i]) <= t.addr || End(t) <= b.mapped[i].addr;
      MapKept(b.mem, m, b.start, b.brk, b.mapped[i], t.addr, End(t), []);
    }
  }

  /** Counters that are too high by n bytes are right again with a drift of n bytes. */
  lemma DriftedToo(s: Stats, a: Stats, b: Stats, drift: Stats, n: int)
    requires s == Plus(a, Plus(b, drift))
    ensures Plus(s, Stats(0, 0, n, 0, 0)) == Plus(a, Plus(b, Plus(drift, Stats(0, 0, n, 0, 0))))
  {
  }

  lemma SpliceLength(ts: seq<Tile>, i: int, j: int, t: Tile)
    requires 0 <= i < j <= |ts|
    ensures |Splice(ts, i, j, [t])| == |ts| - (j - i) + 1
  {
  }

  lemma PlusZero(s: Stats)
    ensures Plus(s, ZERO) == s
  {
  }

  lemma PastNull(p: int)
    ensures p >= 0 ==> p + SOM - SOM == p && Ptr(p + SOM) != Ptr(NULL)
  {
  }

  class Allocator {
    const blocks: BlockList
    var stats: Stats
    var sbrkStart: int
    var brk: int
    var mapped: seq<Tile>
    ghost var tiles: seq<Tile>

    /** By how much the counters are wrong.  Only case c of srealloc, refused by sbrk, adds to it. */
    ghost var drift: Stats

    /** The state at program start; the break is wherever the loader left it. */
    constructor (programBreak: int)
      requires 0 < programBreak < TWO64
      ensures fresh(blocks) && Valid() && tiles == [] && mapped == [] && stats == ZERO == drift
      ensures sbrkStart == brk == programBreak && blocks.wilderness == NULL
    {
      hide HeapOK, MappedOK, NoFreePair, Totals, Plus, WildOK;
      blocks := new BlockList();
      stats, mapped, tiles, drift := ZERO, [], [], ZERO;
      sbrkStart, brk := programBreak, programBreak;
      new;
      EmptyHeap(blocks.mem, programBreak);
      NoBlocksAtAll(blocks.mem, programBreak);
    }

    ghost predicate Heap()
      reads this, blocks
    {
      && HeapOK(blocks.mem, blocks.head, blocks.order, sbrkStart, brk, tiles)
      && blocks.count == |tiles| && brk < TWO64
    }

    ghost predicate TornAt(i: int, j: int)
      reads this, blocks
    {
      && 0 <= i < j <= |tiles|
      && Torn(blocks.mem, blocks.head, blocks.order, sbrkStart, tiles, i, j)
      && blocks.count == |tiles| && brk < TWO64
    }

    /** What a block that replaces the torn blocks i .. j-1 must look like. */
    ghost predicate Replaces(t: Tile, i: int, j: int)
      reads this, blocks
      requires 0 <= i < j <= |tiles|
    {
      && t.addr == tiles[i].addr && Records(blocks.mem.words, t.addr, t)
      && if j < |tiles| then End(t) == tiles[j].addr && brk == End(tiles[|tiles| - 1]) else End(t) == brk
    }

    method UpdateStatistics(allocatedBlocks: int, freeBlocks: int, allocatedBytes: int, freeBytes: int,
                            metadataBytes: int)
      modifies this`stats
      ensures stats == Plus(old(stats), Stats(allocatedBlocks, freeBlocks, allocatedBytes, freeBytes, metadataBytes))
      ensures stats.allocatedBlocks == old(stats.allocatedBlocks) + allocatedBlocks
      ensures stats.freeBlocks == old(stats.freeBlocks) + freeBlocks
      ensures stats.allocatedBytes == old(stats.allocatedBytes) + allocatedBytes
      ensures stats.freeBytes == old(stats.freeBytes) + freeBytes
      ensures stats.metadataBytes == old(stats.metadataBytes) + metadataBytes
    {
      stats := Plus(stats, Stats(allocatedBlocks, freeBlocks, allocatedBytes, freeBytes, metadataBytes));
    }

    lemma ReplacesMeans(t: Tile, i: int, j: int)
      requires 0 <= i < j <= |tiles|
      ensures Replaces(t, i, j) <==>
        && t.addr == tiles[i].addr && Records(blocks.mem.words, t.addr, t)
        && if j < |tiles| then End(t) == tiles[j].addr && brk == End(tiles[|tiles| - 1]) else End(t) == brk
    {
    }

    method Join1(x: int, ghost i: int, ghost t: Tile)
      requires TornAt(i, i + 1) && Replaces(t, i, i + 1) && x == tiles[i].addr
      modifies this`tiles, blocks`mem, blocks`head, blocks`count, blocks`order
      ensures Heap() && tiles == Splice(old(tiles), i, i + 1, [t])
      ensures TileCells(blocks.mem.words, t)
      ensures Frame(old(blocks.mem), blocks.mem, Footer(t), End(t), old(blocks.order) + [t.addr])
    {
      hide Torn, HeapOK, Splice, Frame, Linked, Sorted, SortedBut, Apart, ApartFrom, RoomBut, TileCells, Records, Addrs;
      ghost var m, h, o := blocks.mem, blocks.head, blocks.order;
      ghost var gone := set y | i <= y < i + 1 :: tiles[y].addr;
      assert gone == {x};
      JoinReady(m, h, o, sbrkStart, tiles, i, i + 1, t, gone);
      JoinAddrs1(tiles, i, x);
      blocks.Rethread1(x, t, x);
      Mended(m, blocks.mem, h, o, blocks.head, blocks.order, sbrkStart, brk, tiles, i, i + 1, t, multiset{x});
      tiles := Splice(tiles, i, i + 1, [t]);
    }

    method Join2(x: int, y: int, keep: int, ghost i: int, ghost t: Tile)
      requires TornAt(i, i + 2) && Replaces(t, i, i + 2) && keep == tiles[i].addr
      requires {x, y} == {tiles[i].addr, tiles[i + 1].addr}
      modifies this`tiles, blocks`mem, blocks`head, blocks`count, blocks`order
      ensures Heap() && tiles == Splice(old(tiles), i, i + 2, [t])
      ensures TileCells(blocks.mem.words, t)
      ensures Frame(old(blocks.mem), blocks.mem, Footer(t), End(t), old(blocks.order) + [t.addr])
    {
      hide Torn, HeapOK, Splice, Frame, Linked, Sorted, SortedBut, Apart, ApartFrom, RoomBut, TileCells, Records, Addrs;
      ghost var m, h, o := blocks.mem, blocks.head, blocks.order;
      TwoOf(tiles, i, x, y);
      JoinReady(m, h, o, sbrkStart, tiles, i, i + 2, t, {x, y});
      JoinAddrs2(tiles, i, x, y);
      blocks.Rethread2(x, y, t, keep);
      Mended(m, blocks.mem, h, o, blocks.head, blocks.order, sbrkStart, brk, tiles, i, i + 2, t, multiset{x, y});
      tiles := Splice(tiles, i, i + 2, [t]);
    }

    lemma ReadyForThree(x: int, y: int, z: int, keep: int, i: int, t: Tile)
      requires TornAt(i, i + 3) && Replaces(t, i, i + 3) && keep == tiles[i].addr
      requires {x, y, z} == {tiles[i].addr, tiles[i + 1].addr, tiles[i + 2].addr} && x != y && y != z && x != z
      ensures blocks.Threaded() && x in blocks.order && y in blocks.order && z in blocks.order
      ensures keep in {x, y, z} && keep == t.addr && Records(blocks.mem.words, keep, t) && 0 <= i && i + 3 <= |tiles|
      ensures SortedBut(blocks.mem.words, blocks.order, {x, y, z}) && RoomBut(blocks.order, t, {x, y, z})
      ensures multiset{x, y, z} == multiset(Addrs(tiles[i..i + 3]))
      ensures Torn(blocks.mem, blocks.head, blocks.order, sbrkStart, tiles, i, i + 3)
      ensures blocks.count == |tiles| && brk < TWO64
      ensures if i + 3 < |tiles| then End(t) == tiles[i + 3].addr && brk == End(tiles[|tiles| - 1]) else End(t) == brk
    {
      hide *;
      TornParts(i, i + 3);
      ReplacesMeans(t, i, i + 3);
      ThreeOf(tiles, i, x, y, z);
      JoinReady(blocks.mem, blocks.head, blocks.order, sbrkStart, tiles, i, i + 3, t, {x, y, z});
      JoinAddrs3(tiles, i, x, y, z);
      blocks.ThreadedParts();
    }

    method Join3(x: int, y: int, z: int, keep: int, ghost i: int, ghost t: Tile)
      requires TornAt(i, i + 3) && Replaces(t, i, i + 3) && keep == tiles[i].addr
      requires {x, y, z} == {tiles[i].addr, tiles[i + 1].addr, tiles[i + 2].addr} && x != y && y != z && x != z
      modifies this`tiles, blocks`mem, blocks`head, blocks`count, blocks`order
      ensures Heap() && tiles == Splice(old(tiles), i, i + 3, [t])
      ensures TileCells(blocks.mem.words, t)
      ensures Frame(old(blocks.mem), blocks.mem, Footer(t), End(t), old(blocks.order) + [t.addr])
    {
      hide *;
      ghost var m, h, o := blocks.mem, blocks.head, blocks.order;
      ReadyForThree(x, y, z, keep, i, t);
      blocks.Rethread3(x, y, z, t, keep);
      blocks.ThreadedParts();
      Mended(m, blocks.mem, h, o, blocks.head, blocks.order, sbrkStart, brk, tiles, i, i + 3, t, multiset{x, y, z});
      SpliceLength(tiles, i, i + 3, t);
      tiles := Splice(tiles, i, i + 3, [t]);
      HeapParts();
    }

    ghost predicate Merges(current: int, k: int)
      reads this, blocks
    {
      Heap() && 0 <= k < |tiles| && tiles[k].addr == current && tiles[k].free
    }

    /** What a merge of the blocks i .. j-1 around block k starts from. */
    lemma MergeReady(current: int, k: int, i: int, j: int)
      requires Merges(current, k) && i == (if FreeLeft(tiles, k) then k - 1 else k)
      requires j == if FreeRight(tiles, k) then k + 2 else k + 1
      ensures 0 <= i <= k < j <= |tiles| && current == tiles[k].addr && tiles[i].free
      ensures HeapOK(blocks.mem, blocks.head, blocks.order, sbrkStart, brk, tiles) && blocks.count == |tiles|
      ensures Tiled(sbrkStart, brk, tiles) && multiset(blocks.order) == multiset(Addrs(tiles)) && brk < TWO64
      ensures forall x :: i <= x < j ==>
        tiles[x].addr in blocks.mem.words && blocks.mem.words[tiles[x].addr] == tiles[x].size
      ensures var t := Merged(tiles, k);
        && t.addr == tiles[i].addr && t.free && Tile(t.addr, t.size, true) == t
        && (if j < |tiles| then End(t) == tiles[j].addr && brk == End(tiles[|tiles| - 1]) else End(t) == brk)
        && (forall x :: i <= x < j ==> Footer(tiles[x]) <= Footer(t)) && End(t) == End(tiles[j - 1])
        && (forall x, y :: i <= x < y < j ==> tiles[x].addr < tiles[y].addr)
        && t.size == tiles[i].size + (if j > i + 1 then 2 * SOM + tiles[i + 1].size else 0)
                     + (if j > i + 2 then 2 * SOM + tiles[i + 2].size else 0)
    {
      hide HeapOK, Tiled, Merged, Addrs;
      HeapTiles(blocks.mem, blocks.head, blocks.order, sbrkStart, brk, tiles, i, j);
      MergedFits(sbrkStart, brk, tiles, k, i, j);
    }

    lemma ReadyToJoin(t: Tile, i: int, j: int)
      requires Torn(blocks.mem, blocks.head, blocks.order, sbrkStart, tiles, i, j)
      requires blocks.count == |tiles| && brk < TWO64 && 0 <= i < j <= |tiles|
      requires t.addr == tiles[i].addr && Records(blocks.mem.words, t.addr, t)
      requires if j < |tiles| then End(t) == tiles[j].addr && brk == End(tiles[|tiles| - 1]) else End(t) == brk
      ensures TornAt(i, j) && Replaces(t, i, j)
    {
      hide Torn;
    }

    lemma TornParts(i: int, j: int)
      ensures TornAt(i, j) <==>
        && 0 <= i < j <= |tiles| && Torn(blocks.mem, blocks.head, blocks.order, sbrkStart, tiles, i, j)
        && blocks.count == |tiles| && brk < TWO64
    {
      hide Torn;
    }

    lemma HeapParts()
      ensures Heap() <==>
        && HeapOK(blocks.mem, blocks.head, blocks.order, sbrkStart, brk, tiles)
        && blocks.count == |tiles| && brk < TWO64
    {
      hide HeapOK;
    }

    method MergeBoth(current: int, prev: int, next: int, ghost k: int)
      requires Merges(current, k) && FreeLeft(tiles, k) && FreeRight(tiles, k)
      requires prev == tiles[k - 1].addr && next == tiles[k + 1].addr
      modifies this`stats, this`tiles, blocks
      ensures Heap()
      ensures MergeResult(old(blocks.mem), old(blocks.order), old(tiles), old(blocks.wilderness), old(stats),
                          blocks.mem, tiles, blocks.wilderness, stats, k)
    {
      hide *;
      ghost var m0, h0, o0, ts, w0, s0 := blocks.mem, blocks.head, blocks.order, tiles, blocks.wilderness, stats;
      MergeReady(current, k, k - 1, k + 2);
      ghost var t := Merged(ts, k);
      blocks.SetSize(prev, blocks.mem.words[prev] + blocks.mem.words[next] + blocks.mem.words[current] + 4 * SOM);
      ghost var m1 := blocks.mem;
      SizeTears(m0, m1, h0, o0, sbrkStart, brk, ts, k - 1, k + 2, t.size);
      ReadyToJoin(t, k - 1, k + 2);
      Join3(next, prev, current, prev, k - 1, t);
      JoinKeeps(m0, m1, blocks.mem, sbrkStart, brk, ts, k - 1, k + 2, t.size, o0, Footer(t), End(t), k);
      SameWord(m0, blocks.mem, current);
      HeapParts();
      UpdateStatistics(-2, -1, 4 * SOM, blocks.mem.words[current] + 4 * SOM, -4 * SOM);
      if next == blocks.wilderness {
        blocks.wilderness := prev;
      }
      HeapParts();
      MergeDone(m0, o0, ts, w0, s0, blocks.mem, tiles, blocks.wilderness, stats, k, k - 1, k + 2);
    }

    method MergeNext(current: int, next: int, ghost k: int)
      requires Merges(current, k) && !FreeLeft(tiles, k) && FreeRight(tiles, k) && next == tiles[k + 1].addr
      modifies this`stats, this`tiles, blocks
      ensures Heap()
      ensures MergeResult(old(blocks.mem), old(blocks.order), old(tiles), old(blocks.wilderness), old(stats),
                          blocks.mem, tiles, blocks.wilderness, stats, k)
    {
      hide *;
      ghost var m0, h0, o0, ts, w0, s0 := blocks.mem, blocks.head, blocks.order, tiles, blocks.wilderness, stats;
      MergeReady(current, k, k, k + 2);
      ghost var t := Merged(ts, k);
      blocks.SetSize(current, blocks.mem.words[current] + blocks.mem.words[next] + 2 * SOM);
      ghost var m1 := blocks.mem;
      SizeTears(m0, m1, h0, o0, sbrkStart, brk, ts, k, k + 2, t.size);
      ReadyToJoin(t, k, k + 2);
      Join2(next, current, current, k, t);
      JoinKeeps(m0, m1, blocks.mem, sbrkStart, brk, ts, k, k + 2, t.size, o0, Footer(t), End(t), k);
      JoinKeeps(m0, m1, blocks.mem, sbrkStart, brk, ts, k, k + 2, t.size, o0, Footer(t), End(t), k + 1);
      SameWord(m0, blocks.mem, next);
      TileRecords(blocks.mem.words, t);
      HeapParts();
      UpdateStatistics(-1, 0, 2 * SOM, blocks.mem.words[current] - blocks.mem.words[next], -2 * SOM);
      if next == blocks.wilderness {
        blocks.wilderness := current;
      }
      HeapParts();
      MergeDone(m0, o0, ts, w0, s0, blocks.mem, tiles, blocks.wilderness, stats, k, k, k + 2);
    }

    method MergePrev(current: int, prev: int, ghost k: int)
      requires Merges(current, k) && FreeLeft(tiles, k) && !FreeRight(tiles, k) && prev == tiles[k - 1].addr
      modifies this`stats, this`tiles, blocks
      ensures Heap()
      ensures MergeResult(old(blocks.mem), old(blocks.order), old(tiles), old(blocks.wilderness), old(stats),
                          blocks.mem, tiles, blocks.wilderness, stats, k)
    {
      hide *;
      ghost var m0, h0, o0, ts, w0, s0 := blocks.mem, blocks.head, blocks.order, tiles, blocks.wilderness, stats;
      MergeReady(current, k, k - 1, k + 1);
      ghost var t := Merged(ts, k);
      blocks.SetSize(prev, blocks.mem.words[prev] + blocks.mem.words[current] + 2 * SOM);
      ghost var m1 := blocks.mem;
      SizeTears(m0, m1, h0, o0, sbrkStart, brk, ts, k - 1, k + 1, t.size);
      ReadyToJoin(t, k - 1, k + 1);
      Join2(prev, current, prev, k - 1, t);
      JoinKeeps(m0, m1, blocks.mem, sbrkStart, brk, ts, k - 1, k + 1, t.size, o0, Footer(t), End(t), k);
      SameWord(m0, blocks.mem, current);
      HeapParts();
      UpdateStatistics(-1, 0, 2 * SOM, blocks.mem.words[current] + 2 * SOM, -2 * SOM);
      if current == blocks.wilderness {
        blocks.wilderness := prev;
      }
      HeapParts();
      MergeDone(m0, o0, ts, w0, s0, blocks.mem, tiles, blocks.wilderness, stats, k, k - 1, k + 1);
    }

    /** Merges a newly freed block with its free neighbours. */
    method MergeBlocks(current: int, ghost k: int)
      requires Merges(current, k)
      modifies this`stats, this`tiles, blocks
      ensures Heap()
      ensures MergeResult(old(blocks.mem), old(blocks.order), old(tiles), old(blocks.wilderness), old(stats),
                          blocks.mem, tiles, blocks.wilderness, stats, k)
    {
      hide Torn, HeapOK, Splice, JoinSize, CellsOK;
      Neighbours(blocks.mem, blocks.head, blocks.order, sbrkStart, brk, tiles, k);
      var prevFree := current != sbrkStart && blocks.mem.words[current - SOM + 8] != 0;
      var next := current + blocks.mem.words[current] + 2 * SOM;
      var nextFree := next != brk && blocks.mem.words[next + 8] != 0;
      if nextFree && prevFree {
        MergeBoth(current, current - SOM - blocks.mem.words[current - SOM] - SOM, next, k);
      } else if nextFree {
        MergeNext(current, next, k);
      } else if prevFree {
        MergePrev(current, current - SOM - blocks.mem.words[current - SOM] - SOM, k);
      } else {
        MergeAlone(tiles, k);
        UpdateStatistics(0, 1, 0, blocks.mem.words[current], 0);
      }
    }

    ghost predicate Mapped()
      reads this, blocks
    {
      MappedOK(blocks.mem, sbrkStart, brk, mapped)
    }

    ghost predicate Locates(p: int, at: Place)
      reads this
    {
      match at
      case Nothing => p == NULL
      case InHeap(k) => 0 <= k < |tiles| && p == Payload(tiles[k])
      case InMap(j) => 0 <= j < |mapped| && p == Payload(mapped[j])
    }

    /** munmap.  On anything but a whole mapping it fails, which sfree does not notice;
        the model then stops and reports failure. */
    method Munmap(a: int, n: int) returns (ok: bool)
      modifies this`mapped, blocks`mem
      ensures ok <==> exists j :: 0 <= j < |old(mapped)| && old(mapped)[j].addr == a && SOM + old(mapped)[j].size == n
      ensures !ok ==> mapped == old(mapped) && blocks.mem == old(blocks.mem)
      ensures ok ==> Frame(old(blocks.mem), blocks.mem, a, a + n, []) && Absent(blocks.mem, a, a + n)
      ensures ok ==> exists j :: 0 <= j < |old(mapped)| && old(mapped)[j].addr == a && SOM + old(mapped)[j].size == n
                       && mapped == Drop(old(mapped), j)
    {
      ok := exists j :: 0 <= j < |mapped| && mapped[j].addr == a && SOM + mapped[j].size == n;
      if ok {
        var j :| 0 <= j < |mapped| && mapped[j].addr == a && SOM + mapped[j].size == n;
        mapped := Drop(mapped, j);
        UnmappedIsAbsent(blocks.mem, a, a + n);
        blocks.mem := Unmap(blocks.mem, a, a + n);
      }
    }

    /** The heap half of sfree. */
    method FreeInHeap(p: int, ghost k: int)
      requires Heap() && Mapped() && Locates(p, InHeap(k)) && !tiles[k].free && tiles[k].size < MMAP_THRESHOLD
      requires p - SOM in blocks.mem.words && blocks.mem.words[p - SOM] == tiles[k].size
      modifies this`stats, this`tiles, blocks
      ensures Heap() && Mapped()
      ensures MergeResult(old(blocks.mem), old(blocks.order), SetFlag(old(tiles), k, true), old(blocks.wilderness),
                          old(stats),
                          blocks.mem, tiles, blocks.wilderness, stats, k)
      ensures OthersKept(old(blocks.mem), blocks.mem, old(tiles), mapped, -1, -1)
    {
      hide HeapOK, Coalesced, Frame, BytesKept, Tiled, Stored, MappedOK;
      var block := p - SOM;
      ghost var m0, o0, ts := blocks.mem, blocks.order, tiles;
      HeapTiles(m0, blocks.head, o0, sbrkStart, brk, ts, k, k + 1);
      blocks.SetFree(block, 1);
      ghost var m1 := blocks.mem;
      var end := p + blocks.mem.words[block];
      blocks.SetFree(end, 1);
      ghost var m2 := blocks.mem;
      FlagSet(m0, m1, m2, blocks.head, o0, sbrkStart, brk, ts, k, true);
      tiles := SetFlag(ts, k, true);
      MergeBlocks(block, k);
      FreeFrame(m0, m2, blocks.mem, o0, sbrkStart, brk, ts, mapped, k);
    }

    /** The mmap half of sfree, entered for any block at or above the threshold. */
    method FreeAsMapping(p: int, ghost at: Place) returns (ok: bool)
      requires Heap() && Mapped() && Locates(p, at) && !at.Nothing?
      requires at.InHeap? ==> !tiles[at.k].free && tiles[at.k].size >= MMAP_THRESHOLD
      modifies this`stats, this`mapped, blocks`mem
      ensures ok <==> at.InMap?
      ensures ok ==> Heap() && Mapped() && mapped == Drop(old(mapped), at.j)
      ensures ok ==> OthersKept(old(blocks.mem), blocks.mem, tiles, old(mapped), -1, at.j)
      ensures ok ==> Frame(old(blocks.mem), blocks.mem, p - SOM, MapEnd(old(mapped)[at.j]), [])
      ensures ok ==> Absent(blocks.mem, p - SOM, MapEnd(old(mapped)[at.j]))
      ensures var t := if at.InHeap? then tiles[at.k] else old(mapped)[at.j];
        Plus(stats, Stats(1, 0, t.size, 0, 2 * SOM)) == old(stats)
      ensures !ok ==> mapped == old(mapped)
      ensures !ok ==> LinkIs(blocks.mem.words, p - SOM + 8, 1) && LinkIs(blocks.mem.words, Footer(tiles[at.k]) + 8, 0)
    {
      hide HeapOK, BytesKept, Frame, MappedOK, OthersKept, Drop, Absent;
      var block := p - SOM;
      ghost var m0, t := blocks.mem, if at.InHeap? then tiles[at.k] else mapped[at.j];
      MappingAt(m0, blocks.head, blocks.order, sbrkStart, brk, tiles, mapped, at, block);
      blocks.SetFree(block, 1);
      ghost var m1 := blocks.mem;
      var size := blocks.mem.words[block];
      UpdateStatistics(-1, 0, -size, 0, -2 * SOM);
      ok := Munmap(block, size + SOM);
      if ok {
        StoredThenFrame(m0, m1, blocks.mem, block + 8, 1, block, block + size + SOM);
        MapDropped(m0, blocks.mem, sbrkStart, brk, old(mapped), at.j);
        HeapElsewhere(m0, blocks.mem, blocks.head, blocks.order, sbrkStart, brk, tiles, block, MapEnd(t));
      }
    }

    /** The first half of splitBlock: block k leaves the list and its two parts get headers. */
    method CutHeaders(size: nat, low: int, ghost k: int) returns (high: int)
      requires Heap() && 0 <= k < |tiles| && low == tiles[k].addr && tiles[k].size >= size + 2 * SOM
      modifies blocks`mem, blocks`head, blocks`count, blocks`order
      ensures high == HighPart(tiles[k], size).addr
      ensures blocks.Threaded() && Sorted(blocks.mem.words, blocks.order)
      ensures blocks.order == Without(old(blocks.order), low) && blocks.count == old(blocks.count) - 1
      ensures Records(blocks.mem.words, low, LowPart(tiles[k], size))
      ensures Records(blocks.mem.words, high, HighPart(tiles[k], size))
      ensures Frame(old(blocks.mem), blocks.mem, low, End(tiles[k]), old(blocks.order))
      ensures BytesKept(old(blocks.mem), blocks.mem, Payload(tiles[k]), size)
    {
      hide *;
      ghost var m0, o0, t := blocks.mem, blocks.order, tiles[k];
      HeapParts();
      HeapTiles(m0, blocks.head, o0, sbrkStart, brk, tiles, k, k + 1);
      HeapList(m0, blocks.head, o0, sbrkStart, brk, tiles);
      HeadersAround(o0, sbrkStart, brk, tiles, k);
      PartsAre(t, size);
      PayloadClear(o0, sbrkStart, brk, tiles, k, size);
      high := low + size + 2 * SOM;
      blocks.ThreadedParts();
      WithoutApart(o0, low);
      blocks.RemoveMetadata(low);
      blocks.ThreadedParts();
      ghost var m1, o1 := blocks.mem, blocks.order;
      RemovedSorted(m0, m1, o0, o1, low);
      KeepsRecord(m0, m1, t, 0, 0, o0);
      RecordSays(m1.words, low, t);
      blocks.SetSize(high, blocks.mem.words[low] - size - 2 * SOM);
      ghost var m2 := blocks.mem;
      blocks.SetFree(high, 0);
      ghost var m3 := blocks.mem;
      blocks.SetSize(low, size);
      ghost var m4 := blocks.mem;
      blocks.SetFree(low, 0);
      CutStores(m1, m2, m3, m4, blocks.mem, t, size);
      ListElsewhere(m1, blocks.mem, blocks.head, o1, low, End(t));
      FrameTrans(m0, m1, blocks.mem, 0, 0, o0, low, End(t), [], low, End(t), o0);
      KeepsBytes(m0, m1, Payload(t), size, 0, 0, o0);
      BytesTrans(m0, m1, blocks.mem, Payload(t), size);
      blocks.ThreadedParts();
    }

    method CutBlock(size: nat, low: int, ghost k: int) returns (high: int)
      requires Heap() && 0 <= k < |tiles| && low == tiles[k].addr && tiles[k].size >= size + 2 * SOM
      modifies this`tiles, blocks`mem, blocks`head, blocks`count, blocks`order
      ensures Heap() && tiles == Cut(old(tiles), k, size) && high == HighPart(old(tiles)[k], size).addr
      ensures Frame(old(blocks.mem), blocks.mem, low, End(old(tiles)[k]), old(blocks.order))
      ensures BytesKept(old(blocks.mem), blocks.mem, Payload(old(tiles)[k]), size)
    {
      hide HeapOK, Linked, Sorted, Apart, Frame, BytesKept, Without;
      ghost var m0, o0, t := blocks.mem, blocks.order, tiles[k];
      ghost var l, h := LowPart(t, size), HighPart(t, size);
      HeapTiles(m0, blocks.head, o0, sbrkStart, brk, tiles, k, k + 1);
      HeapList(m0, blocks.head, o0, sbrkStart, brk, tiles);
      HeadersAround(o0, sbrkStart, brk, tiles, k);
      WithoutApart(o0, low);
      high := CutHeaders(size, low, k);
      ghost var m1, o1 := blocks.mem, blocks.order;
      assert ApartFrom(high, o1);
      blocks.AddParts(low, high, l, h);
      FrameTrans(m0, m1, blocks.mem, low, End(t), o0, Footer(l), End(h), o1 + [low], low, End(t), o0);
      KeepsBytes(m1, blocks.mem, Payload(t), size, Footer(l), End(h), o1 + [low]);
      BytesTrans(m0, m1, blocks.mem, Payload(t), size);
      CutHeap(m0, blocks.mem, blocks.head, o0, blocks.order, sbrkStart, brk, tiles, k, size);
      tiles := Cut(tiles, k, size);
    }

    /** The four views of the heap agree: the blocks tile it, memory and list record exactly
        them, the wilderness pointer names the last one, the counters count them. */
    ghost predicate Valid()
      reads this, blocks
    {
      && Heap() && Mapped() && NoFreePair(tiles) && WildOK(tiles, blocks.wilderness)
      && CountersOK()
    }

    /** The counters are those recomputed from the blocks and mappings, up to the drift. */
    ghost predicate CountersOK()
      reads this
    {
      stats == Plus(Totals(tiles), Plus(Totals(mapped), drift))
    }

    /** True when sfree would hand a heap block to munmap: origin is decided by size alone. */
    ghost predicate MistakenForMapping(at: Place)
      reads this
      requires at.InHeap? ==> 0 <= at.k < |tiles|
    {
      at.InHeap? && !tiles[at.k].free && tiles[at.k].size >= MMAP_THRESHOLD
    }

    method SFree(p: int, ghost at: Place) returns (ok: bool)
      requires Heap() && Mapped() && Locates(p, at)
      modifies this`stats, this`mapped, this`tiles, blocks
      ensures ok <==> !old(MistakenForMapping(at))
      ensures ok ==> Heap() && Mapped()
      ensures match at {
        case Nothing => old(blocks.mem) == blocks.mem && tiles == old(tiles) && stats == old(stats)
                        && mapped == old(mapped) && blocks.wilderness == old(blocks.wilderness)
                        && blocks.order == old(blocks.order)
        case InHeap(k) =>
          mapped == old(mapped)
          && (old(tiles)[k].free ==>
                old(blocks.mem) == blocks.mem && tiles == old(tiles) && stats == old(stats)
                && blocks.wilderness == old(blocks.wilderness) && blocks.order == old(blocks.order))
          && (!old(tiles)[k].free && ok ==>
                MergeResult(old(blocks.mem), old(blocks.order), SetFlag(old(tiles), k, true), old(blocks.wilderness),
                            old(stats),
                            blocks.mem, tiles, blocks.wilderness, stats, k))
          && (!ok ==>
                Plus(stats, Stats(1, 0, old(tiles)[k].size, 0, 2 * SOM)) == old(stats)
                && LinkIs(blocks.mem.words, p - SOM + 8, 1) && LinkIs(blocks.mem.words, Footer(old(tiles)[k]) + 8, 0))
        case InMap(j) =>
          tiles == old(tiles) && mapped == Drop(old(mapped), j) && blocks.wilderness == old(blocks.wilderness)
          && blocks.order == old(blocks.order)
          && Plus(stats, Stats(1, 0, old(mapped)[j].size, 0, 2 * SOM)) == old(stats)
          && Absent(blocks.mem, p - SOM, MapEnd(old(mapped)[j]))
      }
      ensures ok ==> OthersKept(old(blocks.mem), blocks.mem, old(tiles), old(mapped), -1,
                                if at.InMap? then at.j else -1)
      ensures old(Valid()) && ok ==> Valid()
    {
      hide HeapOK, MappedOK, OthersKept, BytesKept, Tiled, NoFreePair, WildOK, Totals, Freed, Coalesced, MergeDelta,
           WildAfter, Frame, Absent;
      ghost var valid, w0, s0 := Valid(), blocks.wilderness, stats;
      Located(blocks.mem, blocks.head, blocks.order, sbrkStart, brk, tiles, mapped, at);
      ok := true;
      if p == NULL {
        return;
      }
      var block := p - SOM;
      if blocks.mem.words[block + 8] != 0 {
        return;
      }
      if valid && at.InHeap? {
        HeapTiles(blocks.mem, blocks.head, blocks.order, sbrkStart, brk, tiles, at.k, at.k);
        FreeKeepsInvariant(sbrkStart, brk, tiles, at.k, w0);
        assert Freed(tiles, at.k) == Coalesced(SetFlag(tiles, at.k, true), at.k) by { FreedIs(tiles, at.k); }
      }
      if valid && at.InMap? {
        MapTotals(mapped, at.j);
      }
      if blocks.mem.words[block] < MMAP_THRESHOLD {
        FreeInHeap(p, at.k);
      } else {
        ok := FreeAsMapping(p, at);
      }
    }

    lemma FreeIn(p: int, k: int)
      requires 0 <= k < |tiles|
      ensures Locates(p, InHeap(k)) <==> p == Payload(tiles[k])
      ensures MistakenForMapping(InHeap(k)) <==> !tiles[k].free && tiles[k].size >= MMAP_THRESHOLD
    {
    }

    method SplitBlock(size: nat, address: int, ghost k: int) returns (ok: bool)
      requires Heap() && Mapped() && 0 <= k < |tiles| && address == tiles[k].addr && tiles[k].size >= size + 2 * SOM
      modifies this`stats, this`mapped, this`tiles, blocks
      ensures ok <==> HighPart(old(tiles)[k], size).size < MMAP_THRESHOLD
      ensures ok ==> Heap() && Mapped() && mapped == old(mapped) && tiles == SplitAt(old(tiles), k, size)
      ensures ok ==> stats == Plus(old(stats), SplitDelta(old(tiles), k, size))
      ensures ok ==> blocks.wilderness == SplitWild(old(tiles), k, size, old(blocks.wilderness))
      ensures ok ==> BytesKept(old(blocks.mem), blocks.mem, Payload(old(tiles)[k]), size)
      ensures ok ==>
        Frame(old(blocks.mem), blocks.mem, address, StartOf(old(tiles), SplitTo(old(tiles), k), brk), old(blocks.order))
    {
      hide *;
      ghost var m0, o0, ts, w0, s0 := blocks.mem, blocks.order, tiles, blocks.wilderness, stats;
      HeapParts();
      MappedParts();
      HeapTiles(m0, blocks.head, o0, sbrkStart, brk, ts, k, k + 1);
      CutParts(ts, k, size);
      var high := CutBlock(size, address, k);
      ghost var m1, o1, c := blocks.mem, blocks.order, tiles;
      HeapParts();
      HeapTiles(m1, blocks.head, o1, sbrkStart, brk, c, k, k + 2);
      RecordSays(m1.words, address, c[k]);
      RecordSays(m1.words, high, c[k + 1]);
      CutMapped(m0, m1, o0, sbrkStart, brk, ts, mapped, k);
      UpdateStatistics(1, -1, -2 * SOM, -(2 * SOM + blocks.mem.words[address] + blocks.mem.words[high]), 2 * SOM);
      HeapParts();
      MappedParts();
      FreeIn(high + SOM, k + 1);
      ok := SFree(high + SOM, InHeap(k + 1));
      if !ok {
        return;
      }
      OthersAt(m1, blocks.mem, c, mapped, k);
      BytesTrans(m0, m1, blocks.mem, Payload(ts[k]), size);
      SplitDone(m1, o1, sbrkStart, brk, ts, k, size, w0, s0, blocks.mem, tiles, blocks.wilderness, stats);
      SplitFrame(m0, m1, blocks.mem, o0, o1, sbrkStart, brk, ts, k, size);
      HeapParts();
      MappedParts();
      if address == blocks.wilderness {
        blocks.wilderness := high;
      }
      HeapParts();
      MappedParts();
    }

    /** Handing out block k, found by the search. */
    method Reuse(address: int, size: nat, ghost k: int) returns (ok: bool)
      requires Valid() && BestFit(tiles, k, size) && address == tiles[k].addr && size < MMAP_THRESHOLD
      modifies this`stats, this`mapped, this`tiles, blocks
      ensures ok <==> !(old(tiles)[k].size >= size + 2 * SOM + MIN_SPLIT_SIZE
                        && HighPart(old(tiles)[k], size).size >= MMAP_THRESHOLD)
      ensures ok ==> Valid() && tiles == Served(old(tiles), k, size) && mapped == old(mapped)
      ensures ok ==> Frame(old(blocks.mem), blocks.mem, address, End(old(tiles)[k]), old(blocks.order))
      ensures ok ==> OthersKept(old(blocks.mem), blocks.mem, old(tiles), old(mapped), k, -1)
    {
      hide HeapOK, MappedOK, Frame, BytesKept, Tiled, Totals, NoFreePair, WildOK, SplitAt, SplitDelta, SplitWild,
           OthersKept, Stored;
      ghost var m0, o0, ts := blocks.mem, blocks.order, tiles;
      HeapTiles(m0, blocks.head, o0, sbrkStart, brk, ts, k, k + 1);
      TileBound(sbrkStart, brk, ts, k);
      ServedInvariant(sbrkStart, brk, ts, k, size, blocks.wilderness, Plus(Totals(mapped), drift));
      SplitTestExact(ts[k].size, size);
      if SplitTest(blocks.mem.words[address], size) {
        ok := SplitBlock(size, address, k);
        if ok {
          StartAfter(sbrkStart, brk, ts, k);
        }
      } else {
        blocks.SetFree(address, 0);
        ghost var m1 := blocks.mem;
        blocks.SetFree(address + blocks.mem.words[address] + SOM, 0);
        FlagSet(m0, m1, blocks.mem, blocks.head, o0, sbrkStart, brk, ts, k, false);
        tiles := SetFlag(ts, k, false);
        UpdateStatistics(0, -1, 0, -blocks.mem.words[address], 0);
        FrameMore(m0, blocks.mem, address, End(ts[k]), [], o0);
        ok := true;
      }
      if ok {
        OthersOfOne(m0, blocks.mem, o0, sbrkStart, brk, ts, old(mapped), k);
      }
    }

    /** sbrk: moves the break, or fails and changes nothing. */
    method Sbrk(n: nat, ker: Kernel) returns (a: int)
      modifies this`brk
      ensures if Granted(old(brk), n, sbrkStart, mapped, ker)
              then a == old(brk) && brk == old(brk) + n
              else a == -1 && brk == old(brk)
    {
      if Granted(brk, n, sbrkStart, mapped, ker) {
        a, brk := brk, brk + n;
      } else {
        a := -1;
      }
    }

    /** No free block is large enough, but the last one is free: it is grown in place. */
    method GrowWilderness(size: nat, ker: Kernel) returns (p: int)
      requires Valid() && NoFit(tiles, size) && tiles != [] && tiles[|tiles| - 1].free
      modifies this`stats, this`brk, this`tiles, blocks
      ensures p == -1 <==> !Granted(old(brk), Need(old(tiles), size), sbrkStart, mapped, ker)
      ensures p == -1 ==> Valid() && tiles == old(tiles) && brk == old(brk) && blocks.mem == old(blocks.mem)
      ensures p == -1 ==>
        stats == old(stats) && blocks.order == old(blocks.order) && blocks.wilderness == old(blocks.wilderness)
      ensures p != -1 ==> Valid() && 0 < p == old(tiles)[|old(tiles)| - 1].addr && brk == p + size + 2 * SOM
      ensures p != -1 ==> tiles == old(tiles)[..|old(tiles)| - 1] + [Tile(p, size, false)]
      ensures p != -1 ==> Frame(old(blocks.mem), blocks.mem, p, brk, old(blocks.order))
      ensures p != -1 ==> InnerKept(old(blocks.mem), blocks.mem, p + SOM, brk - SOM)
      ensures p != -1 ==> OthersKept(old(blocks.mem), blocks.mem, old(tiles), mapped, |old(tiles)| - 1, -1)
    {
      hide *;
      ghost var m0, o0, ts, n, s0, brk0 := blocks.mem, blocks.order, tiles, |tiles| - 1, stats, brk;
      var w := blocks.wilderness;
      ValidParts();
      HeapTiles(m0, blocks.head, o0, sbrkStart, brk, ts, n, n + 1);
      HeapList(m0, blocks.head, o0, sbrkStart, brk, ts);
      LastTooSmall(o0, sbrkStart, brk, ts, w, size);
      RecordSays(m0.words, w, ts[n]);
      var room := blocks.mem.words[w];
      assert size > room;
      var moved := Sbrk(size - room, ker);
      if moved == -1 {
        ValidParts();
        return -1;
      }
      GrantedClear(m0, sbrkStart, brk0, size - room, mapped, ker);
      p := w;
      ghost var t := Tile(w, size, false);
      UpdateStatistics(0, -1, size - room, -room, 0);
      blocks.ThreadedParts();
      blocks.Resize(w, size, t);
      blocks.ThreadedParts();
      LastGrown(m0, blocks.mem, o0, blocks.head, blocks.order, sbrkStart, brk0, brk, ts, mapped, t, s0,
                Plus(Totals(mapped), drift));
      tiles := ts[..n] + [t];
      ValidParts();
    }

    /** The heap is extended by a new block; the break is where the last block ends. */
    method Append(size: nat, ker: Kernel) returns (p: int)
      requires Valid() && (tiles == [] || !tiles[|tiles| - 1].free)
      modifies this`stats, this`brk, this`tiles, blocks
      ensures p == -1 <==> !Granted(old(brk), Need(old(tiles), size), sbrkStart, mapped, ker)
      ensures p == -1 ==> Valid() && tiles == old(tiles) && brk == old(brk) && blocks.mem == old(blocks.mem)
      ensures p == -1 ==>
        stats == old(stats) && blocks.order == old(blocks.order) && blocks.wilderness == old(blocks.wilderness)
      ensures p != -1 ==> Valid() && 0 < p == old(brk) && brk == p + size + 2 * SOM
      ensures p != -1 ==> tiles == old(tiles) + [Tile(p, size, false)]
      ensures p != -1 ==> Frame(old(blocks.mem), blocks.mem, p, brk, old(blocks.order))
      ensures p != -1 ==> OthersKept(old(blocks.mem), blocks.mem, old(tiles), mapped, |old(tiles)|, -1)
    {
      hide *;
      ghost var m0, o0, ts, s0, brk0 := blocks.mem, blocks.order, tiles, stats, brk;
      ValidParts();
      AppendNeeds(ts, size);
      HeapList(m0, blocks.head, o0, sbrkStart, brk, ts);
      RoomAtEnd(o0, sbrkStart, brk, ts, brk, size);
      p := Sbrk(size + 2 * SOM, ker);
      if p == -1 {
        ValidParts();
        return;
      }
      GrantedClear(m0, sbrkStart, brk0, size + 2 * SOM, mapped, ker);
      ghost var t := Tile(p, size, false);
      blocks.wilderness := p;
      UpdateStatistics(1, 0, size, 0, 2 * SOM);
      blocks.ThreadedParts();
      blocks.Emplace(p, size, t);
      blocks.ThreadedParts();
      AppendMembers(ts, o0, blocks.order, p);
      TailRebuilt(m0, blocks.mem, o0, blocks.head, blocks.order, sbrkStart, brk0, brk, ts, mapped, |ts|, t);
      TailNoPair(ts, |ts|, t);
      TailTotals(ts, |ts|, t);
      AppendCounts(s0, Totals(ts), Plus(Totals(mapped), drift), t);
      LastIsWild(ts, t);
      tiles := ts + [t];
      ValidParts();
    }

    /** mmap of n bytes, at the address the kernel picks if that is free. */
    method Mmap(n: int, ker: Kernel) returns (a: int)
      requires n >= SOM
      modifies this`mapped
      ensures if MapClear(sbrkStart, brk, old(mapped), ker.place, n)
              then a == ker.place && mapped == old(mapped) + [Tile(a, n - SOM, false)]
              else a == -1 && mapped == old(mapped)
    {
      if MapClear(sbrkStart, brk, mapped, ker.place, n) {
        a := ker.place;
        mapped := mapped + [Tile(a, n - SOM, false)];
      } else {
        a := -1;
      }
    }

    method MapAnew(size: nat, ker: Kernel) returns (p: int)
      requires Valid() && size >= MMAP_THRESHOLD
      modifies this`stats, this`mapped, blocks`mem
      ensures Valid()
      ensures if MapClear(sbrkStart, brk, old(mapped), ker.place, SOM + size) then p == ker.place else p == -1
      ensures p == -1 ==> blocks.mem == old(blocks.mem) && mapped == old(mapped) && stats == old(stats)
      ensures p != -1 ==> mapped == old(mapped) + [Tile(p, size, false)] && 0 < p
      ensures p != -1 ==> Frame(old(blocks.mem), blocks.mem, p, p + SOM + size, [])
      ensures p != -1 ==> OthersKept(old(blocks.mem), blocks.mem, tiles, old(mapped), -1, -1)
    {
      hide HeapOK, MappedOK, Frame, OthersKept, Totals, NoFreePair, WildOK, Stored;
      ghost var m0, mp := blocks.mem, mapped;
      p := Mmap(size + SOM, ker);
      if p == -1 {
        return;
      }
      blocks.SetSize(p, size);
      ghost var m1 := blocks.mem;
      blocks.SetFree(p, 0);
      UpdateStatistics(1, 0, size, 0, 2 * SOM);
      MapAdded(m0, m1, blocks.mem, blocks.head, blocks.order, sbrkStart, brk, tiles, mp, Tile(p, size, false));
      MapTotal(mp, Tile(p, size, false));
    }

    /** The very first block, when the program break is not a multiple of 8: the break is padded,
        but sbrk_start is set to where it was before the padding, or to -1 if that is refused.  In
        neither case do the blocks to come tile the heap from there. */
    method AppendMisaligned(size: nat, ker: Kernel) returns (p: int)
      requires Valid() && tiles == [] && brk % 8 != 0
      modifies this`stats, this`brk, this`sbrkStart, blocks
      ensures var pad := 8 - old(brk) % 8;
        var padded := Granted(old(brk), pad, old(sbrkStart), mapped, ker.(grants := ker.pads));
        && sbrkStart == (if padded then old(brk) else -1)
        && (p != -1 <==> FirstGranted(old(brk), size, old(sbrkStart), mapped, ker))
        && brk == old(brk) + (if padded then pad else 0) + (if p != -1 then size + 2 * SOM else 0)
      ensures p == -1 ==> blocks.mem == old(blocks.mem) && blocks.order == [] && stats == old(stats)
      ensures p != -1 ==> p == old(brk) + 8 - old(brk) % 8 && p % 8 == 0 && brk == p + size + 2 * SOM
      ensures p != -1 ==> sbrkStart == old(brk) && !Tiled(sbrkStart, brk, [Tile(p, size, false)])
      ensures p != -1 ==>
        blocks.wilderness == p && TileCells(blocks.mem.words, Tile(p, size, false)) && blocks.order == [p]
      ensures FirstServed(old(Now()), size, ker, if p == -1 then NULL else p + SOM, Now())
    {
      hide HeapOK, MappedOK, Linked, Sorted, Apart, Frame, TileCells, Totals, NoFreePair, WildOK, FirstServed, Records;
      ghost var before, o0 := Now(), blocks.order;
      NoBlocks(blocks.mem, blocks.head, o0, sbrkStart, brk);
      var remainder := brk % 8;
      p := Sbrk(8 - remainder, ker.(grants := ker.pads));
      sbrkStart := p;
      if p == -1 {
        FirstRefused(before, size, ker, false);
        return;
      }
      p := Sbrk(size + 2 * SOM, ker);
      if p == -1 {
        FirstRefused(before, size, ker, true);
        return;
      }
      blocks.wilderness := p;
      UpdateStatistics(1, 0, size, 0, 2 * SOM);
      blocks.Emplace(p, size, Tile(p, size, false));
      OneMember(blocks.order, p);
      FirstObtained(before, size, ker, blocks.mem, Tile(p, size, false));
    }

    ghost predicate FirstIsMisaligned(size: nat)
      reads this
    {
      tiles == [] && brk % 8 != 0 && RoundUp(size) < MMAP_THRESHOLD
    }

    ghost function Now(): Snapshot
      reads this, blocks
    {
      Snapshot(blocks.mem, blocks.order, blocks.wilderness, tiles, mapped, sbrkStart, brk, stats, drift)
    }

    lemma NowIs()
      ensures Now()
              == Snapshot(blocks.mem, blocks.order, blocks.wilderness, tiles, mapped, sbrkStart, brk, stats, drift)
    {
    }

    /** Nothing happened. */
    twostate predicate Untouched()
      reads this, blocks
    {
      Now() == old(Now())
    }

    ghost function View(): Row
      reads this, blocks
    {
      Row(tiles, mapped, blocks.wilderness, sbrkStart, brk)
    }

    /** smalloc below the mmap threshold. */
    method FromHeap(size: nat, ker: Kernel)
        returns (r: Outcome, ghost how: Service, ghost at: Place, ghost lo: int, ghost hi: int)
      requires Valid() && size < MMAP_THRESHOLD
      modifies this, blocks
      ensures drift == old(drift)
      ensures !(old(tiles) == [] && old(brk) % 8 != 0) ==>
        && (r == Ptr(NULL) ==> Valid() && Now() == old(Now()))
        && (r.Stuck? <==> SplitsTooMuch(old(tiles), size))
        && (r == Ptr(NULL) <==> Refused(old(tiles), old(mapped), old(sbrkStart), old(brk), size, ker))
        && (r.Ptr? && r.p != NULL ==>
              && Valid() && Serves(how, old(tiles), old(mapped), old(brk), size, tiles, mapped, brk, at, lo, hi)
              && r.p == lo + SOM && Locates(r.p, at) && sbrkStart == old(sbrkStart)
              && Frame(old(blocks.mem), blocks.mem, lo, hi, old(blocks.order))
              && (how.Grow? ==> InnerKept(old(blocks.mem), blocks.mem, lo + SOM, hi - SOM))
              && OthersKept(old(blocks.mem), blocks.mem, old(tiles), old(mapped), -1, -1))
      ensures r.Stuck? ==> r.why == UnmapsHeap
      ensures old(tiles) == [] && old(brk) % 8 != 0 ==>
        (r != Ptr(NULL) <==> FirstGranted(old(brk), size, old(sbrkStart), old(mapped), ker))
      ensures old(tiles) == [] && old(brk) % 8 != 0 ==> r.Ptr? && FirstServed(old(Now()), size, ker, r.p, Now())
      ensures old(tiles) == [] && old(brk) % 8 != 0 && r != Ptr(NULL) ==>
        && r.Ptr? && r.p - SOM == old(brk) + 8 - old(brk) % 8 != sbrkStart == old(brk) && brk == r.p + size + SOM
        && !Tiled(sbrkStart, brk, [Tile(r.p - SOM, size, false)])
    {
      hide *;
      r, how, at, lo, hi := Ptr(NULL), Service.Append, Nothing, 0, 0;
      ghost var m0, ts := blocks.mem, tiles;
      NowIs();
      ValidParts();
      HeapList(m0, blocks.head, blocks.order, sbrkStart, brk, ts);
      FlagsReadable(m0, blocks.head, blocks.order, sbrkStart, brk, ts);
      RefusedBelow(ts, mapped, sbrkStart, brk, size, ker);
      blocks.ThreadedParts();
      var address := blocks.SearchFreeBlock(size);
      if address != NULL {
        ghost var k := SearchIsBestFit(m0, blocks.head, blocks.order, sbrkStart, brk, ts, address, size);
        ServesReuse(sbrkStart, brk, ts, mapped, k, size);
        FitIsNotNone(ts, k, size);
        var ok := Reuse(address, size, k);
        if !ok {
          r := Stuck(UnmapsHeap);
          return;
        }
        OthersAll(m0, blocks.mem, ts, mapped, k);
        FreeIn(address + SOM, k);
        r, how, at, lo, hi := Ptr(address + SOM), Service.Reuse(k), InHeap(k), address, End(ts[k]);
        return;
      }
      SearchFindsNone(m0, blocks.head, blocks.order, sbrkStart, brk, ts, size);
      NoFitNoSplit(ts, size);
      LastFlag(m0, blocks.head, blocks.order, sbrkStart, brk, ts, blocks.wilderness);
      var p;
      if blocks.wilderness != NULL && blocks.mem.words[blocks.wilderness + 8] != 0 {
        p := GrowWilderness(size, ker);
        how, at := Grow, InHeap(|ts| - 1);
        if p != -1 {
          OthersAll(m0, blocks.mem, ts, mapped, |ts| - 1);
          ServesGrow(ts, mapped, old(brk), size, p);
          FreeIn(p + SOM, |ts| - 1);
        }
      } else if blocks.count == 0 && brk % 8 != 0 {
        p := AppendMisaligned(size, ker);
        PastNull(p);
      } else {
        p := Append(size, ker);
        how, at := Service.Append, InHeap(|ts|);
        if p != -1 {
          OthersAll(m0, blocks.mem, ts, mapped, |ts|);
          ServesAppend(ts, mapped, old(brk), size, p);
          FreeIn(p + SOM, |ts|);
        }
      }
      NowIs();
      if p == -1 {
        return;
      }
      r, lo, hi := Ptr(p + SOM), p, p + size + 2 * SOM;
    }

    /** smalloc.  The ghost results say how the request was served, which block it got, and the
        region that was written besides list links. */
    method SMalloc(request: nat, ker: Kernel)
        returns (r: Outcome, ghost how: Service, ghost at: Place, ghost lo: int, ghost hi: int)
      requires Valid() && request < TWO64
      modifies this, blocks
      ensures drift == old(drift)
      ensures request == 0 || request > MAX_REQUEST ==> r == Ptr(NULL)
      ensures request == 0 || request > 100_000_000 ==> r == Ptr(NULL) && Untouched()
      ensures !old(FirstIsMisaligned(request)) && r == Ptr(NULL) ==> Valid() && Untouched()
      ensures !old(FirstIsMisaligned(request)) ==>
        (r.Stuck? <==>
           && 0 < request <= MAX_REQUEST && RoundUp(request) < MMAP_THRESHOLD
           && SplitsTooMuch(old(tiles), RoundUp(request)))
      ensures r.Stuck? ==> r.why == UnmapsHeap
      ensures !old(FirstIsMisaligned(request)) ==>
        (r == Ptr(NULL) <==> request == 0 || request > MAX_REQUEST
                             || Refused(old(tiles), old(mapped), old(sbrkStart), old(brk), RoundUp(request), ker))
      ensures !old(FirstIsMisaligned(request)) && 0 < request <= 100_000_000 ==>
        (r == Ptr(NULL) <==> Refused(old(tiles), old(mapped), old(sbrkStart), old(brk), RoundUp(request), ker))
      ensures !old(FirstIsMisaligned(request)) && r.Ptr? && r.p != NULL ==>
        if RoundUp(request) >= 131072 then at == InMap(|old(mapped)|) && tiles == old(tiles) && brk == old(brk)
        else at.InHeap? && mapped == old(mapped)
      ensures !old(FirstIsMisaligned(request)) && r.Ptr? && RoundUp(request) >= MMAP_THRESHOLD && r.p != NULL ==>
        lo == ker.place
      ensures !old(FirstIsMisaligned(request)) && r.Ptr? && r.p != NULL ==>
        && Valid() && 0 < request <= MAX_REQUEST
        && Serves(how, old(tiles), old(mapped), old(brk), RoundUp(request), tiles, mapped, brk, at, lo, hi)
        && r.p == lo + SOM && Locates(r.p, at) && sbrkStart == old(sbrkStart)
        && Frame(old(blocks.mem), blocks.mem, lo, hi, old(blocks.order))
        && (how.Grow? ==> InnerKept(old(blocks.mem), blocks.mem, lo + SOM, hi - SOM))
        && OthersKept(old(blocks.mem), blocks.mem, old(tiles), old(mapped), -1, -1)
      ensures old(FirstIsMisaligned(request)) && 0 < request <= MAX_REQUEST ==>
        (r != Ptr(NULL) <==> FirstGranted(old(brk), RoundUp(request), old(sbrkStart), old(mapped), ker))
      ensures old(FirstIsMisaligned(request)) && 0 < request <= 100_000_000 ==>
        r.Ptr? && FirstServed(old(Now()), RoundUp(request), ker, r.p, Now())
      ensures old(FirstIsMisaligned(request)) && r != Ptr(NULL) ==>
        && r.Ptr? && r.p - SOM == old(brk) + 8 - old(brk) % 8 != sbrkStart == old(brk)
        && brk == r.p + RoundUp(request) + SOM && !Tiled(sbrkStart, brk, [Tile(r.p - SOM, RoundUp(request), false)])
    {
      hide HeapOK, MappedOK, Frame, OthersKept, Totals, NoFreePair, WildOK, BestFit, NoFit, Served, SplitsTooMuch,
           Granted, Need, Tiled, FirstGranted, FirstServed;
      r, how, at, lo, hi := Ptr(NULL), Service.MapAnew, Nothing, 0, 0;
      if request == 0 || request > MAX_REQUEST {
        return;
      }
      RoundUpFacts(request);
      var size := RoundUp(request);
      if size < MMAP_THRESHOLD {
        r, how, at, lo, hi := FromHeap(size, ker);
      } else {
        var p := MapAnew(size, ker);
        if p != -1 {
          FrameMore(old(blocks.mem), blocks.mem, p, p + SOM + size, [], blocks.order);
          r, at, lo, hi := Ptr(p + SOM), InMap(|old(mapped)|), p, p + SOM + size;
        }
      }
    }

    // srealloc

    ghost predicate MayResize(current: int, size: int, k: int)
      reads this, blocks
    {
      Valid() && 0 <= k < |tiles| && current == tiles[k].addr && !tiles[k].free && size > tiles[k].size
    }

    /** Since the given moment block k was merged with its neighbours as the way says: the row of
        blocks, the payloads, the counters and the wilderness pointer are what they should then be. */
    ghost predicate Grew(before: Snapshot, k: int, way: Way, size: int)
      reads this, blocks
    {
      && Heap() && Mapped() && WayFits(before.tiles, k, way) && tiles == Resized(before.tiles, k, way, size)
      && Settled(before.mem, before.order, before.tiles, mapped, blocks.mem, k, way, size)
      && stats == Plus(before.stats, WayDelta(before.tiles, k, way, size))
      && blocks.wilderness == WildernessAfter(before.tiles, k, way, before.wilderness)
      && brk == before.brk + Growth(before.tiles, k, way, size)
    }

    /** What srealloc of block k finds in memory, its neighbours included. */
    lemma ResizeReady(current: int, size: int, k: int)
      requires MayResize(current, size, k)
      ensures Valid() && Heap() && Mapped() && blocks.count == |tiles| && 0 < brk < TWO64
      ensures HeapOK(blocks.mem, blocks.head, blocks.order, sbrkStart, brk, tiles)
      ensures MappedOK(blocks.mem, sbrkStart, brk, mapped) && WildOK(tiles, blocks.wilderness)
      ensures Tiled(sbrkStart, brk, tiles) && multiset(blocks.order) == multiset(Addrs(tiles))
      ensures 0 <= k < |tiles| && !tiles[k].free && size > tiles[k].size && brk == End(tiles[|tiles| - 1])
      ensures current == tiles[k].addr && current + SOM == Payload(tiles[k])
      ensures Records(blocks.mem.words, current, tiles[k])
      ensures current in blocks.mem.words && blocks.mem.words[current] == tiles[k].size
      ensures k > 0 ==>
        var foot, prev := current - SOM, tiles[k - 1].addr;
        && foot in blocks.mem.words && blocks.mem.words[foot] == tiles[k - 1].size
        && prev in blocks.mem.words && blocks.mem.words[prev] == tiles[k - 1].size
        && prev == foot - tiles[k - 1].size - SOM && current == End(tiles[k - 1]) && prev + SOM == Payload(tiles[k - 1])
      ensures k + 1 < |tiles| ==>
        var next := End(tiles[k]);
        next == tiles[k + 1].addr && next in blocks.mem.words && blocks.mem.words[next] == tiles[k + 1].size
    {
      hide HeapOK, MappedOK, Totals, NoFreePair, WildOK, Tiled, Addrs;
      Neighbours(blocks.mem, blocks.head, blocks.order, sbrkStart, brk, tiles, k);
      HeapTiles(blocks.mem, blocks.head, blocks.order, sbrkStart, brk, tiles, k, k + 1);
      if k > 0 { HeapTiles(blocks.mem, blocks.head, blocks.order, sbrkStart, brk, tiles, k - 1, k); }
      Range(sbrkStart, brk, tiles, k, k + 1);
      if k > 0 { Range(sbrkStart, brk, tiles, k - 1, k); }
    }

    lemma ValidParts()
      ensures Valid() <==>
        && HeapOK(blocks.mem, blocks.head, blocks.order, sbrkStart, brk, tiles) && blocks.count == |tiles|
        && brk < TWO64 && MappedOK(blocks.mem, sbrkStart, brk, mapped) && NoFreePair(tiles)
        && WildOK(tiles, blocks.wilderness) && stats == Plus(Totals(tiles), Plus(Totals(mapped), drift))
    {
      hide HeapOK, MappedOK, Totals, NoFreePair, WildOK;
    }

    lemma GrewBy(before: Snapshot, k: int, way: Way, size: int)
      requires Heap() && Mapped() && WayFits(before.tiles, k, way) && tiles == Resized(before.tiles, k, way, size)
      requires Settled(before.mem, before.order, before.tiles, mapped, blocks.mem, k, way, size)
      requires stats == Plus(before.stats, WayDelta(before.tiles, k, way, size))
      requires blocks.wilderness == WildernessAfter(before.tiles, k, way, before.wilderness)
      requires brk == before.brk + Growth(before.tiles, k, way, size)
      ensures Grew(before, k, way, size)
    {
      hide HeapOK, MappedOK, Settled, WayDelta, WildernessAfter, Growth, Resized, Plus;
    }

    lemma GrewMeans(before: Snapshot, k: int, way: Way, size: int)
      requires Grew(before, k, way, size)
      ensures Heap() && Mapped() && WayFits(before.tiles, k, way) && tiles == Resized(before.tiles, k, way, size)
      ensures Settled(before.mem, before.order, before.tiles, mapped, blocks.mem, k, way, size)
      ensures stats == Plus(before.stats, WayDelta(before.tiles, k, way, size))
      ensures blocks.wilderness == WildernessAfter(before.tiles, k, way, before.wilderness)
      ensures brk == before.brk + Growth(before.tiles, k, way, size)
      ensures CountersOK() <==> stats == Plus(Totals(tiles), Plus(Totals(mapped), drift))
    {
      hide HeapOK, MappedOK, Settled, WayDelta, WildernessAfter, Growth, Resized, Plus, Totals;
    }

    lemma ResizeAllowed(current: int, size: int, k: int)
      ensures MayResize(current, size, k) <==>
        Valid() && 0 <= k < |tiles| && current == tiles[k].addr && !tiles[k].free && size > tiles[k].size
    {
      hide HeapOK, MappedOK, Totals, NoFreePair, WildOK;
    }

    /** What the boundary tags around block k tell. */
    lemma Surroundings(current: int, k: int)
      requires Heap() && 0 <= k < |tiles| && current == tiles[k].addr
      ensures current in blocks.mem.words && blocks.mem.words[current] == tiles[k].size
      ensures FreeLeft(tiles, k) <==>
        && current != sbrkStart
        && (current - SOM + 8 in blocks.mem.words ==> blocks.mem.words[current - SOM + 8] != 0)
      ensures current != sbrkStart ==>
        && k > 0 && current - SOM + 8 in blocks.mem.words && current - SOM in blocks.mem.words
        && blocks.mem.words[current - SOM] == tiles[k - 1].size
      ensures var next := current + tiles[k].size + 2 * SOM;
        && next == End(tiles[k]) && (next == brk <==> k + 1 == |tiles|)
        && (FreeRight(tiles, k) <==> next != brk && (next + 8 in blocks.mem.words ==> blocks.mem.words[next + 8] != 0))
        && (next != brk ==>
              && k + 1 < |tiles| && next == tiles[k + 1].addr && next + 8 in blocks.mem.words
              && next in blocks.mem.words && blocks.mem.words[next] == tiles[k + 1].size)
    {
      hide HeapOK;
      Neighbours(blocks.mem, blocks.head, blocks.order, sbrkStart, brk, tiles, k);
    }

    lemma MappedParts()
      ensures Mapped() <==> MappedOK(blocks.mem, sbrkStart, brk, mapped)
    {
      hide MappedOK;
    }

    /** All that a Settle needs. */
    lemma ReadyToSettle(m0: Memory, brk0: int, k: int, way: Way, size: int, w0: int)
      requires HeapOK(m0, blocks.head, blocks.order, sbrkStart, brk0, tiles) && WildOK(tiles, w0)
      requires 0 <= k < |tiles| && !tiles[k].free && size > tiles[k].size
      requires way == WayOf(tiles, k, size, w0) != Alone && WayFits(tiles, k, way) && !LinksLost(tiles, k, way, size)
      requires MappedOK(m0, sbrkStart, brk, mapped) && brk == brk0 + Growth(tiles, k, way, size) && brk < TWO64
      requires var t := Target(tiles, k, way, size);
        && Records(blocks.mem.words, t.addr, t) && Frame(m0, blocks.mem, t.addr, End(tiles[To(way, k) - 1]), [])
        && BytesMoved(m0, blocks.mem, Payload(tiles[k]), Payload(t), tiles[k].size)
      requires Torn(blocks.mem, blocks.head, blocks.order, sbrkStart, tiles, From(way, k), To(way, k))
      requires blocks.count == |tiles|
      ensures ReadyFor(m0, brk0, k, way, size, w0)
    {
      hide HeapOK, MappedOK, WildOK, WayOf, LinksLost, Growth, Target, Frame, BytesMoved, Tiled, Addrs;
      HeapTiles(m0, blocks.head, blocks.order, sbrkStart, brk0, tiles, 0, 0);
    }

    /** Case b, first part: the last block is grown before it is merged to the left. */
    method GrowForLeft(current: int, prevSize: int, prev: int, size: int, ker: Kernel, ghost k: int) returns (ok: bool)
      requires MayResize(current, size, k) && WayOf(tiles, k, size, blocks.wilderness) == Left
      requires prevSize == tiles[k - 1].size && prev == tiles[k - 1].addr && WayFits(tiles, k, Left)
      requires Records(blocks.mem.words, current, tiles[k])
      requires 0 < brk
      modifies this`stats, this`brk, blocks`mem, blocks`wilderness
      ensures ok <==> Granted(old(brk), Growth(tiles, k, Left, size), sbrkStart, mapped, ker)
      ensures !ok ==> Now() == old(Now())
      ensures ok ==> MayStore(old(blocks.mem), blocks.mem, current, tiles[k].size + Growth(tiles, k, Left, size))
      ensures ok ==> LinkIs(blocks.mem.words, current, tiles[k].size + Growth(tiles, k, Left, size))
      ensures ok ==> forall y :: y in old(blocks.mem.words) && (y + 8 <= current || current + 8 <= y) ==>
        LinkIs(blocks.mem.words, y, old(blocks.mem.words[y]))
      ensures ok ==> stats == Plus(old(stats), Stats(0, 0, Growth(tiles, k, Left, size), 0, 0))
      ensures ok ==> brk == old(brk) + Growth(tiles, k, Left, size)
      ensures ok ==> blocks.wilderness == WildernessAfter(tiles, k, Left, old(blocks.wilderness))
    {
      hide HeapOK, MappedOK, Totals, NoFreePair, WildOK, JoinSize, Granted;
      JoinSizes(tiles, k - 1, k + 1);
      GrantedNone(brk, sbrkStart, mapped, ker);
      ok := true;
      if current == blocks.wilderness {
        if size >= blocks.mem.words[current] + prevSize + 2 * SOM {
          var added := size - (prevSize + blocks.mem.words[current] + 2 * SOM);
          var moved := Sbrk(added, ker);
          if moved == -1 {
            return false;
          }
          blocks.SetSize(current, blocks.mem.words[current] + added);
          UpdateStatistics(0, 0, added, 0, 0);
        }
        blocks.wilderness := prev;
      }
    }

    /** The left block takes the new size and loses its flag, and n bytes of payload move into
        it.  Fails where the memmove would run over the links of the old block, which is still
        in the list. */
    method CarryLeft(current: int, prev: int, total: nat, n: nat, ghost m0: Memory, ghost k: int, ghost j: int,
                     ghost v: int)
        returns (ok: bool)
      requires 0 < k < j <= |tiles| && j <= k + 2
      requires HeapOK(m0, blocks.head, blocks.order, sbrkStart, End(tiles[|tiles| - 1]), tiles)
      requires blocks.count == |tiles| && brk < TWO64
      requires MayStore(m0, blocks.mem, current, v) && tiles[k].size <= n
      requires current == tiles[k].addr == End(tiles[k - 1]) && prev == tiles[k - 1].addr
      modifies blocks`mem
      ensures ok <==> n <= tiles[k - 1].size + SOM + 16
      ensures ok ==> TornAt(k - 1, j) && Records(blocks.mem.words, prev, Tile(prev, total, false))
      ensures ok ==> Frame(m0, blocks.mem, prev, End(tiles[j - 1]), [])
      ensures ok ==> BytesMoved(m0, blocks.mem, Payload(tiles[k]), Payload(tiles[k - 1]), tiles[k].size)
    {
      hide HeapOK, Torn, Frame, BytesMoved, Stored, Moved, Records;
      ghost var ma := blocks.mem;
      blocks.SetSize(prev, total);
      ghost var mb := blocks.mem;
      blocks.SetFree(prev, 0);
      ghost var mc := blocks.mem;
      if prev + SOM + n > current + 16 {
        return false;
      }
      blocks.CopyCells(prev + SOM, current + SOM, n);
      LeftWrites(m0, ma, mb, mc, blocks.mem, blocks.head, blocks.order, sbrkStart, End(tiles[|tiles| - 1]), tiles, k,
                 j, total, v, n);
      ok := true;
    }

    ghost predicate ReadyFor(m0: Memory, brk0: int, k: int, way: Way, size: int, w0: int)
      reads this, blocks
    {
      && Prepared(m0, blocks.mem, blocks.order, sbrkStart, brk0, tiles, mapped, k, way, size, w0)
      && brk == brk0 + Growth(tiles, k, way, size)
      && TornAt(From(way, k), To(way, k))
      && Records(blocks.mem.words, Target(tiles, k, way, size).addr, Target(tiles, k, way, size))
    }

    method Settle1(x: int, ghost m0: Memory, ghost brk0: int, ghost k: int, ghost way: Way, ghost size: int,
                   ghost w0: int)
      requires ReadyFor(m0, brk0, k, way, size, w0) && To(way, k) == From(way, k) + 1 && x == tiles[From(way, k)].addr
      modifies this`tiles, blocks`mem, blocks`head, blocks`count, blocks`order
      ensures Heap() && Mapped() && WayFits(old(tiles), k, way) && tiles == Resized(old(tiles), k, way, size)
      ensures Settled(m0, old(blocks.order), old(tiles), mapped, blocks.mem, k, way, size)
    {
      hide Prepared, Torn, HeapOK, MappedOK, Frame, TileCells, Settled, Splice, Target, Growth, Records;
      ghost var m1, o0, ts := blocks.mem, blocks.order, tiles;
      PreparedShape(m0, m1, o0, sbrkStart, brk0, ts, mapped, k, way, size, w0);
      Join1(x, From(way, k), Target(ts, k, way, size));
      PreparedSettles(m0, m1, blocks.mem, o0, sbrkStart, brk0, ts, mapped, k, way, size, w0);
    }

    method Settle2(x: int, y: int, keep: int, ghost m0: Memory, ghost brk0: int, ghost k: int, ghost way: Way,
                   ghost size: int, ghost w0: int)
      requires ReadyFor(m0, brk0, k, way, size, w0) && To(way, k) == From(way, k) + 2
      requires keep == tiles[From(way, k)].addr
      requires {x, y} == {tiles[From(way, k)].addr, tiles[From(way, k) + 1].addr}
      modifies this`tiles, blocks`mem, blocks`head, blocks`count, blocks`order
      ensures Heap() && Mapped() && WayFits(old(tiles), k, way) && tiles == Resized(old(tiles), k, way, size)
      ensures Settled(m0, old(blocks.order), old(tiles), mapped, blocks.mem, k, way, size)
    {
      hide Prepared, Torn, HeapOK, MappedOK, Frame, TileCells, Settled, Splice, Target, Growth, Records;
      ghost var m1, o0, ts := blocks.mem, blocks.order, tiles;
      PreparedShape(m0, m1, o0, sbrkStart, brk0, ts, mapped, k, way, size, w0);
      Join2(x, y, keep, From(way, k), Target(ts, k, way, size));
      PreparedSettles(m0, m1, blocks.mem, o0, sbrkStart, brk0, ts, mapped, k, way, size, w0);
    }

    method Settle3(x: int, y: int, z: int, keep: int, ghost m0: Memory, ghost brk0: int, ghost k: int,
                   ghost way: Way, ghost size: int, ghost w0: int)
      requires ReadyFor(m0, brk0, k, way, size, w0) && To(way, k) == From(way, k) + 3
      requires keep == tiles[From(way, k)].addr
      requires x == tiles[k - 1].addr && y == tiles[k].addr && z == tiles[k + 1].addr && From(way, k) == k - 1
      modifies this`tiles, blocks`mem, blocks`head, blocks`count, blocks`order
      ensures Heap() && Mapped() && WayFits(old(tiles), k, way) && tiles == Resized(old(tiles), k, way, size)
      ensures Settled(m0, old(blocks.order), old(tiles), mapped, blocks.mem, k, way, size)
    {
      hide Prepared, Torn, HeapOK, MappedOK, Frame, TileCells, Settled, Splice, Target, Growth, Records;
      ghost var m1, o0, ts := blocks.mem, blocks.order, tiles;
      PreparedShape(m0, m1, o0, sbrkStart, brk0, ts, mapped, k, way, size, w0);
      Join3(x, y, z, keep, From(way, k), Target(ts, k, way, size));
      PreparedSettles(m0, m1, blocks.mem, o0, sbrkStart, brk0, ts, mapped, k, way, size, w0);
    }

    /** The payload moves into the left block, and the two blocks become one of the given size. */
    method TakeLeft(current: int, prev: int, total: nat, n: nat, ghost m0: Memory, ghost brk0: int, ghost k: int,
                    ghost size: int, ghost w0: int)
        returns (ok: bool)
      requires 0 < k < |tiles| && tiles[k].size <= n && MayStore(m0, blocks.mem, current, n)
      requires prev == tiles[k - 1].addr && current == tiles[k].addr == End(tiles[k - 1])
      requires HeapOK(m0, blocks.head, blocks.order, sbrkStart, brk0, tiles) && MappedOK(m0, sbrkStart, brk, mapped)
      requires blocks.count == |tiles| && brk < TWO64 && WildOK(tiles, w0)
      requires !tiles[k].free && size > tiles[k].size && WayOf(tiles, k, size, w0) == Left && WayFits(tiles, k, Left)
      requires brk == brk0 + Growth(tiles, k, Left, size) && Target(tiles, k, Left, size) == Tile(prev, total, false)
      requires LinksLost(tiles, k, Left, size) <==> n > tiles[k - 1].size + SOM + 16
      modifies this`tiles, blocks`mem, blocks`head, blocks`count, blocks`order
      ensures ok <==> !LinksLost(old(tiles), k, Left, size)
      ensures ok ==> Heap() && Mapped() && tiles == Resized(old(tiles), k, Left, size)
      ensures ok ==> Settled(m0, old(blocks.order), old(tiles), mapped, blocks.mem, k, Left, size)
    {
      hide HeapOK, MappedOK, Frame, BytesMoved, Tiled, WildOK, Torn, WayOf, Target, LinksLost, Growth, Resized, Settled,
           Records, Stored;
      HeapTiles(m0, blocks.head, blocks.order, sbrkStart, brk0, tiles, 0, 0);
      EndsBefore(sbrkStart, brk0, tiles, |tiles|);
      ok := CarryLeft(current, prev, total, n, m0, k, k + 1, n);
      if ok {
        Settle2(current, prev, prev, m0, brk0, k, Left, size, w0);
      }
    }

    /** Case b: the left neighbour is free. */
    method ReallocLeft(current: int, size: int, ker: Kernel, ghost k: int) returns (r: Outcome)
      requires MayResize(current, size, k) && WayOf(tiles, k, size, blocks.wilderness) == Left
      modifies this`stats, this`brk, this`tiles, blocks
      ensures r == old(Fate(tiles, k, size, blocks.wilderness, brk, sbrkStart, mapped, ker))
      ensures r == Ptr(NULL) ==> Valid() && Now() == old(Now())
      ensures r.Ptr? && r.p != NULL ==> Grew(old(Now()), k, Left, size)
    {
      hide HeapOK, MappedOK, Frame, BytesMoved, OthersKept, Tiled, Totals, NoFreePair, WildOK, Splice, Torn,
           TileCells, Granted;
      hide Plus, WayOf, Fate, Target, LinksLost, Growth, Room, FreeTaken, WayDelta, Resized, Settled;
      ghost var m0, o0, h0, ts, w0, brk0 := blocks.mem, blocks.order, blocks.head, tiles, blocks.wilderness, brk;
      HeapTiles(m0, h0, o0, sbrkStart, brk, ts, k, k + 1);
      LeftFate(sbrkStart, brk, ts, k, size, w0, mapped, ker);
      FateIsNoNull(sbrkStart, brk, ts, k, Left, size);
      HeapTiles(m0, h0, o0, sbrkStart, brk, ts, k - 1, k + 1);
      ghost var t, g := Target(ts, k, Left, size), Growth(ts, k, Left, size);
      var foot := current - SOM;
      var prevSize := blocks.mem.words[foot];
      var prev := foot - prevSize - SOM;
      var ok := GrowForLeft(current, prevSize, prev, size, ker, k);
      if !ok {
        return Ptr(NULL);
      }
      GrantedClear(m0, sbrkStart, brk0, g, mapped, ker);
      GrownThenMerged(old(stats), g, blocks.mem.words[prev]);
      UpdateStatistics(-1, -1, 2 * SOM, -blocks.mem.words[prev], -2 * SOM);
      var n := blocks.mem.words[current];
      ok := TakeLeft(current, prev, blocks.mem.words[prev] + n + 2 * SOM, n, m0, brk0, k, size, w0);
      if !ok {
        return Stuck(OverwritesLinks);
      }
      r := Ptr(prev + SOM);
    }

    /** Case c: the block is the last one and is grown in place.  The counters are raised before
        sbrk is asked, and stay raised if it fails. */
    method ReallocWild(current: int, size: int, ker: Kernel, ghost k: int) returns (r: Outcome)
      requires MayResize(current, size, k) && WayOf(tiles, k, size, blocks.wilderness) == Wild
      modifies this`stats, this`drift, this`brk, this`tiles, blocks
      ensures r == old(Fate(tiles, k, size, blocks.wilderness, brk, sbrkStart, mapped, ker))
      ensures r == Ptr(NULL) ==> Valid() && Now() == old(Now()).(stats := stats, drift := drift)
      ensures drift == if r == Ptr(NULL) then Plus(old(drift), Stats(0, 0, size - old(tiles)[k].size, 0, 0))
        else old(drift)
      ensures r.Ptr? && r.p != NULL ==> Grew(old(Now()), k, Wild, size)
    {
      hide *;
      ghost var m0, o0, h0, ts, w0, brk0 := blocks.mem, blocks.order, blocks.head, tiles, blocks.wilderness, brk;
      ghost var before := Now();
      NowIs();
      ResizeReady(current, size, k);
      WildFate(sbrkStart, brk, ts, k, size, w0, mapped, ker);
      FateIsNoNull(sbrkStart, brk, ts, k, Wild, size);
      TargetPlace(ts, k, Wild, size);
      WildernessGoes(ts, k, Wild, w0);
      ValidParts();
      var added := size - blocks.mem.words[current];
      assert added > 0;
      if added % 8 != 0 {
        return Stuck(AssertFails);
      }
      UpdateStatistics(0, 0, added, 0, 0);
      var moved := Sbrk(added, ker);
      if moved == -1 {
        drift := Plus(drift, Stats(0, 0, added, 0, 0));
        NowIs();
        DriftedToo(old(stats), Totals(tiles), Totals(mapped), old(drift), added);
        ValidParts();
        return Ptr(NULL);
      }
      if brk % 8 != 0 {
        return Stuck(AssertFails);
      }
      GrantedClear(m0, sbrkStart, brk0, added, mapped, ker);
      blocks.SetSize(current, blocks.mem.words[current] + added);
      ghost var mb := blocks.mem;
      blocks.SetFree(current, 0);
      StoredIsMay(mb, blocks.mem, current + 8, 0);
      InPlaceWrites(m0, m0, mb, blocks.mem, h0, o0, sbrkStart, brk0, ts, k, k + 1, size, 0);
      BytesStay(m0, blocks.mem, Payload(ts[k]), ts[k].size);
      ReadyToSettle(m0, brk0, k, Wild, size, w0);
      Settle1(current, m0, brk0, k, Wild, size, w0);
      GrewBy(before, k, Wild, size);
      r := Ptr(current + SOM);
    }

    /** Case d: the right neighbour is free and large enough.  The wilderness is not looked at. */
    method ReallocRight(current: int, next: int, size: int, ker: Kernel, ghost k: int) returns (r: Outcome)
      requires 0 <= k < |tiles| && next == End(tiles[k])
      requires MayResize(current, size, k) && WayOf(tiles, k, size, blocks.wilderness) == Right
      modifies this`stats, this`brk, this`tiles, blocks
      ensures r == old(Fate(tiles, k, size, blocks.wilderness, brk, sbrkStart, mapped, ker))
      ensures r != Ptr(NULL)
      ensures r.Ptr? ==> Grew(old(Now()), k, Right, size)
    {
      hide *;
      ghost var m0, o0, h0, ts, w0, brk0 := blocks.mem, blocks.order, blocks.head, tiles, blocks.wilderness, brk;
      ghost var before := Now();
      NowIs();
      ResizeReady(current, size, k);
      RightFate(sbrkStart, brk, ts, k, size, w0, mapped, ker);
      FateIsNoNull(sbrkStart, brk, ts, k, Right, size);
      TargetPlace(ts, k, Right, size);
      WildernessGoes(ts, k, Right, w0);
      UpdateStatistics(-1, -1, 2 * SOM, -blocks.mem.words[next], -2 * SOM);
      ghost var t := Target(ts, k, Right, size);
      blocks.SetSize(current, blocks.mem.words[current] + blocks.mem.words[next] + 2 * SOM);
      ghost var mb := blocks.mem;
      blocks.SetFree(current, 0);
      StoredIsMay(mb, blocks.mem, current + 8, 0);
      InPlaceWrites(m0, m0, mb, blocks.mem, h0, o0, sbrkStart, brk0, ts, k, k + 2, t.size, 0);
      BytesStay(m0, blocks.mem, Payload(ts[k]), ts[k].size);
      ReadyToSettle(m0, brk0, k, Right, size, w0);
      Settle2(current, next, current, m0, brk0, k, Right, size, w0);
      GrewBy(before, k, Right, size);
      r := Ptr(current + SOM);
    }

    /** The payload moves into the left block, and the three blocks become one of the given size. */
    method TakeBoth(current: int, prev: int, next: int, total: nat, n: nat,
                    ghost brk0: int, ghost k: int, ghost way: Way, ghost size: int, ghost w0: int)
        returns (ok: bool)
      requires 0 < k < |tiles| - 1 && n == tiles[k].size && (way == Both || way == BothWild)
      requires prev == tiles[k - 1].addr && current == tiles[k].addr == End(tiles[k - 1]) && next == tiles[k + 1].addr
      requires HeapOK(blocks.mem, blocks.head, blocks.order, sbrkStart, brk0, tiles) && Mapped()
      requires blocks.count == |tiles| && brk < TWO64 && WildOK(tiles, w0)
      requires !tiles[k].free && size > n && WayOf(tiles, k, size, w0) == way && WayFits(tiles, k, way)
      requires brk == brk0 + Growth(tiles, k, way, size) && Target(tiles, k, way, size) == Tile(prev, total, false)
      requires LinksLost(tiles, k, way, size) <==> n > tiles[k - 1].size + SOM + 16
      modifies this`tiles, blocks`mem, blocks`head, blocks`count, blocks`order
      ensures ok <==> !LinksLost(old(tiles), k, way, size)
      ensures ok ==> Heap() && Mapped() && tiles == Resized(old(tiles), k, way, size)
      ensures ok ==> Settled(old(blocks.mem), old(blocks.order), old(tiles), mapped, blocks.mem, k, way, size)
    {
      hide HeapOK, MappedOK, Frame, BytesMoved, Tiled, WildOK, Torn, WayOf, Target, LinksLost, Growth, Resized, Settled,
           Records;
      ghost var m0 := blocks.mem;
      HeapTiles(m0, blocks.head, blocks.order, sbrkStart, brk0, tiles, 0, 0);
      EndsBefore(sbrkStart, brk0, tiles, |tiles|);
      ok := CarryLeft(current, prev, total, n, m0, k, k + 2, n);
      if ok {
        Settle3(prev, current, next, prev, m0, brk0, k, way, size, w0);
      }
    }

    /** Case e: both neighbours are free and needed. */
    method ReallocBoth(current: int, next: int, size: int, ker: Kernel, ghost k: int) returns (r: Outcome)
      requires 0 <= k < |tiles| && next == End(tiles[k])
      requires MayResize(current, size, k) && WayOf(tiles, k, size, blocks.wilderness) == Both
      modifies this`stats, this`brk, this`tiles, blocks
      ensures r == old(Fate(tiles, k, size, blocks.wilderness, brk, sbrkStart, mapped, ker))
      ensures r != Ptr(NULL)
      ensures r.Ptr? ==> Grew(old(Now()), k, Both, size)
    {
      hide *;
      ghost var m0, o0, h0, ts, w0, brk0 := blocks.mem, blocks.order, blocks.head, tiles, blocks.wilderness, brk;
      ghost var before := Now();
      NowIs();
      ResizeReady(current, size, k);
      BothFate(sbrkStart, brk, ts, k, size, w0, mapped, ker);
      FateIsNoNull(sbrkStart, brk, ts, k, Both, size);
      TargetPlace(ts, k, Both, size);
      WildernessGoes(ts, k, Both, w0);
      MappedParts();
      var foot := current - SOM;
      UpdateStatistics(-2, -2, 4 * SOM, -(blocks.mem.words[foot] + blocks.mem.words[next]), -4 * SOM);
      MappedParts();
      var prev := foot - blocks.mem.words[foot] - SOM;
      var n := blocks.mem.words[current];
      var ok := TakeBoth(current, prev, next, blocks.mem.words[prev] + n + blocks.mem.words[next] + 4 * SOM, n,
                         brk0, k, Both, size, w0);
      if !ok {
        return Stuck(OverwritesLinks);
      }
      GrewBy(before, k, Both, size);
      r := Ptr(prev + SOM);
    }

    /** Case f with a free left neighbour: all three blocks and new memory. */
    method ReallocBothWild(current: int, next: int, size: int, ker: Kernel, ghost k: int) returns (r: Outcome)
      requires 0 <= k < |tiles| && next == End(tiles[k])
      requires MayResize(current, size, k) && WayOf(tiles, k, size, blocks.wilderness) == BothWild
      modifies this`stats, this`brk, this`tiles, blocks
      ensures r == old(Fate(tiles, k, size, blocks.wilderness, brk, sbrkStart, mapped, ker))
      ensures r == Ptr(NULL) ==> Valid() && Now() == old(Now())
      ensures r.Ptr? && r.p != NULL ==> Grew(old(Now()), k, BothWild, size)
    {
      hide *;
      ghost var m0, o0, h0, ts, w0, brk0 := blocks.mem, blocks.order, blocks.head, tiles, blocks.wilderness, brk;
      ghost var before := Now();
      NowIs();
      ResizeReady(current, size, k);
      BothWildFate(sbrkStart, brk, ts, k, size, w0, mapped, ker);
      FateIsNoNull(sbrkStart, brk, ts, k, BothWild, size);
      TargetPlace(ts, k, BothWild, size);
      WildernessGoes(ts, k, BothWild, w0);
      ValidParts();
      var foot := current - SOM;
      var prev := foot - blocks.mem.words[foot] - SOM;
      var n := blocks.mem.words[current];
      var added := size - (blocks.mem.words[prev] + n + blocks.mem.words[next] + 4 * SOM);
      assert added > 0;
      if added % 8 != 0 {
        return Stuck(AssertFails);
      }
      var moved := Sbrk(added, ker);
      if moved == -1 {
        NowIs();
        ValidParts();
        return Ptr(NULL);
      }
      GrantedClear(m0, sbrkStart, brk0, added, mapped, ker);
      MappedParts();
      UpdateStatistics(-2, -2, added + 4 * SOM, -(blocks.mem.words[prev] + blocks.mem.words[next]), -4 * SOM);
      blocks.wilderness := prev;
      MappedParts();
      var ok := TakeBoth(current, prev, next, blocks.mem.words[prev] + n + blocks.mem.words[next] + added + 4 * SOM, n,
                         brk0, k, BothWild, size, w0);
      if !ok {
        return Stuck(OverwritesLinks);
      }
      GrewBy(before, k, BothWild, size);
      r := Ptr(prev + SOM);
    }

    /** The last block gets the new memory, then the block before it gets all of that one. */
    method SwallowGrown(current: int, next: int, added: nat, ghost brk0: int, ghost k: int)
      requires HeapOK(blocks.mem, blocks.head, blocks.order, sbrkStart, brk0, tiles)
      requires blocks.count == |tiles| && brk < TWO64
      requires 0 <= k < |tiles| - 1 && !tiles[k].free && current == tiles[k].addr && next == tiles[k + 1].addr
      modifies blocks`mem
      ensures TornAt(k, k + 2)
      ensures Records(blocks.mem.words, current,
                      Tile(current, tiles[k].size + tiles[k + 1].size + added + 2 * SOM, false))
      ensures Frame(old(blocks.mem), blocks.mem, current, End(tiles[k + 1]), [])
      ensures BytesMoved(old(blocks.mem), blocks.mem, Payload(tiles[k]), Payload(tiles[k]), tiles[k].size)
    {
      hide HeapOK, Frame, BytesKept, BytesMoved, Torn, TileCells, Tiled, Stored;
      ghost var m0 := blocks.mem;
      HeapTiles(m0, blocks.head, blocks.order, sbrkStart, brk0, tiles, k, k + 2);
      Span(sbrkStart, brk0, tiles, k, k + 2);
      blocks.SetSize(next, blocks.mem.words[next] + added);
      ghost var ma := blocks.mem;
      NextStored(m0, ma, current, next, ma.words[next]);
      blocks.SetSize(current, blocks.mem.words[current] + blocks.mem.words[next] + 2 * SOM);
      InPlaceWrites(m0, ma, blocks.mem, blocks.mem, blocks.head, blocks.order, sbrkStart, brk0, tiles, k, k + 2,
                    blocks.mem.words[current], ma.words[next]);
      BytesStay(m0, blocks.mem, Payload(tiles[k]), tiles[k].size);
    }

    /** Case f without a free left neighbour: the block, the last block and new memory. */
    method ReallocRightWild(current: int, next: int, size: int, ker: Kernel, ghost k: int) returns (r: Outcome)
      requires 0 <= k < |tiles| && next == End(tiles[k])
      requires MayResize(current, size, k) && WayOf(tiles, k, size, blocks.wilderness) == RightWild
      modifies this`stats, this`brk, this`tiles, blocks
      ensures r == old(Fate(tiles, k, size, blocks.wilderness, brk, sbrkStart, mapped, ker))
      ensures r == Ptr(NULL) ==> Valid() && Now() == old(Now())
      ensures r.Ptr? && r.p != NULL ==> Grew(old(Now()), k, RightWild, size)
    {
      hide *;
      ghost var m0, o0, h0, ts, w0, brk0 := blocks.mem, blocks.order, blocks.head, tiles, blocks.wilderness, brk;
      ghost var before := Now();
      NowIs();
      ResizeReady(current, size, k);
      RightWildFate(sbrkStart, brk, ts, k, size, w0, mapped, ker);
      FateIsNoNull(sbrkStart, brk, ts, k, RightWild, size);
      TargetPlace(ts, k, RightWild, size);
      WildernessGoes(ts, k, RightWild, w0);
      ValidParts();
      var added := size - (blocks.mem.words[current] + blocks.mem.words[next] + 2 * SOM);
      assert added > 0;
      if added % 8 != 0 {
        return Stuck(AssertFails);
      }
      var moved := Sbrk(added, ker);
      if moved == -1 {
        NowIs();
        ValidParts();
        return Ptr(NULL);
      }
      GrantedClear(m0, sbrkStart, brk0, added, mapped, ker);
      UpdateStatistics(-1, -1, added + 2 * SOM, -blocks.mem.words[next], -2 * SOM);
      SwallowGrown(current, next, added, brk0, k);
      TornParts(k, k + 2);
      ReadyToSettle(m0, brk0, k, RightWild, size, w0);
      Settle2(current, next, current, m0, brk0, k, RightWild, size, w0);
      HeapParts();
      MappedParts();
      blocks.wilderness := current;
      HeapParts();
      MappedParts();
      GrewBy(before, k, RightWild, size);
      r := Ptr(current + SOM);
    }

    method TryMergeRealloc(current: int, size: int, ker: Kernel, ghost k: int) returns (r: Outcome)
      requires MayResize(current, size, k)
      modifies this`stats, this`drift, this`brk, this`tiles, blocks
      ensures r == old(Fate(tiles, k, size, blocks.wilderness, brk, sbrkStart, mapped, ker))
      ensures r == Ptr(NULL) ==>
        && Valid() && Now() == old(Now()).(stats := stats, drift := drift)
        && old(Short(tiles, k, WayOf(tiles, k, size, blocks.wilderness), size))
      ensures drift == if r == Ptr(NULL) && old(WayOf(tiles, k, size, blocks.wilderness)) == Wild
                       then Plus(old(drift), Stats(0, 0, size - old(tiles)[k].size, 0, 0)) else old(drift)
      ensures r.Ptr? && r.p != NULL ==> Grew(old(Now()), k, old(WayOf(tiles, k, size, blocks.wilderness)), size)
    {
      hide *;
      ghost var ts, w := tiles, blocks.wilderness;
      ResizeReady(current, size, k);
      Surroundings(current, k);
      WayIs(ts, k, size, w);
      OrderedOf(sbrkStart, brk, ts);
      FateNull(sbrkStart, brk, ts, k, size, w, mapped, ker);
      NowIs();
      var foot := current - SOM;
      var prevFree := current != sbrkStart && blocks.mem.words[foot + 8] != 0;
      var next := current + blocks.mem.words[current] + 2 * SOM;
      var nextFree := next != brk && blocks.mem.words[next + 8] != 0;
      if prevFree && (current == blocks.wilderness
                      || size <= blocks.mem.words[current] + blocks.mem.words[foot] + 2 * SOM) {
        r := ReallocLeft(current, size, ker, k);
      } else if current == blocks.wilderness {
        r := ReallocWild(current, size, ker, k);
      } else if nextFree && size <= blocks.mem.words[next] + blocks.mem.words[current] + 2 * SOM {
        r := ReallocRight(current, next, size, ker, k);
      } else if prevFree && nextFree
                && size <= blocks.mem.words[foot] + blocks.mem.words[current] + blocks.mem.words[next] + 4 * SOM {
        r := ReallocBoth(current, next, size, ker, k);
      } else if nextFree && next == blocks.wilderness {
        if prevFree {
          r := ReallocBothWild(current, next, size, ker, k);
        } else {
          r := ReallocRightWild(current, next, size, ker, k);
        }
      } else {
        r := Ptr(NULL);
      }
      NowIs();
    }

    /** Cutting a live block down to the request, where the rest is worth keeping: the counters
        are first told that the block is free, because splitBlock assumes so. */
    method TrimBlock(address: int, request: nat, ghost k: int) returns (ok: bool)
      requires Heap() && Mapped() && NoFreePair(tiles) && CountersOK()
      requires 0 <= k < |tiles| && address == tiles[k].addr && !tiles[k].free && tiles[k].size >= request
      requires request <= MAX_REQUEST
      modifies this`stats, this`mapped, this`tiles, blocks
      ensures ok <==> old(tiles)[k].size < request + 2 * SOM + MMAP_THRESHOLD
      ensures ok ==> Heap() && Mapped() && NoFreePair(tiles) && CountersOK() && mapped == old(mapped)
      ensures ok ==> tiles == Trimmed(old(tiles), k, request)
      ensures ok ==> |tiles| > k && tiles[k].addr == address && !tiles[k].free
      ensures ok ==> request <= tiles[k].size < request + 2 * SOM + MIN_SPLIT_SIZE
      ensures ok ==> blocks.wilderness == TrimWild(old(tiles), k, request, old(blocks.wilderness))
      ensures ok ==> BytesKept(old(blocks.mem), blocks.mem, address + SOM, request)
      ensures ok ==> OthersKept(old(blocks.mem), blocks.mem, old(tiles), mapped, k, -1)
    {
      hide HeapOK, MappedOK, Totals, NoFreePair, OthersKept, BytesKept, Frame, SplitAt, SplitDelta, SplitWild, Tiled;
      ghost var m0, o0, ts := blocks.mem, blocks.order, tiles;
      HeapTiles(m0, blocks.head, o0, sbrkStart, brk, ts, k, k + 1);
      TileBound(sbrkStart, brk, ts, k);
      SplitTestExact(ts[k].size, request);
      TrimBlockFacts(sbrkStart, brk, ts, k, request);
      NothingChanged(m0, ts, mapped, k, address + SOM, request);
      ok := true;
      if SplitTest(blocks.mem.words[address], request) {
        TrimInvariant(sbrkStart, brk, ts, k, request, Plus(Totals(mapped), drift));
        UpdateStatistics(0, 1, 0, blocks.mem.words[address], 0);
        ok := SplitBlock(request, address, k);
        if ok {
          SplitOthers(m0, blocks.mem, o0, sbrkStart, brk, ts, mapped, k);
        }
      }
    }

    ghost predicate Live(p: int, at: Place)
      reads this
    {
      Locates(p, at) && !at.Nothing? && (at.InHeap? ==> !tiles[at.k].free)
    }

    ghost function BlockAt(at: Place): Tile
      reads this
      requires (at.InHeap? && 0 <= at.k < |tiles|) || (at.InMap? && 0 <= at.j < |mapped|)
    {
      if at.InHeap? then tiles[at.k] else mapped[at.j]
    }

    /** Case a: the block is large enough already, and may be cut. */
    method ReallocDown(oldp: int, request: nat, ghost at: Place) returns (r: Outcome)
      requires Valid() && Live(oldp, at) && BlockAt(at).size >= request && request <= MAX_REQUEST
      modifies this`stats, this`mapped, this`tiles, blocks
      ensures var s := old(BlockAt(at)).size;
        r == if at.InMap? && s >= request + 2 * SOM + MIN_SPLIT_SIZE then Stuck(SplitsMapping)
             else if at.InHeap? && s >= request + 2 * SOM + MMAP_THRESHOLD then Stuck(UnmapsHeap)
             else Ptr(oldp)
      ensures r.Ptr? ==> Valid() && Fitted(tiles, mapped, oldp, request) && mapped == old(mapped)
      ensures r.Ptr? ==> tiles == if at.InHeap? then Trimmed(old(tiles), at.k, request) else old(tiles)
      ensures r.Ptr? ==>
        Reallocated(old(blocks.mem), old(tiles), old(mapped), blocks.mem, tiles, mapped, oldp, oldp, request)
    {
      hide HeapOK, MappedOK, Totals, NoFreePair, WildOK, OthersKept, BytesKept, BytesMoved, Survive, AllKept,
           Trimmed, TrimWild, Tiled;
      var block := oldp - SOM;
      ghost var m0, ts, w0 := blocks.mem, tiles, blocks.wilderness;
      Located(m0, blocks.head, blocks.order, sbrkStart, brk, tiles, mapped, at);
      HeapTiles(m0, blocks.head, blocks.order, sbrkStart, brk, tiles, 0, 0);
      if exists j :: 0 <= j < |mapped| && mapped[j].addr == block {
        MapFound(m0, sbrkStart, brk, tiles, mapped, at, block);
        SplitTestExact(mapped[at.j].size, request);
        if SplitTest(blocks.mem.words[block], request) {
          return Stuck(SplitsMapping);
        }
        FittedMap(tiles, mapped, at.j, request);
        SameForAll(m0, tiles, mapped, oldp, request);
        return Ptr(oldp);
      }
      assert at.InHeap?;
      ghost var k := at.k;
      var ok := TrimBlock(block, request, k);
      if !ok {
        return Stuck(UnmapsHeap);
      }
      TrimKeepsWild(sbrkStart, brk, ts, k, request, w0);
      FittedTile(tiles, mapped, k, request);
      KeptByValue(m0, blocks.mem, ts, mapped, k, -1, oldp);
      TrimSurvives(ts, mapped, k, request);
      BytesStay(m0, blocks.mem, oldp, request);
      r := Ptr(oldp);
    }

    /** The second half of a successful merge: the block it ended in is cut to the request. */
    method TrimGrown(address: int, request: nat, ghost m0: Memory, ghost o0: seq<int>, ghost ts: seq<Tile>,
                     ghost brk0: int,
                     ghost w0: int, ghost k: int, ghost size: int, ghost way: Way) returns (ok: bool)
      requires Heap() && Mapped() && NoFreePair(tiles) && CountersOK()
      requires Tiled(sbrkStart, brk0, ts) && WildOK(ts, w0) && NoFreePair(ts) && MappedOK(m0, sbrkStart, brk0, mapped)
      requires 0 <= k < |ts| && !ts[k].free && ts[k].size < size && ts[k].size < request <= size
      requires request <= MAX_REQUEST
      requires way == WayOf(ts, k, size, w0) != Alone && WayFits(ts, k, way) && tiles == Resized(ts, k, way, size)
      requires Settled(m0, o0, ts, mapped, blocks.mem, k, way, size)
      requires blocks.wilderness == WildernessAfter(ts, k, way, w0)
      requires address == Target(ts, k, way, size).addr
      modifies this`stats, this`mapped, this`tiles, blocks
      ensures ok <==> Target(ts, k, way, size).size < request + 2 * SOM + MMAP_THRESHOLD
      ensures ok ==> Heap() && Mapped() && NoFreePair(tiles) && CountersOK() && mapped == old(mapped)
      ensures ok ==> (WildOK(tiles, blocks.wilderness) <==> !Forgotten(ts, k, way, size, request))
      ensures ok && Forgotten(ts, k, way, size, request) ==> blocks.wilderness == w0
      ensures ok ==> Fitted(tiles, mapped, address + SOM,
                            request) && tiles == Trimmed(old(tiles), From(way, k), request)
      ensures ok ==> Reallocated(m0, ts, mapped, blocks.mem, tiles, mapped, Payload(ts[k]), address + SOM, ts[k].size)
    {
      hide HeapOK, MappedOK, Totals, NoFreePair, WildOK, OthersKept, BytesKept, Settled, Trimmed, TrimWild, Tiled,
           WayOf, Target, Resized, Reallocated, Forgotten, Fitted, Growth, Room, WildernessAfter;
      ghost var m1, i := blocks.mem, From(way, k);
      HeapTiles(m1, blocks.head, blocks.order, sbrkStart, brk, tiles, 0, 0);
      WayShape(sbrkStart, brk0, ts, k, size, w0);
      TargetAt(ts, k, way, size);
      TargetPlace(ts, k, way, size);
      ok := TrimBlock(address, request, i);
      if ok {
        GrownInPlace(m0, m1, blocks.mem, sbrkStart, brk0, o0, ts, mapped, k, size, request, w0);
        RegrowWilderness(sbrkStart, brk0, brk, ts, k, size, request, w0);
        FittedTile(tiles, mapped, i, request);
      }
    }

    /** A heap block that is too small, grown where it is or into its neighbours. */
    method ReallocInPlace(oldp: int, request: nat, ker: Kernel, ghost k: int) returns (r: Outcome)
      requires Valid() && Live(oldp, InHeap(k)) && tiles[k].size < request <= MAX_REQUEST
      modifies this`stats, this`drift, this`mapped, this`brk, this`tiles, blocks
      ensures var fate := old(Fate(tiles, k, RoundUp(request), blocks.wilderness, brk, sbrkStart, mapped, ker));
        var way := old(WayOf(tiles, k, RoundUp(request), blocks.wilderness));
        r == if fate.Stuck? || fate.p == NULL then fate
             else if WayFits(old(tiles), k, way)
               && Target(old(tiles), k, way, RoundUp(request)).size >= request + 2 * SOM + MMAP_THRESHOLD
             then Stuck(UnmapsHeap)
             else fate
      ensures r == Ptr(NULL) ==> Valid() && Now() == old(Now()).(stats := stats, drift := drift)
      ensures r == Ptr(NULL) ==>
        old(Short(tiles, k, WayOf(tiles, k, RoundUp(request), blocks.wilderness), RoundUp(request)))
      ensures drift == if r == Ptr(NULL) && old(WayOf(tiles, k, RoundUp(request), blocks.wilderness)) == Wild
                       then Plus(old(drift), Stats(0, 0, RoundUp(request) - old(tiles)[k].size, 0, 0)) else old(drift)
      ensures r.Ptr? && r.p != NULL ==>
        && Heap() && Mapped() && NoFreePair(tiles) && CountersOK() && mapped == old(mapped)
        && (WildOK(tiles, blocks.wilderness) <==>
              !Forgotten(old(tiles), k, old(WayOf(tiles, k, RoundUp(request), blocks.wilderness)), RoundUp(request),
                         request))
        && (!WildOK(tiles, blocks.wilderness) ==> blocks.wilderness == old(blocks.wilderness))
        && Fitted(tiles, mapped, r.p, request)
        && InPlaceResult(old(View()), k, request, View())
        && Reallocated(old(blocks.mem), old(tiles), old(mapped), blocks.mem, tiles, mapped, oldp, r.p,
                       old(tiles)[k].size)
    {
      hide *;
      var block, size := oldp - SOM, RoundUp(request);
      ghost var m0, o0, ts, w0, brk0 := blocks.mem, blocks.order, tiles, blocks.wilderness, brk;
      ghost var v, before := View(), Now();
      NowIs();
      ValidParts();
      ValidGives();
      RoundUpFacts(request);
      LiveInHeap(oldp, k);
      ghost var way := WayOf(ts, k, size, w0);
      PayloadIs(ts[k]);
      HeapTiles(m0, blocks.head, o0, sbrkStart, brk, ts, k, k + 1);
      OrderedOf(sbrkStart, brk, ts);
      ResizeAllowed(block, size, k);
      r := TryMergeRealloc(block, size, ker, k);
      if r.Stuck? || r.p == NULL {
        return;
      }
      var address := r.p - SOM;
      FateTarget(sbrkStart, brk0, ts, k, size, w0, mapped, ker);
      WayShape(sbrkStart, brk0, ts, k, size, w0);
      PayloadIs(Target(ts, k, way, size));
      GrewMeans(before, k, way, size);
      WayNoPair(ts, k, way, size);
      WayCounts(ts, k, way, size, Plus(Totals(mapped), drift));
      TargetAt(ts, k, way, size);
      TargetPlace(ts, k, way, size);
      var ok := TrimGrown(address, request, m0, o0, ts, brk0, w0, k, size, way);
      if !ok {
        r := Stuck(UnmapsHeap);
        return;
      }
      ValidGives();
      InPlaceIs(v, k, request, View());
    }

    /** memmove of n bytes into a live block with room for them. */
    method CopyInto(p: int, src: int, n: nat, ghost at: Place)
      requires Valid() && Live(p, at) && BlockAt(at).size >= n
      modifies blocks`mem
      ensures Valid() && BytesMoved(old(blocks.mem), blocks.mem, src, p, n)
      ensures AllKept(old(blocks.mem), blocks.mem, tiles, mapped, p)
    {
      hide HeapOK, MappedOK, Frame, BytesMoved, OthersKept, AllKept, Totals, NoFreePair, WildOK, Moved;
      ghost var m0 := blocks.mem;
      blocks.CopyCells(p, src, n);
      MovedFrame(m0, blocks.mem, p, src, n);
      if at.InHeap? {
        PayloadWrite(m0, blocks.mem, blocks.head, blocks.order, sbrkStart, brk, tiles, mapped, at.k, p, p + n);
        KeptByValue(m0, blocks.mem, tiles, mapped, at.k, -1, p);
      } else {
        MappingWrite(m0, blocks.mem, blocks.head, blocks.order, sbrkStart, brk, tiles, mapped, at.j, p, p + n);
        KeptByValue(m0, blocks.mem, tiles, mapped, -1, at.j, p);
      }
    }

    /** The payload of a block that was freed, and perhaps merged into free block i, is copied to
        where the request was served since, be it elsewhere or over block i itself.  The length
        is what the old header says by now, which is no less than the payload. */
    method CopyOut(oldp: int, p: int, size: nat, ghost m1: Memory, ghost o1: seq<int>, ghost ts1: seq<Tile>,
                   ghost mp: seq<Tile>, ghost brk1: int, ghost i: int, ghost t: Tile,
                   ghost how: Service, ghost at: Place, ghost lo: int, ghost hi: int)
      requires Valid() && Locates(p, at) && p == lo + SOM && oldp == Payload(t)
      requires Tiled(sbrkStart, brk1, ts1) && multiset(o1) == multiset(Addrs(ts1))
      requires Serves(how, ts1, mp, brk1, size, tiles, mapped, brk, at, lo, hi)
      requires Frame(m1, blocks.mem, lo, hi, o1) && (how.Grow? ==> InnerKept(m1, blocks.mem, lo + SOM, hi - SOM))
      requires 0 <= i < |ts1| && ts1[i].free && t.size <= ts1[i].size < size
      requires ts1[i].addr <= t.addr && End(t) <= End(ts1[i])
      requires (ts1[i].addr < t.addr ==> Payload(ts1[i]) + SOM <= t.addr)
      requires LinkIs(m1.words, t.addr, t.size) || LinkIs(m1.words, t.addr, ts1[i].size)
      modifies blocks`mem
      ensures Valid() && AllKept(old(blocks.mem), blocks.mem, tiles, mapped, p)
      ensures BytesKept(m1, old(blocks.mem), oldp, t.size) && BytesMoved(old(blocks.mem), blocks.mem, oldp, p, t.size)
    {
      hide HeapOK, MappedOK, Totals, NoFreePair, WildOK, BytesKept, BytesMoved, Frame, Tiled, AllKept, Serves,
           InnerKept, OthersKept;
      ghost var m2 := blocks.mem;
      ServedElsewhere(sbrkStart, brk1, m2, ts1, mp, how, size, tiles, mapped, brk, at, lo, hi, i);
      LeftBehind(m1, m2, o1, sbrkStart, brk1, ts1, i, lo, hi, t);
      ServedTile(sbrkStart, brk1, ts1, mp, how, size, tiles, mapped, brk, at, lo, hi);
      Located(m2, blocks.head, blocks.order, sbrkStart, brk, tiles, mapped, at);
      var n := blocks.mem.words[oldp - SOM];
      CopyInto(p, oldp, n, at);
      MovedPart(m2, blocks.mem, oldp, p, n, t.size);
    }

    /** The last resort: the block is freed, the request is served anew, and the payload is
        copied out of the freed block, using the size still found in its old header. */
    method ReallocMove(oldp: int, request: nat, ker: Kernel, ghost k: int) returns (r: Outcome)
      requires Valid() && Live(oldp, InHeap(k)) && tiles[k].size < request <= MAX_REQUEST
      requires tiles[k].size < MMAP_THRESHOLD
      requires Short(tiles, k, WayOf(tiles, k, RoundUp(request), blocks.wilderness), RoundUp(request))
      modifies this, blocks
      ensures drift == old(drift)
      ensures r.Stuck? ==> r.why == UnmapsHeap || r.why == NullCopy
      ensures r == Stuck(UnmapsHeap) <==>
        RoundUp(request) < MMAP_THRESHOLD && SplitsTooMuch(Freed(old(tiles), k), RoundUp(request))
      ensures r == Stuck(NullCopy) <==>
        Refused(Freed(old(tiles), k), old(mapped), old(sbrkStart), old(brk), RoundUp(request), ker)
      ensures r.Ptr? ==> r.p != NULL && Valid() && Fitted(tiles, mapped, r.p, request) && sbrkStart == old(sbrkStart)
      ensures r.Ptr? ==> Obtained(old(View()).(tiles := Freed(old(tiles), k)), RoundUp(request), ker, r.p, View())
      ensures r.Ptr? ==>
        Reallocated(old(blocks.mem), old(tiles), old(mapped), blocks.mem, tiles, mapped, oldp, r.p, old(tiles)[k].size)
    {
      hide *;
      RoundUpFacts(request);
      ValidParts();
      ValidGives();
      LiveMeans(oldp, InHeap(k));
      ghost var v, m0, o0, ts, mp, w0, s0 := View(), blocks.mem, blocks.order, tiles, mapped, blocks.wilderness, stats;
      ghost var s, size, f := ts[k].size, RoundUp(request), SetFlag(ts, k, true);
      ghost var i := JoinFrom(f, k);
      HeapTiles(m0, blocks.head, blocks.order, sbrkStart, brk, ts, k, k + 1);
      StillTooSmall(sbrkStart, brk, ts, k, size, w0);
      FreedSurvives(ts, mp, k);
      var ok := SFree(oldp, InHeap(k));
      FreedLeaves(m0, o0, ts, w0, s0, blocks.mem, tiles, blocks.wilderness, stats, k);
      ghost var m1, ts1, o1, brk1 := blocks.mem, tiles, blocks.order, brk;
      ValidParts();
      HeapTiles(m1, blocks.head, o1, sbrkStart, brk, ts1, 0, 0);
      NotTheFirst(request);
      ghost var how, at, lo, hi;
      r, how, at, lo, hi := SMalloc(request, ker);
      if r.Stuck? {
        return;
      }
      if r.p == NULL {
        return Stuck(NullCopy);
      }
      ghost var m2 := blocks.mem;
      ValidParts();
      ServedTile(sbrkStart, brk1, ts1, mp, how, size, tiles, mapped, brk, at, lo, hi);
      ServesSurvives(sbrkStart, brk1, m1, m2, ts1, mp, how, size, tiles, mapped, brk, at, lo, hi, oldp);
      CopyOut(oldp, r.p, RoundUp(request), m1, o1, ts1, mp, brk1, i, ts[k], how, at, lo, hi);
      SkipMore(m0, m1, ts, mp, oldp);
      SkipMore(m1, m2, ts1, mp, oldp);
      MovedAway(m0, m1, m2, blocks.mem, ts, mp, ts1, mp, tiles, mapped, oldp, r.p, s, s);
      ValidGives();
      ObtainedBy(v.(tiles := ts1), size, ker, r.p, View(), how, at, lo, hi);
      ServedFits(at, lo, request);
    }

    lemma LiveMeans(p: int, at: Place)
      ensures Live(p, at) <==>
        || (at.InHeap? && 0 <= at.k < |tiles| && p == Payload(tiles[at.k]) && !tiles[at.k].free)
        || (at.InMap? && 0 <= at.j < |mapped| && p == Payload(mapped[at.j]))
      ensures Live(p, at) ==>
        && Locates(p, at) && BlockAt(at) == (if at.InHeap? then tiles[at.k] else mapped[at.j])
        && (MistakenForMapping(at) <==> at.InHeap? && tiles[at.k].size >= MMAP_THRESHOLD)
    {
    }

    lemma NotTheFirst(request: nat)
      requires tiles != []
      ensures !FirstIsMisaligned(request) && (request <= MAX_REQUEST ==> request < TWO64)
    {
    }

    lemma ServedFits(at: Place, lo: int, n: nat)
      requires match at
        case Nothing => false
        case InHeap(x) =>
          && 0 <= x < |tiles| && tiles[x].addr == lo && !tiles[x].free
          && RoundUp(n) <= tiles[x].size < RoundUp(n) + 2 * SOM + MIN_SPLIT_SIZE
        case InMap(x) => 0 <= x < |mapped| && mapped[x] == Tile(lo, RoundUp(n), false)
      ensures Fitted(tiles, mapped, lo + SOM, n)
    {
      hide Fitted;
      RoundUpFacts(n);
      if at.InHeap? { FittedTile(tiles, mapped, at.k, n); } else { FittedMap(tiles, mapped, at.j, n); }
    }

    lemma LargeIsMapped(request: nat)
      requires RoundUp(request) >= MMAP_THRESHOLD && request <= MAX_REQUEST
      ensures !FirstIsMisaligned(request) && request < TWO64
    {
    }

    /** memmove to the new mapping, then sfree of the old block. */
    method CopyAndFree(oldp: int, p: int, ghost at: Place, ghost at2: Place) returns (ok: bool, ghost mid: Memory)
      requires Valid() && Live(oldp, at) && Live(p, at2) && at2.InMap? && at != at2
      requires MMAP_THRESHOLD <= BlockAt(at).size <= BlockAt(at2).size
      modifies this`stats, this`mapped, this`tiles, blocks
      ensures ok <==> at.InMap?
      ensures BytesMoved(old(blocks.mem), mid, oldp, p, old(BlockAt(at)).size)
      ensures AllKept(old(blocks.mem), mid, old(tiles), old(mapped), p)
      ensures ok ==> Valid() && tiles == old(tiles) && mapped == Drop(old(mapped), at.j)
      ensures ok ==> AllKept(mid, blocks.mem, tiles, old(mapped), oldp)
    {
      hide *;
      LiveHeader(oldp, at);
      LiveMeans(oldp, at);
      CopyInto(p, oldp, blocks.mem.words[oldp - SOM], at2);
      mid := blocks.mem;
      ghost var mp := mapped;
      ValidGives();
      LiveMeans(oldp, at);
      ok := SFree(oldp, at);
      if ok {
        KeptByValue(mid, blocks.mem, tiles, mp, -1, at.j, oldp);
      }
    }

    /** A block at or above the threshold is taken for a mapping: allocate, copy, free. */
    method ReallocMapping(oldp: int, request: nat, ker: Kernel, ghost at: Place) returns (r: Outcome)
      requires Valid() && Live(oldp, at) && MMAP_THRESHOLD <= BlockAt(at).size < request <= MAX_REQUEST
      modifies this, blocks
      ensures drift == old(drift)
      ensures r == if !MapClear(old(sbrkStart), old(brk), old(mapped), ker.place,
                                SOM + RoundUp(request)) then Stuck(NullCopy)
                   else if at.InHeap? then Stuck(UnmapsHeap) else Ptr(ker.place + SOM)
      ensures r.Ptr? ==> r.p != NULL && Valid() && Fitted(tiles, mapped, r.p, request)
      ensures r.Ptr? ==> tiles == old(tiles) && brk == old(brk) && sbrkStart == old(sbrkStart)
      ensures r.Ptr? ==> mapped == Drop(old(mapped) + [Tile(ker.place, RoundUp(request), false)], at.j)
      ensures r.Ptr? ==>
        Reallocated(old(blocks.mem), old(tiles), old(mapped), blocks.mem, tiles, mapped, oldp, r.p,
                    old(BlockAt(at)).size)
    {
      hide *;
      RoundUpFacts(request);
      LiveHeader(oldp, at);
      LiveMeans(oldp, at);
      ghost var m0, ts, mp, s, size := blocks.mem, tiles, mapped, BlockAt(at).size, RoundUp(request);
      ValidParts();
      HeapTiles(m0, blocks.head, blocks.order, sbrkStart, brk, ts, 0, 0);
      PointersPositive(sbrkStart, brk, m0, ts, mp);
      RefusedAbove(ts, mp, sbrkStart, brk, size, ker);
      LargeIsMapped(request);
      ghost var how, at2, lo, hi;
      r, how, at2, lo, hi := SMalloc(request, ker);
      if r.p == NULL {
        return Stuck(NullCopy);
      }
      ghost var m1, t := blocks.mem, Tile(lo, size, false);
      ServedByMapping(how, ts, mp, old(brk), size, tiles, mapped, brk, at2, lo, hi);
      assert mapped[|mp|] == t && t in mapped && forall j :: 0 <= j < |mp| ==> mapped[j] == mp[j];
      ValidParts();
      ServesSurvives(sbrkStart, brk, m0, m1, ts, mp, how, size, tiles, mapped, brk, at2, lo, hi, oldp);
      MapApart(m1, sbrkStart, brk, tiles, mapped, at, |mp|);
      StillThere(m0, m1, ts, mp, at);
      LiveMeans(oldp, at);
      LiveMeans(r.p, at2);
      var ok;
      ghost var m2;
      ok, m2 := CopyAndFree(oldp, r.p, at, at2);
      if !ok {
        return Stuck(UnmapsHeap);
      }
      SkipMore(m0, m1, ts, mp, 0);
      DropSurvives(ts, mp + [t], at.j);
      CopiedAway(m0, m1, m2, blocks.mem, ts, mp, ts, mp + [t], mapped, oldp, r.p, s, t);
      IsRightSize(t, request);
      FittedAfterDrop(ts, mp + [t], at.j, t, request);
    }

    /** The row and a live block of it, as srealloc finds them. */
    ghost predicate Resizable(at: Place)
      reads this, blocks
    {
      RowOK(View()) && PlaceOK(View(), at)
    }

    lemma LiveIsResizable(p: int, at: Place)
      requires Valid() && Live(p, at)
      ensures Resizable(at) && SizeAt(View(), at) == BlockAt(at).size
      ensures RowOK(View()) && PlaceOK(View(), at) && PointerTo(View(), at) == p != NULL
      ensures View() == Row(tiles, mapped, blocks.wilderness, sbrkStart, brk)
      ensures Tiled(sbrkStart, brk, tiles) && Ordered(tiles) && WildOK(tiles, blocks.wilderness)
    {
      HeapTiles(blocks.mem, blocks.head, blocks.order, sbrkStart, brk, tiles, 0, 0);
      Located(blocks.mem, blocks.head, blocks.order, sbrkStart, brk, tiles, mapped, at);
      hide HeapOK, MappedOK, Totals, NoFreePair;
    }

    /** What the header in front of a live block says. */
    lemma LiveHeader(p: int, at: Place)
      requires Valid() && Live(p, at)
      ensures p - SOM in blocks.mem.words && blocks.mem.words[p - SOM] == BlockAt(at).size && !at.Nothing?
      ensures at.InHeap? ==>
        0 <= at.k < |tiles| && BlockAt(at) == tiles[at.k] && !tiles[at.k].free && p == Payload(tiles[at.k])
      ensures at.InMap? ==> 0 <= at.j < |mapped| && BlockAt(at) == mapped[at.j] && BlockAt(at).size >= MMAP_THRESHOLD
    {
      hide HeapOK, MappedOK, Totals, NoFreePair, WildOK;
      Located(blocks.mem, blocks.head, blocks.order, sbrkStart, brk, tiles, mapped, at);
    }

    lemma LiveInHeap(p: int, k: int)
      ensures Live(p, InHeap(k)) <==> 0 <= k < |tiles| && p == Payload(tiles[k]) && !tiles[k].free
    {
    }

    lemma ValidGives()
      ensures Valid() <==> Heap() && Mapped() && NoFreePair(tiles) && WildOK(tiles, blocks.wilderness) && CountersOK()
      ensures View() == Row(tiles, mapped, blocks.wilderness, sbrkStart, brk)
    {
      hide HeapOK, MappedOK, Totals, NoFreePair, WildOK;
    }

    /** srealloc of a live block. */
    method ReallocLive(oldp: int, request: nat, ker1: Kernel, ker2: Kernel, ghost at: Place) returns (r: Outcome)
      requires Valid() && Live(oldp, at) && Resizable(at) && 0 < request <= MAX_REQUEST
      modifies this, blocks
      ensures Agrees(old(VerdictIn(View(), at, request, ker1, ker2)), r)
      ensures drift
              == Plus(old(drift), old(Miscount(tiles, mapped, blocks.wilderness, sbrkStart, brk, at, request, ker1)))
      ensures r.Ptr? ==> Heap() && Mapped() && NoFreePair(tiles) && CountersOK() && Fitted(tiles, mapped, r.p, request)
      ensures r.Ptr? ==>
        (WildOK(tiles, blocks.wilderness) <==> !Forgets(old(tiles), old(blocks.wilderness), at, request))
      ensures r.Ptr? && !WildOK(tiles, blocks.wilderness) ==> blocks.wilderness == old(blocks.wilderness)
      ensures r.Ptr? ==> Resizes(old(View()), at, request, ker1, ker2, r.p, View())
      ensures r.Ptr? ==>
        Reallocated(old(blocks.mem), old(tiles), old(mapped), blocks.mem, tiles, mapped, oldp, r.p,
                    if old(BlockAt(at)).size < request then old(BlockAt(at)).size else request)
    {
      hide *;
      var block := oldp - SOM;
      ghost var v, n := View(), RoundUp(request);
      LiveIsResizable(oldp, at);
      LiveHeader(oldp, at);
      NowIs();
      PlusZero(drift);
      if blocks.mem.words[block] >= request {
        r := ReallocDown(oldp, request, at);
        ValidGives();
        DownMeans(v, at, request, ker1, ker2, r, View());
      } else if blocks.mem.words[block] < MMAP_THRESHOLD {
        r := ReallocInPlace(oldp, request, ker1, at.k);
        ValidGives();
        InPlaceMeans(v, at, request, ker1, ker2, r, View());
        if r == Ptr(NULL) {
          NowIs();
          LiveInHeap(oldp, at.k);
          ShortForgetsNothing(sbrkStart, brk, tiles, at.k, n, request, blocks.wilderness);
          r := ReallocMove(oldp, request, ker2, at.k);
          ValidGives();
          MoveMeans(v, at, request, ker1, ker2, r, View());
        }
      } else {
        r := ReallocMapping(oldp, request, ker1, at);
        ValidGives();
        MappingMeans(v, at, request, ker1, ker2, r, View());
      }
    }

    /** srealloc.  It stops at exactly the hazards the verdict names; otherwise the payload has
        moved along, the row is the one the request leads to, and the invariant holds unless the
        wilderness was forgotten. */
    method SRealloc(oldp: int, request: nat, ker1: Kernel, ker2: Kernel, ghost at: Place) returns (r: Outcome)
      requires Valid() && request < TWO64 && (if oldp == NULL then at == Nothing else Live(oldp, at) && Resizable(at))
      modifies this, blocks
      ensures request == 0 || request > 100_000_000 ==> r == Ptr(NULL) && Untouched() && Valid()
      ensures 0 < request <= 100_000_000 && oldp != NULL ==>
        Agrees(old(VerdictIn(View(), at, request, ker1, ker2)), r)
      ensures drift == if 0 < request <= 100_000_000 && oldp != NULL
                       then Plus(old(drift),
                                 old(Miscount(tiles, mapped, blocks.wilderness, sbrkStart, brk, at, request, ker1)))
                       else old(drift)
      ensures oldp != NULL && r.Ptr? && r.p != NULL ==>
        && Heap() && Mapped() && NoFreePair(tiles) && CountersOK() && Fitted(tiles, mapped, r.p, request)
        && (Valid() <==> !Forgets(old(tiles), old(blocks.wilderness), at, request))
        && (!Valid() ==> blocks.wilderness == old(blocks.wilderness))
        && Resizes(old(View()), at, request, ker1, ker2, r.p, View())
        && Reallocated(old(blocks.mem), old(tiles), old(mapped), blocks.mem, tiles, mapped, oldp, r.p,
                       if old(BlockAt(at)).size < request then old(BlockAt(at)).size else request)
      ensures oldp != NULL && r.Ptr? && r.p != NULL && old(OnEights(View())) ==>
        (OnEights(View()) <==> !LosesAlignment(old(View()), at, request, ker1))
      ensures oldp == NULL && !old(FirstIsMisaligned(request)) && r.Ptr? && r.p != NULL ==>
        Valid() && Fitted(tiles, mapped, r.p, request) && Requested(old(View()), request, ker1, r.p, View())
        && OthersKept(old(blocks.mem), blocks.mem, old(tiles), old(mapped), -1, -1)
      ensures oldp == NULL && !old(FirstIsMisaligned(request)) && 0 < request <= 100_000_000 ==>
        && (r.Stuck? <==> RoundUp(request) < 131072 && SplitsTooMuch(old(tiles), RoundUp(request)))
        && (r.Stuck? ==> r.why == UnmapsHeap)
        && (r == Ptr(NULL) <==> Refused(old(tiles), old(mapped), old(sbrkStart), old(brk), RoundUp(request), ker1))
        && (r == Ptr(NULL) ==> Valid() && Untouched())
      ensures oldp == NULL && old(FirstIsMisaligned(request)) && 0 < request <= 100_000_000 ==>
        r.Ptr? && FirstServed(old(Now()), RoundUp(request), ker1, r.p, Now())
    {
      hide HeapOK, MappedOK, Totals, NoFreePair, WildOK, ReallocVerdict, Forgets, Reallocated, Fitted, Serves, Tiled,
           Resizes, LosesAlignment, Miscount, OnEights, Refused, SplitsTooMuch, OthersKept, FirstServed, FirstGranted;
      if request == 0 || request > MAX_REQUEST {
        return Ptr(NULL);
      }
      if oldp == NULL {
        RoundUpFacts(request);
        HeapTiles(blocks.mem, blocks.head, blocks.order, sbrkStart, brk, tiles, 0, 0);
        ghost var how, at2, lo, hi;
        r, how, at2, lo, hi := SMalloc(request, ker1);
        if !old(FirstIsMisaligned(request)) && r.Ptr? && r.p != NULL {
          ServedTile(old(sbrkStart), old(brk), old(tiles), old(mapped), how, RoundUp(request), tiles, mapped, brk,
                     at2, lo, hi);
          if at2.InHeap? {
            FittedTile(tiles, mapped, at2.k, request);
          } else {
            FittedMap(tiles, mapped, at2.j, request);
          }
        }
        return;
      }
      r := ReallocLive(oldp, request, ker1, ker2, at);
      if r.Ptr? && old(OnEights(View())) {
        ResizesAligned(old(View()), at, request, ker1, ker2, r.p, View());
      }
    }
  }
}
