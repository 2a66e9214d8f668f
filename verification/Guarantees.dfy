/** What the allocator's invariant and its operations promise a user of the heap. */
module Guarantees {
  import opened Memory
  import opened Tiling
  import opened BlockListModel
  import opened HeapSpec
  import opened RequestSpec
  import opened ReallocSpec
  import opened Survival
  import opened SizeArithmetic

  // The heap can be walked.

  /** Where n hops by the sizes found in memory lead from header a; -1 if one is unreadable. */
  ghost function Hops(ws: map<int, int>, a: int, n: nat): int
    decreases n
  {
    if n == 0 then a else if a !in ws then -1 else Hops(ws, a + ws[a] + 2 * SOM, n - 1)
  }

  /** Walking from sbrk_start by the headers in memory ends exactly at the break. */
  lemma {:induction false} WalkEndsAtBreak(m: Memory, start: int, brk: int, ts: seq<Tile>)
    requires Tiled(start, brk, ts) && CellsOK(m.words, ts)
    ensures Hops(m.words, start, |ts|) == brk
    decreases |ts|
  {
    if ts != [] {
      var rest := ts[1..];
      assert TileCells(m.words, ts[0]);
      if rest == [] {
        assert Hops(m.words, brk, 0) == brk;
      } else {
        assert Abut(ts, 0);
        forall i {:trigger Abut(rest, i)} | 0 <= i < |rest| - 1 ensures Abut(rest, i) { assert Abut(ts, i + 1); }
        WalkEndsAtBreak(m, End(ts[0]), brk, rest);
      }
    }
  }

  // Blocks do not overlap.

  ghost predicate Apart2(a: int, n: int, b: int, k: int) { a + n <= b || b + k <= a }

  /** The payload of a block meets no other payload, and no header or footer, its own included. */
  lemma PayloadsDisjoint(start: int, brk: int, ts: seq<Tile>, i: int, j: int)
    requires Tiled(start, brk, ts) && 0 <= i < |ts| && 0 <= j < |ts|
    ensures i != j ==> Apart2(Payload(ts[i]), ts[i].size, Payload(ts[j]), ts[j].size)
    ensures Apart2(Payload(ts[i]), ts[i].size, ts[j].addr, SOM)
    ensures Apart2(Payload(ts[i]), ts[i].size, Footer(ts[j]), SOM)
    ensures start <= ts[i].addr && End(ts[i]) <= brk
  {
  }

  // The counters.

  ghost function FreeOnes(ts: seq<Tile>): nat {
    if ts == [] then 0 else (if ts[0].free then 1 else 0) + FreeOnes(ts[1..])
  }

  ghost function SizesOf(ts: seq<Tile>, onlyFree: bool): nat {
    if ts == [] then 0 else (if ts[0].free || !onlyFree then ts[0].size else 0) + SizesOf(ts[1..], onlyFree)
  }

  /** What the counters of a valid heap say: its blocks, its free blocks, the sizes of both added
      up, and the metadata, which is always two headers' worth per block, mapped blocks included. */
  lemma {:induction false} CountersCount(ts: seq<Tile>)
    ensures Totals(ts).allocatedBlocks == |ts| && Totals(ts).freeBlocks == FreeOnes(ts)
    ensures Totals(ts).metadataBytes == 2 * SOM * Totals(ts).allocatedBlocks
    ensures Totals(ts).allocatedBytes == SizesOf(ts, false) && Totals(ts).freeBytes == SizesOf(ts, true)
    ensures 0 <= Totals(ts).freeBytes <= Totals(ts).allocatedBytes
  {
    if ts != [] { CountersCount(ts[1..]); }
  }

  /** Payloads and metadata of a heap's blocks make up the heap exactly. */
  lemma {:induction false} BytesMakeUpHeap(start: int, brk: int, ts: seq<Tile>)
    requires Tiled(start, brk, ts)
    ensures Totals(ts).allocatedBytes + Totals(ts).metadataBytes == brk - start
    decreases |ts|
  {
    if |ts| > 1 {
      var rest := ts[1..];
      assert Abut(ts, 0);
      forall i {:trigger Abut(rest, i)} | 0 <= i < |rest| - 1 ensures Abut(rest, i) { assert Abut(ts, i + 1); }
      BytesMakeUpHeap(End(ts[0]), brk, rest);
    } else if ts != [] {
      assert Totals(ts[1..]) == ZERO;
    }
  }

  // smalloc, then sfree.

  /** Handing out a free block and freeing it again gives back the same row of blocks, whether
      or not the block was split in between. */
  lemma RoundTrip(start: int, brk: int, ts: seq<Tile>, k: int, size: nat)
    requires Tiled(start, brk, ts) && NoFreePair(ts) && 0 <= k < |ts| && FitsTile(ts[k], size)
    ensures |Served(ts, k, size)| > k && Freed(Served(ts, k, size), k) == ts
  {
    hide Freed, SplitAt, SetFlag, PartsOf, Tiled, NoFreePair, FreeLeft, FreeRight;
    NoFreeNeighbours(ts, k);
    if ts[k].size >= size + 2 * SOM + MIN_SPLIT_SIZE {
      SplitAlone(start, brk, ts, k, size);
      RejoinParts(ts, k, size);
    } else {
      FlagAndFree(ts, k);
    }
  }

  lemma NoFreeNeighbours(ts: seq<Tile>, k: int)
    requires NoFreePair(ts) && 0 <= k < |ts| && ts[k].free
    ensures !FreeLeft(ts, k) && !FreeRight(ts, k)
  {
    assert k > 0 ==> !FreePair(ts, k - 1);
    assert k + 1 < |ts| ==> !FreePair(ts, k);
  }

  lemma FlagAndFree(ts: seq<Tile>, k: int)
    requires 0 <= k < |ts| && ts[k].free && !FreeLeft(ts, k) && !FreeRight(ts, k)
    ensures |SetFlag(ts, k, false)| == |ts| && Freed(SetFlag(ts, k, false), k) == ts
  {
    hide Coalesced;
    assert SetFlag(SetFlag(ts, k, false), k, true) == ts;
    MergeAlone(ts, k);
  }

  ghost function PartsOf(ts: seq<Tile>, k: int, size: nat): seq<Tile>
    requires 0 <= k < |ts| && ts[k].size >= size + 2 * SOM
  {
    Splice(ts, k, k + 1, [LowPart(ts[k], size), HighPart(ts[k], size).(free := true)])
  }

  /** With no free block to its right, the upper part stays alone. */
  lemma SplitAlone(start: int, brk: int, ts: seq<Tile>, k: int, size: nat)
    requires Tiled(start, brk, ts) && 0 <= k < |ts| && ts[k].size >= size + 2 * SOM && !FreeRight(ts, k)
    ensures SplitAt(ts, k, size) == PartsOf(ts, k, size)
  {
    hide Coalesced, Tiled;
    var f := SetFlag(Cut(ts, k, size), k + 1, true);
    assert !FreeLeft(f, k + 1) && !FreeRight(f, k + 1);
    MergeAlone(f, k + 1);
    assert f == PartsOf(ts, k, size);
  }

  lemma RejoinParts(ts: seq<Tile>, k: int, size: nat)
    requires 0 <= k < |ts| && ts[k].free && ts[k].size >= size + 2 * SOM && !FreeLeft(ts, k)
    ensures |PartsOf(ts, k, size)| > k && Freed(PartsOf(ts, k, size), k) == ts
  {
    hide JoinSize;
    var f := SetFlag(PartsOf(ts, k, size), k, true);
    assert f[k + 1].free && FreeRight(f, k) && !FreeLeft(f, k);
    JoinSizes(f, k, k + 2);
    assert Merged(f, k) == ts[k];
    assert Splice(f, k, k + 2, [ts[k]]) == ts;
  }

  /** List, wilderness and counters are functions of the row of blocks: two heaps with the same
      row agree on all of them. */
  lemma RowDeterminesRest(m: Memory, m': Memory, head: int, head': int, o: seq<int>, o': seq<int>,
                          start: int, brk: int, ts: seq<Tile>)
    requires HeapOK(m, head, o, start, brk, ts) && HeapOK(m', head', o', start, brk, ts)
    ensures o == o' && head == head'
    ensures forall i :: 0 <= i < |ts| ==> TileCells(m.words, ts[i]) && TileCells(m'.words, ts[i])
  {
    InAddrs(o, ts);
    InAddrs(o', ts);
    forall h | h in o ensures h in m.words && h in m'.words && m.words[h] == m'.words[h] {
      var x :| 0 <= x < |ts| && Addrs(ts)[x] == h;
      assert TileCells(m.words, ts[x]) && TileCells(m'.words, ts[x]);
    }
    forall i | 0 <= i < |o'| ensures LinkIs(m.words, o'[i], m'.words[o'[i]]) {
      assert o'[i] in o' && o'[i] in Addrs(ts) && o'[i] in o;
    }
    SizesKept(m'.words, m.words, o');
    SortedUnique(m.words, o, o');
  }

  // Alignment.

  ghost predicate Aligned(ts: seq<Tile>) {
    forall i :: 0 <= i < |ts| ==> ts[i].addr % 8 == 0 && ts[i].size % 8 == 0
  }

  lemma NextAligned(t: Tile)
    requires t.addr % 8 == 0
    ensures t.size % 8 == 0 ==> End(t) % 8 == 0 && Payload(t) % 8 == 0
  {
  }

  /** From an aligned start, alignment is a matter of the sizes alone: if all are multiples of 8, then
      so are all addresses, all pointers and the break. */
  lemma {:induction false} SizesDecideAlignment(start: int, brk: int, ts: seq<Tile>, n: nat)
    requires Tiled(start, brk, ts) && start % 8 == 0 && n <= |ts|
    requires forall i :: 0 <= i < n ==> ts[i].size % 8 == 0
    ensures forall i :: 0 <= i < n ==> ts[i].addr % 8 == 0 && Payload(ts[i]) % 8 == 0
    ensures StartOf(ts, n, brk) % 8 == 0 && (n == |ts| ==> Aligned(ts) && brk % 8 == 0)
  {
    if n == 0 {
      EndsBefore(start, brk, ts, 0);
    } else {
      SizesDecideAlignment(start, brk, ts, n - 1);
      EndsBefore(start, brk, ts, n);
      NextAligned(ts[n - 1]);
    }
  }

  lemma SpliceAligned(ts: seq<Tile>, i: int, j: int, mid: seq<Tile>)
    requires Aligned(ts) && Aligned(mid) && 0 <= i <= j <= |ts|
    ensures Aligned(Splice(ts, i, j, mid))
  {
  }

  lemma {:induction false} JoinAligned(ts: seq<Tile>, i: int, j: int)
    requires Aligned(ts) && 0 <= i < j <= |ts|
    ensures JoinSize(ts, i, j) % 8 == 0
    decreases j - i
  {
    hide Aligned;
    AlignedAt(ts, i);
    if j > i + 1 {
      JoinAligned(ts, i + 1, j);
      EightsAdd(ts[i].size, JoinSize(ts, i + 1, j));
    }
  }

  lemma AlignedAt(ts: seq<Tile>, i: int)
    requires Aligned(ts) && 0 <= i < |ts|
    ensures ts[i].addr % 8 == 0 && ts[i].size % 8 == 0
  {
  }

  lemma EightsAdd(a: int, b: int)
    requires a % 8 == 0 && b % 8 == 0
    ensures (a + b) % 8 == 0 && (a + 2 * SOM + b) % 8 == 0
  {
  }

  lemma FreedAligned(ts: seq<Tile>, k: int)
    requires Aligned(ts) && 0 <= k < |ts|
    ensures Aligned(Freed(ts, k))
  {
    hide Splice, JoinSize;
    var f := SetFlag(ts, k, true);
    JoinAligned(f, JoinFrom(f, k), JoinTo(f, k));
    SpliceAligned(f, JoinFrom(f, k), JoinTo(f, k), [Merged(f, k)]);
  }

  lemma CutAligned(ts: seq<Tile>, k: int, size: nat)
    requires Aligned(ts) && 0 <= k < |ts| && size % 8 == 0 && ts[k].size >= size + 2 * SOM
    ensures Aligned(Cut(ts, k, size))
  {
  }

  lemma TrimmedAligned(ts: seq<Tile>, k: int, size: nat)
    requires Aligned(ts) && 0 <= k < |ts| && size % 8 == 0
    ensures Aligned(Trimmed(ts, k, size))
  {
    hide Freed, Cut, Aligned;
    if Trims(ts[k], size) {
      CutAligned(ts, k, size);
      FreedAligned(Cut(ts, k, size), k + 1);
    }
  }

  lemma SetFlagAligned(ts: seq<Tile>, k: int, free: bool)
    requires Aligned(ts) && 0 <= k < |ts|
    ensures Aligned(SetFlag(ts, k, free))
  {
  }

  /** From an 8-aligned break, smalloc keeps every block 8-aligned and a multiple of 8 long. */
  lemma ServesAligned(ts: seq<Tile>, mp: seq<Tile>, brk: int, how: Service, size: nat,
                      ts2: seq<Tile>, mp2: seq<Tile>, brk2: int, at: Place, lo: int, hi: int)
    requires Serves(how, ts, mp, brk, size, ts2, mp2, brk2, at, lo, hi)
    requires Aligned(ts) && brk % 8 == 0 && size % 8 == 0
    ensures Aligned(ts2) && brk2 % 8 == 0
  {
    hide Served, Aligned, NoFit;
    match how
    case Reuse(k) =>
      ServedAligned(ts, k, size);
    case Grow =>
      AlignedAt(ts, |ts| - 1);
      EndAligned(ts, |ts| - 1, lo, size);
    case Append =>
      EndAligned(ts, |ts|, lo, size);
      assert ts[..|ts|] == ts;
    case MapAnew =>
  }

  lemma ServedAligned(ts: seq<Tile>, k: int, size: nat)
    requires Aligned(ts) && 0 <= k < |ts| && size % 8 == 0
    ensures Aligned(Served(ts, k, size))
  {
    hide SplitAt, SetFlag, Aligned;
    TrimmedAligned(ts, k, size);
    SetFlagAligned(ts, k, false);
  }

  /** Putting a new block at lo behind the first i blocks. */
  lemma EndAligned(ts: seq<Tile>, i: int, lo: int, size: nat)
    requires Aligned(ts) && 0 <= i <= |ts| && lo % 8 == 0 && size % 8 == 0
    ensures Aligned(ts[..i] + [Tile(lo, size, false)]) && (lo + size + 2 * SOM) % 8 == 0
  {
    EightsAdd(lo, size);
  }

  /** srealloc to a multiple of 8 keeps it so too, and none of its asserts can fail. */
  lemma ResizedAligned(start: int, brk: int, ts: seq<Tile>, k: int, size: nat, w: int, mp: seq<Tile>, ker: Kernel)
    requires Tiled(start, brk, ts) && WildOK(ts, w) && 0 <= k < |ts| && !ts[k].free && size > ts[k].size
    requires Aligned(ts) && brk % 8 == 0 && size % 8 == 0 && Ordered(ts)
    ensures Fate(ts, k, size, w, brk, start, mp, ker) != Stuck(AssertFails)
    ensures WayOf(ts, k, size, w) != Alone ==>
      && WayFits(ts, k, WayOf(ts, k, size, w))
      && Aligned(Resized(ts, k, WayOf(ts, k, size, w), size))
      && (brk + Growth(ts, k, WayOf(ts, k, size, w), size)) % 8 == 0
  {
    hide Splice, JoinSize, WayOf, Tiled, Granted, LinksLost;
    var way := WayOf(ts, k, size, w);
    WayFitsAlways(ts, k, size, w);
    if way != Alone {
      JoinAligned(ts, From(way, k), To(way, k));
      SpliceAligned(ts, From(way, k), To(way, k), [Target(ts, k, way, size)]);
    }
  }

  /** A remainder worth splitting off is never shorter than the 128 bytes of the minimum. */
  lemma SplitRemainder(ts: seq<Tile>, k: int, size: nat)
    requires 0 <= k < |ts| && Trims(ts[k], size)
    ensures |Trimmed(ts, k, size)| > k + 1 && Trimmed(ts, k, size)[k + 1].size >= 128
    ensures Trimmed(ts, k, size)[k] == LowPart(ts[k], size) && Trimmed(ts, k, size)[k + 1].free
  {
  }
}
