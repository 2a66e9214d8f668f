/** Heaps in perfect order in which one more call goes wrong.  Each lemma names the heap and the
    call; the contracts of the allocator say for all heaps when it happens. */
module Counterexamples {
  import opened Memory
  import opened Tiling
  import opened BlockListModel
  import opened HeapSpec
  import opened RequestSpec
  import opened ReallocSpec
  import opened Survival
  import opened SizeArithmetic
  import opened ClientModel
  import opened Guarantees
  import opened RowSpec
  import opened AllocatorModel

  const START := 4096

  /** A row the allocator's invariant allows, with w naming its last block. */
  ghost predicate InOrder(ts: seq<Tile>, w: int) {
    ts != [] && Tiled(START, End(ts[|ts| - 1]), ts) && NoFreePair(ts) && WildOK(ts, w)
  }

  lemma InOrderOne(t: Tile)
    requires t.addr == START
    ensures InOrder([t], START)
  {
  }

  /** Four blocks in a row; w names the last. */
  lemma InOrderFour(t: Tile, u: Tile, v: Tile, w: Tile)
    requires t.addr == START && End(t) == u.addr && End(u) == v.addr && End(v) == w.addr
    requires !(t.free && u.free) && !(u.free && v.free) && !(v.free && w.free)
    ensures InOrder([t, u, v, w], w.addr) && Ordered([t, u, v, w])
  {
    var ts := [t, u, v, w];
    assert Abut(ts, 0) && Abut(ts, 1) && Abut(ts, 2);
    assert !FreePair(ts, 0) && !FreePair(ts, 1) && !FreePair(ts, 2);
  }

  const NONE := Kernel(false, false, 0)

  const ANY := Kernel(true, true, 0x7000_0000)

  /** Two 100000-byte blocks, both freed, make one free block above the mmap threshold. */
  lemma MergingPassesTheThreshold()
    ensures var ts := [Tile(START, 100000, true), Tile(START + 100064, 100000, false)];
      InOrder(ts, START + 100064) && Freed(ts, 1) == [Tile(START, 200064, true)] && 200064 >= MMAP_THRESHOLD
  {
  }

  /** A small request served from it: the rest split off is passed to munmap. */
  lemma SplitUnmapsHeap()
    ensures InOrder([Tile(START, 200064, true)], START) && SplitsTooMuch([Tile(START, 200064, true)], 8)
  {
  }

  /** A request just below the threshold can get a whole block above it, and sfree will then
      pass that block to munmap. */
  lemma ServedAboveThreshold()
    ensures var t := Tile(START, 131104, true);
      InOrder([t], START) && !SplitsTooMuch([t], 131000) && !ServedBelowThreshold([t], 131000)
    ensures !FreeHarmless(Served([Tile(START, 131104, true)], 0, 131000), START + SOM)
  {
    var ts := [Tile(START, 131104, true)];
    InOrderOne(ts[0]);
    assert BestFit(ts, 0, 131000);
    assert Served(ts, 0, 131000) == [Tile(START, 131104, false)];
    assert Served(ts, 0, 131000)[0] in Served(ts, 0, 131000);
  }

  /** srealloc of a 1000-byte block behind a free 8-byte one, to 1008 bytes: the payload is moved
      over the list links of the block it comes from. */
  lemma LeftMergeLosesLinks()
    ensures var ts := [Tile(START, 8, true), Tile(START + 72, 1000, false)]; var w := START + 72;
      && InOrder(ts, w) && Ordered(ts)
      && ReallocVerdict(ts, [], w, START, START + 1136, InHeap(1), 1008, ANY, ANY) == Hazardous(OverwritesLinks)
  {
  }

  /** The memmove to the left leaves the links of the old block alone exactly up to the bound
      that LinksLost uses; past it the next link is either unreadable or a word of the payload. */
  lemma MoveOverLinks(m: Memory, prev: int, prevSize: nat, n: nat)
    requires var cur := prev + prevSize + 2 * SOM; cur + 16 in m.words && cur + 24 in m.words
    ensures var cur := prev + prevSize + 2 * SOM; var m' := Move(m, prev + SOM, cur + SOM, n);
      if n <= prevSize + SOM + 16
      then LinkIs(m'.words, cur + 16, m.words[cur + 16]) && LinkIs(m'.words, cur + 24, m.words[cur + 24])
      else cur + 16 in m'.words ==>
        cur + 16 + prevSize + 2 * SOM in m.words && m'.words[cur + 16] == m.words[cur + 16 + prevSize + 2 * SOM]
  {
    hide MoveCells;
    var cur := prev + prevSize + 2 * SOM;
    MovedCell(m.words, prev + SOM, cur + SOM, n, 8, cur + 16);
    MovedCell(m.words, prev + SOM, cur + SOM, n, 8, cur + 24);
  }

  /** srealloc of a 200-byte block with a free last block to its right, to 208 bytes: the
      wilderness pointer goes on naming the block that was swallowed. */
  lemma RightMergeForgetsWilderness()
    ensures var ts := [Tile(START, 200, false), Tile(START + 264, 200, true)]; var w := START + 264;
      && InOrder(ts, w) && Ordered(ts)
      && ReallocVerdict(ts, [], w, START, START + 528, InHeap(0), 208, ANY, ANY) == Fine
      && Forgets(ts, w, InHeap(0), 208)
  {
  }

  /** srealloc cuts a block to the request without rounding it. */
  lemma ShrinkingLosesAlignment()
    ensures InOrder([Tile(START, 1000, false)], START)
    ensures Trimmed([Tile(START, 1000, false)], 0, 201) == [Tile(START, 201, false), Tile(START + 265, 735, true)]
  {
  }

  /** So a heap on eights is no longer on eights. */
  lemma ShrinkingLeavesEights()
    ensures var v := Row([Tile(START, 1000, false)], [], START, START, START + 1064);
      RowOK(v) && OnEights(v) && LosesAlignment(v, InHeap(0), 201, ANY)
  {
  }

  /** A block of such a size, when last, makes the assertion on its growth fail. */
  lemma GrowthAssertionFails()
    ensures InOrder([Tile(START, 201, false)], START) && Ordered([Tile(START, 201, false)])
    ensures ReallocVerdict([Tile(START, 201, false)], [], START, START, START + 265, InHeap(0), 304, ANY, ANY)
            == Hazardous(AssertFails)
  {
  }

  /** When no block is large enough and no memory is left, the old block is freed before the
      copy to the null pointer smalloc returned. */
  lemma MoveWithoutMemory()
    ensures var ts := [Tile(START, 200, false), Tile(START + 264, 8, false)]; var w := START + 264;
      && InOrder(ts, w) && Ordered(ts)
      && ReallocVerdict(ts, [], w, START, START + 336, InHeap(0), 400, ANY, NONE) == Hazardous(NullCopy)
  {
  }

  /** The last block, to be resized from 200 to 208 bytes, cannot be grown at first; the kernel
      relents when the block has been freed and is requested anew.  All is well then, except that
      the counter of allocated bytes stays 8 too high. */
  lemma CountersStayRaised()
    ensures var ts := [Tile(START, 200, false)];
      && InOrder(ts, START) && Ordered(ts)
      && ReallocVerdict(ts, [], START, START, START + 264, InHeap(0), 208, NONE, ANY) == Fine
      && Miscount(ts, [], START, START, START + 264, InHeap(0), 208, NONE) == Stats(0, 0, 8, 0, 0)
  {
    var ts := [Tile(START, 200, false)];
    InOrderOne(ts[0]);
    assert Room(ts, 0, Wild) == 200;
    var f := SetFlag(ts, 0, true);
    assert Merged(f, 0) == f[0];
    assert Freed(ts, 0) == f;
  }

  /** sbrk refuses to enlarge the last block for a neighbour that needs it.  Nothing is lost: the
      block moves to a free one elsewhere. */
  lemma RefusedGrowthMoves()
    ensures var ts := [Tile(START, 400, true), Tile(START + 464, 8, false),
                       Tile(START + 536, 200, false), Tile(START + 800, 8, true)];
      && InOrder(ts, START + 800) && Ordered(ts)
      && WayOf(ts, 2, 304, START + 800) == RightWild
      && ReallocVerdict(ts, [], START + 800, START, START + 872, InHeap(2), 300, NONE, NONE) == Fine
  {
    var t, u := Tile(START, 400, true), Tile(START + 464, 8, false);
    var v, w := Tile(START + 536, 200, false), Tile(START + 800, 8, true);
    var ts := [t, u, v, w];
    InOrderFour(t, u, v, w);
    JoinSizes(ts, 2, 4);
    assert Room(ts, 2, RightWild) == 272;
    var f := SetFlag(ts, 2, true);
    JoinSizes(f, 2, 4);
    assert Freed(ts, 2) == [t, u, Tile(START + 536, 272, true)];
    assert FitsTile(Freed(ts, 2)[0], 304);
  }

  /** With a first break of 4097 the first block lies at 4104, and sbrk_start at 4097: the heap
      does not begin where the allocator believes. */
  method MisalignedStart() returns (a: Allocator, r: Outcome)
    ensures fresh(a) && r == Ptr(4104 + SOM) && a.sbrkStart == 4097 && a.brk == 4104 + 8 + 2 * SOM
    ensures !Tiled(a.sbrkStart, a.brk, [Tile(4104, 8, false)])
  {
    hide Tiled;
    a := new Allocator(4097);
    ghost var how, at, lo, hi;
    r, how, at, lo, hi := a.SMalloc(8, ANY);
  }

  /** Shrinking a mapping by enough to be worth splitting calls splitBlock on it. */
  lemma ShrinkingSplitsMapping(mp: Tile)
    requires mp == Tile(0x7000_0000, 200000, false)
    ensures ReallocVerdict([], [mp], NULL, START, START, InMap(0), 100, ANY, ANY) == Hazardous(SplitsMapping)
  {
  }
}
