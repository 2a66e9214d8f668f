/** A program that uses the allocator, over any run of calls: every buffer it holds keeps what
    it wrote there, whatever else it allocates, frees, resizes or writes. */
module ClientModel {
  import opened Memory
  import opened Tiling
  import opened BlockListModel
  import opened HeapSpec
  import opened RequestSpec
  import opened ReallocSpec
  import opened Survival
  import opened SizeArithmetic
  import opened AllocatorModel
  import opened Guarantees
  import opened RowSpec

  // What the program believes: a store of independent buffers.

  /** A buffer of room bytes, of which data have been written, by offset. */
  datatype Buffer = Buffer(room: nat, data: map<int, Byte>)

  type Store = map<int, Buffer>

  datatype Command =
    | Alloc(size: nat, ker: Kernel)
    | Free(p: int)
    | Write(p: int, offset: nat, value: Byte)
    | Resize(p: int, size: nat, ker1: Kernel, ker2: Kernel)

  function Shortened(b: Buffer, n: nat): Buffer {
    Buffer(n, map i | i in b.data && i < n :: b.data[i])
  }

  /** The effect of a command on the store, given the pointer the allocator returned. */
  function After(st: Store, c: Command, result: int): Store {
    match c
    case Alloc(n, _) => if result == NULL then st else st[result := Buffer(n, map[])]
    case Free(p) => st - {p}
    case Write(p, i, v) =>
      if p in st && i < st[p].room then st[p := Buffer(st[p].room, st[p].data[i as int := v])] else st
    case Resize(p, n, _, _) => if p !in st || result == NULL then st else (st - {p})[result := Shortened(st[p], n)]
  }

  /** The store after a command, buffer by buffer and byte by byte: an allocation adds an unwritten
      buffer, free removes one, a write within the room sets one byte, and a successful realloc
      renames a buffer, keeping what lies below the new size.  Nothing else changes. */
  lemma AfterExactly(st: Store, c: Command, result: int)
    ensures var st2 := After(st, c, result);
      match c
      case Alloc(n, _) =>
        if result == 0 then st2 == st
        else
          && result in st2 && st2[result].room == n && (forall i :: i !in st2[result].data)
          && SameBut(st, st2, {result})
      case Free(p) => p !in st2 && SameBut(st, st2, {p})
      case Write(p, i, v) =>
        if p !in st || i >= st[p].room then st2 == st
        else
          && p in st2 && st2[p].room == st[p].room && i in st2[p].data && st2[p].data[i] == v && SameBut(st, st2, {p})
          && forall x :: x != i ==> SameByte(st[p], st2[p], x)
      case Resize(p, n, _, _) =>
        if p !in st || result == 0 then st2 == st
        else
          && result in st2 && st2[result].room == n && SameBut(st, st2, {p, result}) && (p != result ==> p !in st2)
          && (forall x :: x < n ==> SameByte(st[p], st2[result], x)) && (forall x :: x >= n ==> x !in st2[result].data)
  {
  }

  ghost predicate SameBut(st: Store, st2: Store, changed: set<int>) {
    forall p :: p !in changed ==> (p in st2 <==> p in st) && (p in st ==> st2[p] == st[p])
  }

  ghost predicate SameByte(b: Buffer, b2: Buffer, x: int) {
    (x in b2.data <==> x in b.data) && (x in b.data ==> b2.data[x] == b.data[x])
  }

  ghost function Replay(script: seq<Command>, results: seq<int>): Store
    requires |results| <= |script|
    decreases |results|
  {
    if results == [] then map[]
    else
      var n := |results| - 1;
      After(Replay(script, results[..n]), script[n], results[n])
  }

  // What a command does to the row of blocks.

  /** The block found is not so large that the rest of it would be passed to munmap. */
  ghost predicate AllocHarmless(ts: seq<Tile>, n: nat) {
    0 < n <= MAX_REQUEST && RoundUp(n) < MMAP_THRESHOLD ==> !SplitsTooMuch(ts, RoundUp(n))
  }

  /** The heap block at p is not taken for a mapping. */
  ghost predicate FreeHarmless(ts: seq<Tile>, p: int) {
    forall t :: t in ts && !t.free && Payload(t) == p ==> t.size < MMAP_THRESHOLD
  }

  /** Exactly when the allocator serves a command without coming to grief, and keeps track of
      its last block. */
  ghost predicate HarmlessIn(v: Row, c: Command, st: Store) {
    && RowOK(v)
    && match c
       case Alloc(n, _) => AllocHarmless(v.tiles, n)
       case Free(p) => p in st ==> FreeHarmless(v.tiles, p)
       case Write(_, _, _) => true
       case Resize(p, n, ker1, ker2) =>
         p in st && 0 < n <= MAX_REQUEST ==>
           forall at | LiveIn(v, p, at) && PlaceOK(v, at) ::
             VerdictIn(v, at, n, ker1, ker2).Fine? && !Forgets(v.tiles, v.wilderness, at, n)
  }

  ghost predicate SameRow(v: Row, v2: Row) {
    v2.tiles == v.tiles && v2.mapped == v.mapped && v2.start == v.start && v2.brk == v.brk
  }

  ghost predicate Released(v: Row, p: int, v2: Row) {
    && v2.start == v.start && v2.brk == v.brk
    && exists at :: LiveIn(v, p, at) && FreedAt(v, at, v2)
  }

  ghost predicate FreedAt(v: Row, at: Place, v2: Row) {
    match at
    case Nothing => false
    case InHeap(k) => 0 <= k < |v.tiles| && v2.tiles == Freed(v.tiles, k) && v2.mapped == v.mapped
    case InMap(j) => 0 <= j < |v.mapped| && v2.tiles == v.tiles && v2.mapped == Drop(v.mapped, j)
  }

  /** A command with this result leads from row v to row v2. */
  ghost predicate Follows(v: Row, c: Command, st: Store, result: int, v2: Row) {
    && RowOK(v) && RowOK(v2)
    && match c
       case Alloc(n, ker) => Requested(v, n, ker, result, v2)
       case Free(p) => result == NULL && if p in st then Released(v, p, v2) else SameRow(v, v2)
       case Write(_, _, _) => result == NULL && SameRow(v, v2)
       case Resize(p, n, ker1, ker2) =>
         if p in st && 0 < n <= MAX_REQUEST
         then exists at :: LiveIn(v, p, at) && PlaceOK(v, at) && Resizes(v, at, n, ker1, ker2, result, v2)
         else result == NULL && SameRow(v, v2)
  }

  /** A command that makes an aligned heap unaligned. */
  ghost predicate Loses(v: Row, c: Command, st: Store) {
    && RowOK(v) && c.Resize? && c.p in st && 0 < c.size <= MAX_REQUEST
    && exists at :: LiveIn(v, c.p, at) && PlaceOK(v, at) && LosesAlignment(v, at, c.size, c.ker1)
  }

  /** By how much a command leaves the counters wrong. */
  ghost function Miscounted(v: Row, c: Command, st: Store): Stats
    requires RowOK(v)
  {
    if c.Resize? && c.p in st && 0 < c.size <= MAX_REQUEST && exists at :: LiveIn(v, c.p, at) then
      var at :| LiveIn(v, c.p, at);
      Miscount(v.tiles, v.mapped, v.wilderness, v.start, v.brk, at, c.size, c.ker1)
    else ZERO
  }

  /** The pointer a command returns is none that the program holds, unless a realloc stayed in place. */
  ghost predicate Fresh(c: Command, st: Store, result: int) {
    match c
    case Alloc(_, _) => result != NULL ==> result !in st
    case Resize(p, _, _, _) => result != NULL && result != p ==> result !in st
    case _ => true
  }

  /** A harmless command that did what it should. */
  ghost predicate Succeeds(v: Row, c: Command, st: Store, result: int, v2: Row) {
    HarmlessIn(v, c, st) && Follows(v, c, st, result, v2) && Fresh(c, st, result)
  }

  /** What these say about a realloc, given the place of the block. */
  lemma ResizeMeans(v: Row, p: int, n: nat, ker1: Kernel, ker2: Kernel, st: Store, at: Place)
    requires RowOK(v) && p in st && 0 < n <= MAX_REQUEST && LiveIn(v, p, at)
    requires forall at2 :: LiveIn(v, p, at2) ==> at2 == at
    ensures PlaceOK(v, at)
    ensures HarmlessIn(v, Resize(p, n, ker1, ker2), st) <==>
      VerdictIn(v, at, n, ker1, ker2).Fine? && !Forgets(v.tiles, v.wilderness, at, n)
    ensures Loses(v, Resize(p, n, ker1, ker2), st) <==> LosesAlignment(v, at, n, ker1)
    ensures Miscounted(v, Resize(p, n, ker1, ker2), st)
            == Miscount(v.tiles, v.mapped, v.wilderness, v.start, v.brk, at, n, ker1)
    ensures forall result, v2 :: RowOK(v2) && Resizes(v, at, n, ker1, ker2, result, v2) ==>
      Follows(v, Resize(p, n, ker1, ker2), st, result, v2)
  {
    hide RowOK, VerdictIn, Forgets, LosesAlignment, Miscount, Resizes;
  }

  // What the memory says.

  ghost predicate Holds(m: Memory, p: int, b: Buffer) {
    forall i :: i in b.data ==> 0 <= i < b.room && p + i in m.bytes && m.bytes[p + i] == b.data[i]
  }

  /** Every buffer of the store is a live block with room for it, and its data are in memory. */
  ghost predicate Refines(m: Memory, ts: seq<Tile>, mp: seq<Tile>, st: Store) {
    forall p :: p in st ==> Owns(ts, mp, p, st[p].room) && Holds(m, p, st[p])
  }

  /** What that is worth to the program: it finds in memory what it wrote, in a live block with room
      for the whole buffer. */
  lemma ReadsBack(m: Memory, ts: seq<Tile>, mp: seq<Tile>, st: Store, p: int, i: int)
    requires Refines(m, ts, mp, st) && p in st
    ensures i in st[p].data ==> 0 <= i < st[p].room && p + i in m.bytes && m.bytes[p + i] == st[p].data[i]
    ensures exists t :: ((t in ts && !t.free) || t in mp) && p == t.addr + 32 && t.size >= st[p].room
  {
  }

  /** Buffers other than the one at skip outlive a call. */
  lemma OthersRefine(m: Memory, m': Memory, ts: seq<Tile>, mp: seq<Tile>, ts': seq<Tile>, mp': seq<Tile>,
                     st: Store, skip: int)
    requires Refines(m, ts, mp, st) && AllKept(m, m', ts, mp, skip) && Survive(ts, mp, ts', mp', skip)
    ensures Refines(m', ts', mp', st - {skip})
  {
  }

  lemma NewIsNew(m: Memory, ts: seq<Tile>, mp: seq<Tile>, st: Store, skip: int, p: int)
    requires Refines(m, ts, mp, st) && NotAt(ts, mp, skip, p) && p != skip
    ensures p !in st
  {
  }

  lemma AllocRefines(m: Memory, m': Memory, ts: seq<Tile>, mp: seq<Tile>, ts': seq<Tile>, mp': seq<Tile>,
                     st: Store, p: int, n: nat)
    requires Refines(m, ts, mp, st) && AllKept(m, m', ts, mp, p) && Survive(ts, mp, ts', mp', p)
    requires Owns(ts', mp', p, n) && p !in st
    ensures Refines(m', ts', mp', st[p := Buffer(n, map[])])
  {
  }

  lemma ResizeRefines(m: Memory, m': Memory, ts: seq<Tile>, mp: seq<Tile>, ts': seq<Tile>, mp': seq<Tile>, st: Store,
                      p: int, q: int, s: int, n: nat)
    requires Refines(m, ts, mp, st) && p in st && st[p].room <= s && Owns(ts', mp', q, n)
    requires Reallocated(m, ts, mp, m', ts', mp', p, q, if s < n then s else n)
    ensures Refines(m', ts', mp', (st - {p})[q := Shortened(st[p], n)])
    ensures q != p ==> q !in st
  {
    hide Refines, AllKept, Survive, NotAt, BytesMoved, Owns, Holds;
    OthersRefine(m, m', ts, mp, ts', mp', st, p);
    if q != p { NewIsNew(m, ts, mp, st, p, q); }
    DataCameAlong(m, m', ts, mp, st, p, q, s, n);
    OneMoreBuffer(m', ts', mp', st - {p}, q, Shortened(st[p], n));
  }

  lemma DataCameAlong(m: Memory, m': Memory, ts: seq<Tile>, mp: seq<Tile>, st: Store, p: int, q: int, s: int, n: nat)
    requires Refines(m, ts, mp, st) && p in st && st[p].room <= s
    requires BytesMoved(m, m', p, q, if s < n then s else n)
    ensures Holds(m', q, Shortened(st[p], n))
  {
    hide Owns;
    var b := Shortened(st[p], n);
    forall i | i in b.data ensures 0 <= i < b.room && q + i in m'.bytes && m'.bytes[q + i] == b.data[i] {
      assert p + i in m.bytes && m.bytes[p + i] == st[p].data[i];
      assert p + i - p + q == q + i;
    }
  }

  lemma OneMoreBuffer(m: Memory, ts: seq<Tile>, mp: seq<Tile>, st: Store, q: int, b: Buffer)
    requires Refines(m, ts, mp, st) && Owns(ts, mp, q, b.room) && Holds(m, q, b)
    ensures Refines(m, ts, mp, st[q := b])
  {
    hide Owns, Holds;
  }

  lemma WriteRefines(m: Memory, m': Memory, ts: seq<Tile>, mp: seq<Tile>, st: Store, p: int, i: nat, v: Byte)
    requires Refines(m, ts, mp, st) && p in st && i < st[p].room && AllKept(m, m', ts, mp, p)
    requires m' == StoreByte(m, p + i, v)
    ensures Refines(m', ts, mp, st[p := Buffer(st[p].room, st[p].data[i as int := v])])
  {
  }

  /** A live pointer names a block. */
  lemma FindPlace(ts: seq<Tile>, mp: seq<Tile>, p: int, n: int) returns (at: Place)
    requires Owns(ts, mp, p, n)
    ensures match at
      case Nothing => false
      case InHeap(k) => 0 <= k < |ts| && !ts[k].free && Payload(ts[k]) == p && ts[k].size >= n
      case InMap(j) => 0 <= j < |mp| && Payload(mp[j]) == p && mp[j].size >= n
  {
    var t :| ((t in ts && !t.free) || t in mp) && Payload(t) == p && t.size >= n;
    if t in ts && !t.free {
      var k :| 0 <= k < |ts| && ts[k] == t;
      at := InHeap(k);
    } else {
      var j :| 0 <= j < |mp| && mp[j] == t;
      at := InMap(j);
    }
  }

  /** The program stores a byte in one of its buffers. */
  method StoreInBuffer(a: Allocator, p: int, i: nat, v: Byte, ghost at: Place)
    requires a.Valid() && a.Live(p, at) && i < a.BlockAt(at).size
    modifies a.blocks`mem
    ensures a.Valid() && a.blocks.mem == StoreByte(old(a.blocks.mem), p + i, v)
    ensures AllKept(old(a.blocks.mem), a.blocks.mem, a.tiles, a.mapped, p)
  {
    hide HeapOK, MappedOK, OthersKept, AllKept, Totals, NoFreePair, WildOK;
    ghost var m0 := a.blocks.mem;
    a.blocks.mem := StoreByte(a.blocks.mem, p + i, v);
    ByteFrame(m0, p + i, v);
    if at.InHeap? {
      PayloadWrite(m0, a.blocks.mem, a.blocks.head, a.blocks.order, a.sbrkStart, a.brk, a.tiles, a.mapped, at.k,
                   p + i, p + i + 1);
      KeptByValue(m0, a.blocks.mem, a.tiles, a.mapped, at.k, -1, p);
    } else {
      MappingWrite(m0, a.blocks.mem, a.blocks.head, a.blocks.order, a.sbrkStart, a.brk, a.tiles, a.mapped, at.j,
                   p + i, p + i + 1);
      KeptByValue(m0, a.blocks.mem, a.tiles, a.mapped, -1, at.j, p);
    }
  }

  lemma ByteFrame(m: Memory, a: int, v: Byte)
    ensures Frame(m, StoreByte(m, a, v), a, a + 1, [])
  {
  }

  /** The state a run goes through: the heap in order, the break aligned until the first block,
      and the memory holding exactly what the program believes. */
  ghost predicate Running(a: Allocator, st: Store)
    reads a, a.blocks
  {
    a.Valid() && (a.tiles == [] ==> a.brk % 8 == 0) && Refines(a.blocks.mem, a.tiles, a.mapped, st)
  }

  lemma ValidRow(a: Allocator)
    requires a.Valid()
    ensures RowOK(a.View())
  {
    HeapTiles(a.blocks.mem, a.blocks.head, a.blocks.order, a.sbrkStart, a.brk, a.tiles, 0, 0);
  }

  /** A pointer names one block. */
  lemma OnePlace(a: Allocator, p: int, at: Place, at2: Place)
    requires a.Valid() && LiveIn(a.View(), p, at) && LiveIn(a.View(), p, at2)
    ensures at == at2
  {
    HeapTiles(a.blocks.mem, a.blocks.head, a.blocks.order, a.sbrkStart, a.brk, a.tiles, 0, 0);
    hide HeapOK, Tiled, Totals, NoFreePair, WildOK;
    if at.InHeap? { DistinctFrom(a.sbrkStart, a.brk, a.blocks.mem, a.tiles, a.mapped, at.k); }
    if at2.InHeap? { DistinctFrom(a.sbrkStart, a.brk, a.blocks.mem, a.tiles, a.mapped, at2.k); }
    if at.InMap? { MapApart(a.blocks.mem, a.sbrkStart, a.brk, a.tiles, a.mapped, at2, at.j); }
  }

  // smalloc, then sfree at once.

  /** The block that serves the request stays below the threshold, split or not. */
  ghost predicate ServedBelowThreshold(ts: seq<Tile>, size: nat) {
    forall k :: BestFit(ts, k, size) ==> |Served(ts, k, size)| > k && Served(ts, k, size)[k].size < MMAP_THRESHOLD
  }

  /** A request that is served by an existing free block, and freed again: every view of the heap
      is as it was before, exactly if sfree does not take the block for a mapping. */
  method AllocThenFree(a: Allocator, request: nat, ker: Kernel) returns (ok: bool)
    requires a.Valid() && 0 < request <= MAX_REQUEST && RoundUp(request) < MMAP_THRESHOLD
    requires !NoFit(a.tiles, RoundUp(request)) && !SplitsTooMuch(a.tiles, RoundUp(request))
    modifies a, a.blocks
    ensures ok <==> old(ServedBelowThreshold(a.tiles, RoundUp(request)))
    ensures ok ==> a.Valid() && a.tiles == old(a.tiles) && a.mapped == old(a.mapped) && a.brk == old(a.brk)
    ensures ok ==> a.blocks.order == old(a.blocks.order) && a.blocks.head == old(a.blocks.head)
    ensures ok ==> a.blocks.wilderness == old(a.blocks.wilderness) && a.stats == old(a.stats)
    ensures ok ==> AllKept(old(a.blocks.mem), a.blocks.mem, a.tiles, a.mapped, NULL)
  {
    hide HeapOK, MappedOK, OthersKept, AllKept, Totals, NoFreePair, BestFit, NoFit, Served, SplitsTooMuch, Freed;
    hide MergeResult, Survive, NotAt, Tiled, Frame, BytesKept, Serves, Refused, ServedBelowThreshold;
    ghost var m0, h0, o0, ts, mp := a.blocks.mem, a.blocks.head, a.blocks.order, a.tiles, a.mapped;
    ghost var start, brk0 := a.sbrkStart, a.brk;
    ghost var size := RoundUp(request);
    HeapTiles(m0, h0, o0, start, brk0, ts, 0, 0);
    FitMeansServed(ts, mp, start, brk0, size, ker);
    var r;
    ghost var how, at, lo, hi;
    r, how, at, lo, hi := a.SMalloc(request, ker);
    ghost var m1, ts1, o1, w1, s1 := a.blocks.mem, a.tiles, a.blocks.order, a.blocks.wilderness, a.stats;
    ghost var k := ReusesBest(start, ts, mp, brk0, how, size, ts1, a.mapped, a.brk, at, lo, hi);
    ServesSurvives(start, brk0, m0, m1, ts, mp, how, size, ts1, mp, brk0, at, lo, hi, NULL);
    RoundTrip(start, brk0, ts, k, size);
    FreedIs(ts1, k);
    ok := a.SFree(r.p, at);
    if ok {
      MergeRow(m1, o1, SetFlag(ts1, k, true), w1, s1, a.blocks.mem, a.tiles, a.blocks.wilderness, a.stats, k);
      RowDeterminesRest(m0, a.blocks.mem, h0, a.blocks.head, o0, a.blocks.order, start, brk0, ts);
      SkipMore(m0, m1, ts, mp, NULL);
      SkipMore(m1, a.blocks.mem, ts1, mp, NULL);
      KeptChain(m0, m1, a.blocks.mem, ts, mp, ts1, mp, NULL, NULL);
    }
  }

  lemma FitMeansServed(ts: seq<Tile>, mp: seq<Tile>, start: int, brk: int, size: nat, ker: Kernel)
    requires !NoFit(ts, size) && size < MMAP_THRESHOLD
    ensures ts != [] && !Refused(ts, mp, start, brk, size, ker)
  {
  }

  lemma ReusesBest(start: int, ts: seq<Tile>, mp: seq<Tile>, brk: int, how: Service, size: nat,
                   ts2: seq<Tile>, mp2: seq<Tile>, brk2: int, at: Place, lo: int, hi: int) returns (k: int)
    requires Serves(how, ts, mp, brk, size, ts2, mp2, brk2, at, lo, hi)
    requires Tiled(start, brk, ts) && !NoFit(ts, size) && size < MMAP_THRESHOLD
    ensures 0 <= k < |ts| && FitsTile(ts[k], size) && ts2 == Served(ts, k, size) && mp2 == mp && brk2 == brk
    ensures at == InHeap(k) && k < |ts2| && !ts2[k].free
    ensures ServedBelowThreshold(ts, size) <==> ts2[k].size < MMAP_THRESHOLD
  {
    hide Served, Tiled;
    k := how.k;
    ServedBlock(start, brk, ts, k, size);
    forall l | BestFit(ts, l, size) ensures l == k { BestFitUnique(ts, k, l, size); }
  }

  // Programs that use little of the heap.

  /** How far at most a command other than realloc moves the break. */
  ghost function Cost(c: Command): nat {
    if c.Alloc? && 0 < c.size <= MAX_REQUEST && RoundUp(c.size) < MMAP_THRESHOLD then RoundUp(c.size) + 2 * SOM else 0
  }

  ghost function Demand(script: seq<Command>): nat {
    if script == [] then 0 else Cost(script[0]) + Demand(script[1..])
  }

  ghost predicate NoResize(script: seq<Command>) { forall c :: c in script ==> !c.Resize? }

  /** No realloc, and all blocks ever taken from the heap would fit below the mmap threshold,
      on top of the extent bytes the heap has already.  Mapped requests are free of charge. */
  ghost predicate Frugal(script: seq<Command>, extent: int) {
    NoResize(script) && extent + Demand(script) < MMAP_THRESHOLD + 2 * SOM
  }

  /** A script is frugal exactly if it has no realloc and its allocations below the threshold, each
      rounded up and with two metadata, leave the heap no longer than 131072 + 2 * SOM - 1 bytes. */
  lemma {:induction false} FrugalExactly(script: seq<Command>, extent: int)
    ensures Frugal(script, extent) <==> (forall c :: c in script ==> !c.Resize?) && extent + Demand(script) < 131136
    ensures Demand(script) == if script == [] then 0 else
      var n := |script| - 1;
      Demand(script[..n]) + match script[n]
        case Alloc(size, _) => if 0 < size <= 100_000_000 && RoundUp(size) < 131072 then RoundUp(size) + 64 else 0
        case _ => 0
  {
    if |script| > 1 {
      FrugalExactly(script[1..], extent);
      assert script[1..][..|script| - 2] == script[..|script| - 1][1..];
    }
  }

  ghost predicate FrugalFrom(script: seq<Command>, n: nat, extent: int)
    requires n <= |script|
  {
    Frugal(script[n..], extent)
  }

  lemma ServesCost(start: int, brk: int, ts: seq<Tile>, mp: seq<Tile>, how: Service, size: nat,
                   ts2: seq<Tile>, mp2: seq<Tile>, brk2: int, at: Place, lo: int, hi: int)
    requires Tiled(start, brk, ts) && Serves(how, ts, mp, brk, size, ts2, mp2, brk2, at, lo, hi)
    ensures brk2 <= if size < MMAP_THRESHOLD then brk + size + 2 * SOM else brk
  {
  }

  /** In a heap that short no block reaches the threshold. */
  lemma SmallHeap(start: int, brk: int, ts: seq<Tile>)
    requires Tiled(start, brk, ts) && brk - start < MMAP_THRESHOLD + 2 * SOM
    ensures forall n: nat :: AllocHarmless(ts, n)
    ensures forall p :: FreeHarmless(ts, p)
  {
  }

  lemma FrugalIsHarmless(a: Allocator, st: Store, script: seq<Command>, n: nat)
    requires Running(a, st) && n < |script| && FrugalFrom(script, n, a.brk - a.sbrkStart)
    ensures a.Valid() && HarmlessIn(a.View(), script[n], st) && !script[n].Resize?
  {
    hide HeapOK, MappedOK, Totals, NoFreePair, WildOK, Refines, Tiled, AllocHarmless, FreeHarmless;
    HeapTiles(a.blocks.mem, a.blocks.head, a.blocks.order, a.sbrkStart, a.brk, a.tiles, 0, 0);
    SmallHeap(a.sbrkStart, a.brk, a.tiles);
    OrderedOf(a.sbrkStart, a.brk, a.tiles);
    assert script[n..][0] == script[n];
  }

  lemma FrugalNext(script: seq<Command>, n: nat, extent: int, extent2: int)
    requires n < |script| && FrugalFrom(script, n, extent) && extent2 <= extent + Cost(script[n])
    ensures FrugalFrom(script, n + 1, extent2)
  {
  }

  /** What a request that was served means to the program. */
  lemma Allocated(start: int, brk: int, m: Memory, m2: Memory, ts: seq<Tile>, mp: seq<Tile>, how: Service, n: nat,
                  ts2: seq<Tile>, mp2: seq<Tile>, brk2: int, at: Place, lo: int, hi: int, st: Store)
    requires Tiled(start, brk, ts) && MappedOK(m, start, brk, mp) && MappedOK(m2, start, brk2, mp2)
    requires Serves(how, ts, mp, brk, RoundUp(n), ts2, mp2, brk2, at, lo, hi) && 0 < n <= MAX_REQUEST
    requires OthersKept(m, m2, ts, mp, -1, -1) && Refines(m, ts, mp, st)
    ensures Refines(m2, ts2, mp2, st[lo + SOM := Buffer(n, map[])]) && lo + SOM !in st
    ensures ts2 == [] ==> ts == [] && brk2 == brk
    ensures brk2 <= brk + if RoundUp(n) < MMAP_THRESHOLD then RoundUp(n) + 2 * SOM else 0
  {
    hide MappedOK, OthersKept, Refines, Serves, Survive, NotAt, Tiled, Owns;
    var size, p := RoundUp(n), lo + SOM;
    RoundUpFacts(n);
    NullIsNoBuffer(m, start, brk, ts, mp, st);
    ServesCost(start, brk, ts, mp, how, size, ts2, mp2, brk2, at, lo, hi);
    ServesStart(ts, mp, brk, how, size, ts2, mp2, brk2, at, lo, hi);
    ServesSurvives(start, brk, m, m2, ts, mp, how, size, ts2, mp2, brk2, at, lo, hi, p);
    ServesSurvives(start, brk, m, m2, ts, mp, how, size, ts2, mp2, brk2, at, lo, hi, NULL);
    SkipMore(m, m2, ts, mp, p);
    if p != NULL { NewIsNew(m, ts, mp, st, NULL, p); }
    ServedTile(start, brk, ts, mp, how, size, ts2, mp2, brk2, at, lo, hi);
    if at.InHeap? { OwnsTile(ts2, mp2, at.k, n); } else { OwnsMap(ts2, mp2, at.j, n); }
    AllocRefines(m, m2, ts, mp, ts2, mp2, st, p, n);
  }

  method DoAlloc(a: Allocator, n: nat, ker: Kernel, ghost st: Store) returns (r: Outcome)
    requires Running(a, st) && n < TWO64
    modifies a, a.blocks
    ensures r.Ptr? <==> old(HarmlessIn(a.View(), Alloc(n, ker), st))
    ensures r.Ptr? ==> Running(a, After(st, Alloc(n, ker), r.p)) && r.p !in st
    ensures r.Ptr? ==> a.sbrkStart == old(a.sbrkStart) && a.brk <= old(a.brk) + Cost(Alloc(n, ker))
    ensures r.Ptr? ==> Requested(old(a.View()), n, ker, r.p, a.View()) && a.drift == old(a.drift)
  {
    hide HeapOK, MappedOK, OthersKept, Totals, NoFreePair, WildOK, Refines, Serves, Frame, Tiled, Refused,
         SplitsTooMuch;
    ValidRow(a);
    ghost var m0, ts, mp, start, brk0 := a.blocks.mem, a.tiles, a.mapped, a.sbrkStart, a.brk;
    HeapTiles(m0, a.blocks.head, a.blocks.order, start, brk0, ts, 0, 0);
    NullIsNoBuffer(m0, start, brk0, ts, mp, st);
    ghost var how, at, lo, hi;
    r, how, at, lo, hi := a.SMalloc(n, ker);
    if r.Ptr? && r.p != NULL {
      Allocated(start, brk0, m0, a.blocks.mem, ts, mp, how, n, a.tiles, a.mapped, a.brk, at, lo, hi, st);
    }
  }

  lemma NullIsNoBuffer(m: Memory, start: int, brk: int, ts: seq<Tile>, mp: seq<Tile>, st: Store)
    requires Tiled(start, brk, ts) && MappedOK(m, start, brk, mp) && Refines(m, ts, mp, st)
    ensures NULL !in st
  {
  }

  /** sfree of a live block, as a step of the row. */
  method FreeLive(a: Allocator, p: int, ghost at: Place) returns (ok: bool)
    requires a.Valid() && LiveIn(a.View(), p, at)
    modifies a, a.blocks
    ensures ok <==> FreeHarmless(old(a.tiles), p)
    ensures ok ==> a.Valid() && FreedAt(old(a.View()), at, a.View())
    ensures ok ==> OthersKept(old(a.blocks.mem), a.blocks.mem, old(a.tiles), old(a.mapped), -1,
                              if at.InMap? then at.j else -1)
    ensures a.sbrkStart == old(a.sbrkStart) && a.brk == old(a.brk) && a.drift == old(a.drift)
  {
    hide FreeHarmless, HeapOK, MappedOK, OthersKept, Totals, NoFreePair, WildOK, MergeResult, Freed;
    FreeIsHarmless(a, p, at);
    ghost var m0, ts := a.blocks.mem, a.tiles;
    ok := a.SFree(p, at);
    if ok && at.InHeap? {
      MergeRow(m0, old(a.blocks.order), SetFlag(ts, at.k, true), old(a.blocks.wilderness), old(a.stats),
               a.blocks.mem, a.tiles, a.blocks.wilderness, a.stats, at.k);
      FreedIs(ts, at.k);
    }
  }

  method DoFree(a: Allocator, p: int, ghost st: Store) returns (ok: bool)
    requires Running(a, st) && p in st
    modifies a, a.blocks
    ensures ok <==> old(HarmlessIn(a.View(), Free(p), st))
    ensures ok ==> Running(a, After(st, Free(p), NULL))
    ensures a.sbrkStart == old(a.sbrkStart) && a.brk == old(a.brk)
    ensures ok ==> Released(old(a.View()), p, a.View()) && a.drift == old(a.drift)
  {
    hide *;
    ghost var m0, v := a.blocks.mem, a.View();
    ghost var at := BufferAt(a, p, st);
    FreeMeans(a, p, st);
    ok := FreeLive(a, p, at);
    if ok {
      FreedRuns(a, m0, v, st, p, at);
    }
  }

  /** The block of a buffer the program holds. */
  lemma BufferAt(a: Allocator, p: int, st: Store) returns (at: Place)
    requires Running(a, st) && p in st
    ensures a.Valid() && LiveIn(a.View(), p, at) && a.Live(p, at) && st[p].room <= a.BlockAt(at).size
    ensures Refines(a.blocks.mem, a.tiles, a.mapped, st) && (a.tiles == [] ==> a.brk % 8 == 0)
    ensures a.View() == Row(a.tiles, a.mapped, a.blocks.wilderness, a.sbrkStart, a.brk)
  {
    hide HeapOK, MappedOK, Totals, NoFreePair, WildOK, Refines, Owns;
    OwnsBuffer(a.blocks.mem, a.tiles, a.mapped, st, p);
    at := FindPlace(a.tiles, a.mapped, p, st[p].room);
  }

  lemma FreeMeans(a: Allocator, p: int, st: Store)
    requires a.Valid() && p in st
    ensures HarmlessIn(a.View(), Free(p), st) <==> FreeHarmless(a.tiles, p)
    ensures After(st, Free(p), NULL) == st - {p}
  {
    ValidRow(a);
    hide RowOK, FreeHarmless;
  }

  lemma FreedRuns(a: Allocator, m0: Memory, v: Row, st: Store, p: int, at: Place)
    requires a.Valid() && LiveIn(v, p, at) && FreedAt(v, at, a.View()) && a.sbrkStart == v.start && a.brk == v.brk
    requires Refines(m0, v.tiles, v.mapped, st) && (v.tiles == [] ==> v.brk % 8 == 0)
    requires OthersKept(m0, a.blocks.mem, v.tiles, v.mapped, -1, if at.InMap? then at.j else -1)
    ensures Running(a, st - {p}) && Released(v, p, a.View())
  {
    hide HeapOK, MappedOK, OthersKept, Totals, NoFreePair, WildOK, Refines, Freed;
    FreedRefines(m0, a.blocks.mem, v.tiles, v.mapped, a.tiles, a.mapped, st, p, at);
    ReleasedHow(v, p, at, a.View());
  }

  lemma FreedRefines(m: Memory, m2: Memory, ts: seq<Tile>, mp: seq<Tile>, ts2: seq<Tile>, mp2: seq<Tile>,
                     st: Store, p: int, at: Place)
    requires Refines(m, ts, mp, st) && OthersKept(m, m2, ts, mp, -1, if at.InMap? then at.j else -1)
    requires match at
      case Nothing => false
      case InHeap(k) => 0 <= k < |ts| && p == Payload(ts[k]) && ts2 == Freed(ts, k) && mp2 == mp
      case InMap(j) => 0 <= j < |mp| && p == Payload(mp[j]) && ts2 == ts && mp2 == Drop(mp, j)
    ensures Refines(m2, ts2, mp2, st - {p}) && (ts2 == [] ==> ts == [])
  {
    hide OthersKept, AllKept, Refines, Survive, Freed;
    match at
    case InHeap(k) =>
      KeptByValue(m, m2, ts, mp, -1, -1, p);
      FreedSurvives(ts, mp, k);
      SomethingLeft(ts, k, 0);
      OthersRefine(m, m2, ts, mp, ts2, mp2, st, p);
    case InMap(j) =>
      KeptByValue(m, m2, ts, mp, -1, j, p);
      DropSurvives(ts, mp, j);
      OthersRefine(m, m2, ts, mp, ts2, mp2, st, p);
  }

  lemma ReleasedHow(v: Row, p: int, at: Place, v2: Row)
    requires LiveIn(v, p, at) && FreedAt(v, at, v2) && v2.start == v.start && v2.brk == v.brk
    ensures Released(v, p, v2)
  {
  }

  lemma FreeIsHarmless(a: Allocator, p: int, at: Place)
    requires a.Valid() && a.Live(p, at)
    ensures FreeHarmless(a.tiles, p) <==> !a.MistakenForMapping(at)
  {
  }

  lemma OwnsBuffer(m: Memory, ts: seq<Tile>, mp: seq<Tile>, st: Store, p: int)
    requires Refines(m, ts, mp, st) && p in st
    ensures Owns(ts, mp, p, st[p].room)
  {
  }

  lemma MergeRow(m0: Memory, o0: seq<int>, ts: seq<Tile>, w0: int, s0: Stats, m2: Memory, ts2: seq<Tile>, w2: int,
                 s2: Stats, k: int)
    requires 0 <= k < |ts| && MergeResult(m0, o0, ts, w0, s0, m2, ts2, w2, s2, k)
    ensures ts2 == Coalesced(ts, k)
  {
  }

  method DoWrite(a: Allocator, p: int, i: nat, v: Byte, ghost st: Store)
    requires Running(a, st) && p in st && i < st[p].room
    modifies a.blocks`mem
    ensures Running(a, After(st, Write(p, i, v), NULL)) && a.View() == old(a.View())
  {
    hide HeapOK, MappedOK, AllKept, Totals, NoFreePair, WildOK, Refines, Owns;
    OwnsBuffer(a.blocks.mem, a.tiles, a.mapped, st, p);
    ghost var at := FindPlace(a.tiles, a.mapped, p, st[p].room);
    ghost var m0 := a.blocks.mem;
    StoreInBuffer(a, p, i, v, at);
    WriteRefines(m0, a.blocks.mem, a.tiles, a.mapped, st, p, i, v);
  }

  method DoResize(a: Allocator, p: int, n: nat, ker1: Kernel, ker2: Kernel, ghost st: Store)
      returns (r: Outcome, sound: bool)
    requires Running(a, st) && p in st && 0 < n <= MAX_REQUEST
    modifies a, a.blocks
    ensures sound <==> old(HarmlessIn(a.View(), Resize(p, n, ker1, ker2), st))
    ensures sound ==> r.Ptr? && Running(a, After(st, Resize(p, n, ker1, ker2), r.p)) && (r.p != p ==> r.p !in st)
    ensures sound ==> Follows(old(a.View()), Resize(p, n, ker1, ker2), st, r.p, a.View())
    ensures sound && old(OnEights(a.View())) ==>
      (OnEights(a.View()) <==> !Loses(old(a.View()), Resize(p, n, ker1, ker2), st))
    ensures old(RowOK(a.View()))
    ensures a.drift == Plus(old(a.drift), Miscounted(old(a.View()), Resize(p, n, ker1, ker2), st))
  {
    hide *;
    ghost var m0, v := a.blocks.mem, a.View();
    ghost var at := BufferAt(a, p, st);
    a.LiveIsResizable(p, at);
    ResizeMeansHere(a, p, n, ker1, ker2, st, at);
    r := a.SRealloc(p, n, ker1, ker2, at);
    AgreesWhenFine(VerdictIn(v, at, n, ker1, ker2), r);
    if r.Stuck? {
      return r, false;
    }
    sound := WildernessKnown(a);
    if sound {
      ResizedRuns(a, m0, v, st, p, at, n, ker1, ker2, r.p);
    }
  }

  lemma ResizeMeansHere(a: Allocator, p: int, n: nat, ker1: Kernel, ker2: Kernel, st: Store, at: Place)
    requires Running(a, st) && p in st && 0 < n <= MAX_REQUEST && LiveIn(a.View(), p, at)
    ensures RowOK(a.View()) && PlaceOK(a.View(), at) && p != NULL && n < TWO64 && n <= 100_000_000
    ensures HarmlessIn(a.View(), Resize(p, n, ker1, ker2), st) <==>
      VerdictIn(a.View(), at, n, ker1, ker2).Fine? && !Forgets(a.tiles, a.blocks.wilderness, at, n)
    ensures Loses(a.View(), Resize(p, n, ker1, ker2), st) <==> LosesAlignment(a.View(), at, n, ker1)
    ensures Miscounted(a.View(), Resize(p, n, ker1, ker2), st)
            == Miscount(a.tiles, a.mapped, a.blocks.wilderness, a.sbrkStart, a.brk, at, n, ker1)
    ensures forall result, v2 :: RowOK(v2) && Resizes(a.View(), at, n, ker1, ker2, result, v2) ==>
      Follows(a.View(), Resize(p, n, ker1, ker2), st, result, v2)
  {
    hide HeapOK, MappedOK, Totals, NoFreePair, WildOK, Refines, HarmlessIn, VerdictIn, Forgets, Loses, LosesAlignment,
         Miscounted, Miscount, Resizes, Follows, RowOK, LiveIn, PlaceOK;
    ValidRow(a);
    HeapTiles(a.blocks.mem, a.blocks.head, a.blocks.order, a.sbrkStart, a.brk, a.tiles, 0, 0);
    NullIsNoBuffer(a.blocks.mem, a.sbrkStart, a.brk, a.tiles, a.mapped, st);
    forall at2 | LiveIn(a.View(), p, at2) ensures at2 == at { OnePlace(a, p, at, at2); }
    ResizeMeans(a.View(), p, n, ker1, ker2, st, at);
  }

  lemma ResizedRuns(a: Allocator, m0: Memory, v: Row, st: Store, p: int, at: Place, n: nat, ker1: Kernel,
                    ker2: Kernel, q: int)
    requires a.Valid() && RowOK(v) && PlaceOK(v, at) && Resizes(v, at, n, ker1, ker2, q, a.View())
    requires Refines(m0, v.tiles, v.mapped, st) && p in st && st[p].room <= SizeAt(v, at) && q != NULL
    requires (v.tiles == [] ==> v.brk % 8 == 0) && Fitted(a.tiles, a.mapped, q, n)
    requires Reallocated(m0, v.tiles, v.mapped, a.blocks.mem, a.tiles, a.mapped, p, q,
                         if SizeAt(v, at) < n then SizeAt(v, at) else n)
    ensures RowOK(a.View()) && Running(a, After(st, Resize(p, n, ker1, ker2), q)) && (q != p ==> q !in st)
  {
    hide HeapOK, MappedOK, Totals, NoFreePair, WildOK, Refines, Owns, Fitted, Reallocated, Resizes, RowOK, PlaceOK,
         Shortened, SizeAt;
    ValidRow(a);
    FittedOwns(a.tiles, a.mapped, q, n);
    ResizeRefines(m0, a.blocks.mem, v.tiles, v.mapped, a.tiles, a.mapped, st, p, q, SizeAt(v, at), n);
    ResizesStart(v, at, n, ker1, ker2, q, a.View());
  }

  /** Does the wilderness pointer name the last block?  After a realloc it may not. */
  method WildernessKnown(a: Allocator) returns (known: bool)
    requires a.Heap() && a.Mapped() && NoFreePair(a.tiles) && a.CountersOK()
    ensures known <==> a.Valid()
  {
    hide HeapOK, MappedOK, Totals, NoFreePair;
    HeapList(a.blocks.mem, a.blocks.head, a.blocks.order, a.sbrkStart, a.brk, a.tiles);
    LastBlock(a.blocks.mem, a.blocks.order, a.sbrkStart, a.brk, a.tiles, a.blocks.wilderness);
    if a.blocks.count == 0 {
      return a.blocks.wilderness == NULL;
    }
    var listed := a.blocks.Contains(a.blocks.wilderness);
    known := listed && a.blocks.wilderness + a.blocks.mem.words[a.blocks.wilderness] + 2 * SOM == a.brk;
  }

  lemma LastBlock(m: Memory, o: seq<int>, start: int, brk: int, ts: seq<Tile>, w: int)
    requires Tiled(start, brk, ts) && CellsOK(m.words, ts) && multiset(o) == multiset(Addrs(ts))
    ensures w in o ==> w in m.words
    ensures ts != [] ==> (WildOK(ts, w) <==> w in o && w + m.words[w] + 2 * SOM == brk)
  {
    InAddrs(o, ts);
    if w in o {
      var x :| 0 <= x < |ts| && Addrs(ts)[x] == w;
      assert TileCells(m.words, ts[x]);
      assert x < |ts| - 1 ==> End(ts[x]) <= ts[|ts| - 1].addr && w < ts[|ts| - 1].addr;
    }
  }

  /** One command.  Sizes that no size_t can hold are not requests at all. */
  method Step(a: Allocator, c: Command, st: Store) returns (result: int, sound: bool)
    requires Running(a, st)
    modifies a, a.blocks
    ensures sound <==> old(HarmlessIn(a.View(), c, st))
    ensures sound ==> Running(a, After(st, c, result)) && Succeeds(old(a.View()), c, st, result, a.View())
    ensures sound && !c.Resize? ==> a.sbrkStart == old(a.sbrkStart) && a.brk <= old(a.brk) + Cost(c)
    ensures sound && old(OnEights(a.View())) ==> (OnEights(a.View()) <==> !Loses(old(a.View()), c, st))
    ensures sound ==> old(RowOK(a.View())) && a.drift == Plus(old(a.drift), Miscounted(old(a.View()), c, st))
  {
    hide Running, OnEights, RowOK, Requested, Released, LosesAlignment;
    RunningRow(a, st);
    result, sound := NULL, true;
    ghost var v := a.View();
    match c
    case Alloc(n, ker) =>
      if n < TWO64 {
        var r := DoAlloc(a, n, ker, st);
        if r.Stuck? { return NULL, false; }
        result := r.p;
        RunningRow(a, After(st, c, result));
      } else {
        HugeRequest(v, n, ker);
      }
      RequestedOnEights(v, n, ker, result, a.View());
    case Free(p) =>
      if p in st {
        sound := DoFree(a, p, st);
        if sound {
          RunningRow(a, After(st, c, NULL));
          ReleasedOnEights(v, p, a.View());
        }
      } else {
        assert st - {p} == st;
      }
    case Write(p, i, w) =>
      if p in st && i < st[p].room { DoWrite(a, p, i, w, st); }
    case Resize(p, n, ker1, ker2) =>
      if p in st && 0 < n <= MAX_REQUEST {
        var r;
        r, sound := DoResize(a, p, n, ker1, ker2, st);
        if sound { result := r.p; }
      }
  }

  /** Command i of the script was harmless when it came, did what the row steps say, and returned
      no pointer that was still in use. */
  ghost predicate Executed(script: seq<Command>, results: seq<int>, views: seq<Row>, i: nat)
    requires i < |results| && i < |script| && |results| <= |script| && i + 1 < |views|
  {
    Succeeds(views[i], script[i], Replay(script, results[..i]), results[i], views[i + 1])
  }

  /** views are the rows the script went through, from the first on. */
  ghost predicate Trace(script: seq<Command>, results: seq<int>, views: seq<Row>) {
    && |results| <= |script| && |views| == |results| + 1
    && forall i {:trigger Executed(script, results, views, i)} :: 0 <= i < |results| ==>
         Executed(script, results, views, i)
  }

  /** Before each command, and after the last one, memory holds what the program believes. */
  ghost predicate Refined(script: seq<Command>, results: seq<int>, views: seq<Row>, memories: seq<Memory>) {
    && |results| <= |script| && |memories| == |views| == |results| + 1
    && forall i :: 0 <= i <= |results| ==>
         Refines(memories[i], views[i].tiles, views[i].mapped, Replay(script, results[..i]))
  }

  /** No command of the run made the heap unaligned. */
  ghost predicate KeptOnEights(script: seq<Command>, results: seq<int>, views: seq<Row>)
    requires |results| <= |script| && |results| < |views|
  {
    forall i :: 0 <= i < |results| ==> !Loses(views[i], script[i], Replay(script, results[..i]))
  }

  /** What the commands of the run added to the drift of the counters. */
  ghost function Drifted(script: seq<Command>, results: seq<int>, views: seq<Row>): Stats
    requires |results| <= |script| && |results| < |views|
    decreases |results|
  {
    if results == [] then ZERO
    else
      var n := |results| - 1;
      var before := Drifted(script, results[..n], views[..|results|]);
      if RowOK(views[n]) then Plus(before, Miscounted(views[n], script[n], Replay(script, results[..n]))) else before
  }

  lemma SliceStays<T>(s: seq<T>, x: T, i: int)
    requires 0 <= i <= |s|
    ensures (s + [x])[..i] == s[..i]
  {
  }

  lemma TraceNext(script: seq<Command>, results: seq<int>, views: seq<Row>, result: int, v: Row)
    requires Trace(script, results, views) && |results| < |script|
    requires Succeeds(views[|results|], script[|results|], Replay(script, results), result, v)
    ensures Trace(script, results + [result], views + [v])
  {
    hide Succeeds, Replay;
    var n, rs, vs := |results|, results + [result], views + [v];
    forall i {:trigger Executed(script, rs, vs, i)} | 0 <= i < |rs| ensures Executed(script, rs, vs, i) {
      SliceStays(results, result, i);
      if i < n {
        assert Executed(script, results, views, i);
      } else {
        assert results[..i] == results;
      }
    }
  }

  lemma RefinedNext(script: seq<Command>, results: seq<int>, views: seq<Row>, memories: seq<Memory>, result: int,
                    v: Row, m: Memory)
    requires Refined(script, results, views, memories) && |results| < |script|
    requires Refines(m, v.tiles, v.mapped, Replay(script, results + [result]))
    ensures Refined(script, results + [result], views + [v], memories + [m])
  {
    hide Refines, Replay;
    var rs := results + [result];
    forall i | 0 <= i <= |rs|
      ensures Refines((memories + [m])[i], (views + [v])[i].tiles, (views + [v])[i].mapped, Replay(script, rs[..i]))
    {
      if i < |rs| {
        SliceStays(results, result, i);
      } else {
        assert rs[..i] == rs;
      }
    }
  }

  lemma KeptNext(script: seq<Command>, results: seq<int>, views: seq<Row>, result: int, v: Row)
    requires |results| < |script| && |views| == |results| + 1
    ensures KeptOnEights(script, results + [result], views + [v]) <==>
      KeptOnEights(script, results, views) && !Loses(views[|results|], script[|results|], Replay(script, results))
  {
    hide Loses, Replay;
    var n, rs, vs := |results|, results + [result], views + [v];
    SliceStays(results, result, n);
    assert results[..n] == results;
    forall i | 0 <= i < n
      ensures Loses(vs[i], script[i], Replay(script, rs[..i])) <==>
        Loses(views[i], script[i], Replay(script, results[..i]))
    {
      SliceStays(results, result, i);
    }
  }

  lemma DriftedNext(script: seq<Command>, results: seq<int>, views: seq<Row>, result: int, v: Row)
    requires |results| < |script| && |views| == |results| + 1 && RowOK(views[|results|])
    ensures Drifted(script, results + [result], views + [v])
            == Plus(Drifted(script, results, views),
                    Miscounted(views[|results|], script[|results|], Replay(script, results)))
  {
    hide Miscounted, Replay, RowOK, Plus;
    SliceStays(results, result, |results|);
    SliceStays(views, v, |views|);
    assert results[..|results|] == results && views[..|views|] == views;
  }

  /** Any script of calls.  Free, write and realloc of pointers the program does not hold are
      left out of the run.  The rows it goes through follow one another as each command says,
      every executed command was harmless and returned no pointer that was in use, and the run
      stops early only at a command that is not harmless.  Before each command and after the last
      executed one the memory refines the program's own store.  A script without realloc whose
      blocks fit below the threshold always runs to its end. */
  method Run(a: Allocator, script: seq<Command>)
      returns (done: nat, results: seq<int>, ghost views: seq<Row>, ghost memories: seq<Memory>)
    requires a.Valid() && a.brk % 8 == 0
    modifies a, a.blocks
    ensures |results| == done <= |script| && Trace(script, results, views) && views[0] == old(a.View())
    ensures Refined(script, results, views, memories) && memories[0] == old(a.blocks.mem)
    ensures done < |script| ==> !HarmlessIn(views[done], script[done], Replay(script, results))
    ensures done == |script| ==> Running(a, Replay(script, results))
    ensures done == |script| ==> views[done] == a.View() && memories[done] == a.blocks.mem
    ensures done == |script| ==> a.drift == Plus(old(a.drift), Drifted(script, results, views))
    ensures Frugal(script, old(a.brk - a.sbrkStart)) ==> done == |script|
    ensures old(OnEights(a.View())) && KeptOnEights(script, results, views) ==> OnEights(views[done])
    ensures KeptOnEights(script, results, views) <==>
      forall i :: 0 <= i < done ==> !Loses(views[i], script[i], Replay(script, results[..i]))
  {
    hide *;
    ghost var frugal, aligned := Frugal(script, a.brk - a.sbrkStart), OnEights(a.View());
    var st: Store := map[];
    results, done, views, memories := [], 0, [a.View()], [a.blocks.mem];
    StartRefines(a, script);
    while done < |script|
      invariant |results| == done <= |script| && st == Replay(script, results) && Running(a, st)
      invariant |views| == done + 1 && views[0] == old(a.View()) && views[done] == a.View()
      invariant |memories| == done + 1 && memories[0] == old(a.blocks.mem) && memories[done] == a.blocks.mem
      invariant Trace(script, results, views) && Refined(script, results, views, memories)
      invariant a.drift == Plus(old(a.drift), Drifted(script, results, views))
      invariant frugal ==> FrugalFrom(script, done, a.brk - a.sbrkStart)
      invariant aligned && KeptOnEights(script, results, views) ==> OnEights(a.View())
    {
      ghost var v, extent := a.View(), a.brk - a.sbrkStart;
      if frugal {
        FrugalIsHarmless(a, st, script, done);
      }
      var result, sound := Step(a, script[done], st);
      if !sound {
        KeptMeans(script, results, views);
        return;
      }
      TraceNext(script, results, views, result, a.View());
      KeptNext(script, results, views, result, a.View());
      DriftedNext(script, results, views, result, a.View());
      PlusRight(old(a.drift), Drifted(script, results, views), Miscounted(v, script[done], st));
      ReplayNext(script, results, result);
      st := After(st, script[done], result);
      RunningRefines(a, st);
      RefinedNext(script, results, views, memories, result, a.View(), a.blocks.mem);
      results, done := results + [result], done + 1;
      views, memories := views + [a.View()], memories + [a.blocks.mem];
      if frugal {
        FrugalNext(script, done - 1, extent, a.brk - a.sbrkStart);
      }
    }
    KeptMeans(script, results, views);
  }

  lemma KeptMeans(script: seq<Command>, results: seq<int>, views: seq<Row>)
    requires |results| <= |script| && |results| < |views|
    ensures KeptOnEights(script, results, views) <==>
      forall i :: 0 <= i < |results| ==> !Loses(views[i], script[i], Replay(script, results[..i]))
  {
    hide Loses, Replay;
  }

  lemma RunningRefines(a: Allocator, st: Store)
    requires Running(a, st)
    ensures Refines(a.blocks.mem, a.View().tiles, a.View().mapped, st)
  {
    hide Refines;
  }

  lemma PlusRight(x: Stats, y: Stats, z: Stats)
    ensures Plus(Plus(x, y), z) == Plus(x, Plus(y, z))
  {
  }

  lemma RunningRow(a: Allocator, st: Store)
    requires Running(a, st)
    ensures RowOK(a.View())
  {
    ValidRow(a);
  }

  lemma HugeRequest(v: Row, n: nat, ker: Kernel)
    requires n >= TWO64
    ensures Requested(v, n, ker, NULL, v) && AllocHarmless(v.tiles, n)
  {
  }

  lemma RequestedOnEights(v: Row, n: nat, ker: Kernel, p: int, v2: Row)
    requires Requested(v, n, ker, p, v2)
    ensures OnEights(v) ==> OnEights(v2)
  {
    hide Obtained, Aligned;
    if OnEights(v) && p != NULL { ObtainedOnEights(v, n, ker, p, v2); }
  }

  lemma ReleasedOnEights(v: Row, p: int, v2: Row)
    requires Released(v, p, v2)
    ensures OnEights(v) ==> OnEights(v2)
  {
    hide Aligned, Freed;
    var at :| LiveIn(v, p, at) && FreedAt(v, at, v2);
    if at.InHeap? && OnEights(v) { FreedAligned(v.tiles, at.k); }
  }

  lemma ReplayNext(script: seq<Command>, results: seq<int>, result: int)
    requires |results| < |script|
    ensures Replay(script, results + [result]) == After(Replay(script, results), script[|results|], result)
  {
  }

  lemma StartRefines(a: Allocator, script: seq<Command>)
    requires a.Valid() && a.brk % 8 == 0
    ensures Running(a, map[]) && Replay(script, []) == map[]
    ensures Frugal(script, a.brk - a.sbrkStart) ==> FrugalFrom(script, 0, a.brk - a.sbrkStart)
    ensures Trace(script, [], [a.View()]) && Refined(script, [], [a.View()], [a.blocks.mem])
    ensures Drifted(script, [], [a.View()]) == ZERO && Plus(a.drift, ZERO) == a.drift
  {
  }
}
