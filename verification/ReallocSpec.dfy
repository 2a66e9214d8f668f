/** What tryMergeRealloc decides, and what its memory writes add up to. */
module ReallocSpec {
  import opened Memory
  import opened Tiling
  import opened BlockListModel
  import opened HeapSpec
  import opened RequestSpec
  import opened SizeArithmetic

  /** The merges tryMergeRealloc knows, in the order it tries them; Alone means none fits. */
  datatype Way = Left | Wild | Right | Both | BothWild | RightWild | Alone

  ghost function WayOf(ts: seq<Tile>, k: int, size: int, w: int): Way
    requires 0 <= k < |ts|
  {
    var l, r, s := FreeLeft(ts, k), FreeRight(ts, k), ts[k].size;
    if l && (w == ts[k].addr || size <= s + ts[k - 1].size + 2 * SOM) then Left
    else if w == ts[k].addr then Wild
    else if r && size <= ts[k + 1].size + s + 2 * SOM then Right
    else if l && r && size <= ts[k - 1].size + s + ts[k + 1].size + 4 * SOM then Both
    else if r && w == ts[k + 1].addr then (if l then BothWild else RightWild)
    else Alone
  }

  lemma WayIs(ts: seq<Tile>, k: int, size: int, w: int)
    requires 0 <= k < |ts|
    ensures FreeLeft(ts, k) ==> k > 0
    ensures FreeRight(ts, k) ==> k + 1 < |ts|
    ensures var l, r, s := FreeLeft(ts, k), FreeRight(ts, k), ts[k].size;
      WayOf(ts, k, size, w)
      == if l && (w == ts[k].addr || size <= s + ts[k - 1].size + 2 * SOM) then Left
         else if w == ts[k].addr then Wild
         else if r && size <= ts[k + 1].size + s + 2 * SOM then Right
         else if l && r && size <= ts[k - 1].size + s + ts[k + 1].size + 4 * SOM then Both
         else if r && w == ts[k + 1].addr then (if l then BothWild else RightWild)
         else Alone
  {
  }

  function From(way: Way, k: int): int { if way.Left? || way.Both? || way.BothWild? then k - 1 else k }

  function To(way: Way, k: int): int {
    if way.Right? || way.Both? || way.BothWild? || way.RightWild? then k + 2 else k + 1
  }

  function Moves(way: Way): bool { way.Left? || way.Both? || way.BothWild? }

  /** The blocks a way needs are there, and it is not Alone. */
  ghost predicate WayFits(ts: seq<Tile>, k: int, way: Way) {
    0 <= k < |ts| && 0 <= From(way, k) && To(way, k) <= |ts| && !way.Alone?
  }

  ghost function Room(ts: seq<Tile>, k: int, way: Way): nat
    requires WayFits(ts, k, way)
  {
    JoinSize(ts, From(way, k), To(way, k))
  }

  /** How far the break has to move. */
  ghost function Growth(ts: seq<Tile>, k: int, way: Way, size: int): nat
    requires WayFits(ts, k, way)
  {
    if size > Room(ts, k, way) then size - Room(ts, k, way) else 0
  }

  /** The block the request ends up in. */
  ghost function Target(ts: seq<Tile>, k: int, way: Way, size: int): Tile
    requires WayFits(ts, k, way)
  {
    Tile(ts[From(way, k)].addr, Room(ts, k, way) + Growth(ts, k, way, size), false)
  }

  ghost function Resized(ts: seq<Tile>, k: int, way: Way, size: int): seq<Tile>
    requires WayFits(ts, k, way)
  {
    Splice(ts, From(way, k), To(way, k), [Target(ts, k, way, size)])
  }

  /** The number of bytes memmove is asked to carry to the left. */
  ghost function Carried(ts: seq<Tile>, k: int, way: Way, size: int): nat
    requires WayFits(ts, k, way)
  {
    ts[k].size + if way.Left? then Growth(ts, k, way, size) else 0
  }

  /** The memmove to the left happens before the old block is unlinked; it reaches that block's
      next and prev fields when more is moved than the left block, one footer and 16 bytes. */
  ghost predicate LinksLost(ts: seq<Tile>, k: int, way: Way, size: int)
    requires WayFits(ts, k, way)
  {
    Moves(way) && Carried(ts, k, way, size) > ts[k - 1].size + SOM + 16
  }

  ghost function WildernessAfter(ts: seq<Tile>, k: int, way: Way, w: int): int
    requires WayFits(ts, k, way)
  {
    match way
    case Left => if w == ts[k].addr then ts[k - 1].addr else w
    case BothWild => ts[k - 1].addr
    case RightWild => ts[k].addr
    case _ => w
  }

  lemma WildernessGoes(ts: seq<Tile>, k: int, way: Way, w: int)
    requires WayFits(ts, k, way)
    ensures var w2 := WildernessAfter(ts, k, way, w);
      if (way.Left? && w == ts[k].addr) || way.BothWild? then w2 == ts[k - 1].addr
      else if way.RightWild? then w2 == ts[k].addr
      else w2 == w
  {
  }

  /** Nothing around block k holds the request without new memory. */
  ghost predicate Short(ts: seq<Tile>, k: int, way: Way, size: int) {
    way.Alone? || (WayFits(ts, k, way) && Growth(ts, k, way, size) > 0)
  }

  /** How the call ends: with a block; with none, if no merge fits or sbrk refuses; or at a hazard. */
  ghost function Fate(ts: seq<Tile>, k: int, size: int, w: int, brk: int, start: int, mp: seq<Tile>,
                      ker: Kernel): Outcome
    requires 0 <= k < |ts| && WildOK(ts, w) && Ordered(ts)
  {
    var way := WayOf(ts, k, size, w);
    if way.Alone? then Ptr(NULL) else
    WayFitsAlways(ts, k, size, w);
    var g := Growth(ts, k, way, size);
    if (way.Wild? || way.BothWild? || way.RightWild?) && g % 8 != 0 then Stuck(AssertFails)
    else if !Granted(brk, g, start, mp, ker) then Ptr(NULL)
    else if way.Wild? && (brk + g) % 8 != 0 then Stuck(AssertFails)
    else if LinksLost(ts, k, way, size) then Stuck(OverwritesLinks)
    else Ptr(Payload(Target(ts, k, way, size)))
  }

  lemma WayFitsAlways(ts: seq<Tile>, k: int, size: int, w: int)
    requires 0 <= k < |ts| && WildOK(ts, w) && Ordered(ts)
    ensures WayOf(ts, k, size, w) == Alone || WayFits(ts, k, WayOf(ts, k, size, w))
    ensures w == ts[k].addr <==> k == |ts| - 1
    ensures k + 1 < |ts| ==> (w == ts[k + 1].addr <==> k + 1 == |ts| - 1)
  {
  }

  /** Only a way that ends at the break may move it, and what it takes is free but for block k. */
  lemma WayShape(start: int, brk: int, ts: seq<Tile>, k: int, size: int, w: int)
    requires Tiled(start, brk, ts) && WildOK(ts, w) && 0 <= k < |ts| && !ts[k].free && size > ts[k].size
    requires WayOf(ts, k, size, w) != Alone
    ensures var way := WayOf(ts, k, size, w); var t := Target(ts, k, way, size); var i, j := From(way, k), To(way, k);
      && WayFits(ts, k, way)
      && t.size >= size && t.size >= Room(ts, k, way)
      && (Growth(ts, k, way, size) > 0 ==> j == |ts|)
      && (if j < |ts| then End(t) == ts[j].addr else End(t) == brk + Growth(ts, k, way, size))
      && brk == End(ts[|ts| - 1])
      && t.size == Growth(ts, k, way, size) + ts[i].size + (if j > i + 1 then 2 * SOM + ts[i + 1].size else 0)
                   + (if j > i + 2 then 2 * SOM + ts[i + 2].size else 0)
      && End(ts[j - 1]) <= End(t) && t.addr == StartOf(ts, i, brk) && t.addr <= ts[k].addr
      && (Moves(way) ==> ts[k].addr == ts[k - 1].addr + ts[k - 1].size + 2 * SOM)
      && (forall x :: i <= x < j && x != k ==> ts[x].free)
  {
    hide JoinSize, Tiled, Ordered, WayOf, Target, Growth, Room;
    var way := WayOf(ts, k, size, w);
    WayGrows(start, brk, ts, k, size, w);
    TargetEnds(start, brk, ts, k, way, size, From(way, k), To(way, k));
    WayTakesFree(ts, k, size, w);
    if k > 0 { Range(start, brk, ts, k - 1, k); }
  }

  /** What the choice of a way guarantees about sizes. */
  lemma WayGrows(start: int, brk: int, ts: seq<Tile>, k: int, size: int, w: int)
    requires Tiled(start, brk, ts) && WildOK(ts, w) && 0 <= k < |ts| && size > ts[k].size
    requires WayOf(ts, k, size, w) != Alone
    ensures var way := WayOf(ts, k, size, w);
      && WayFits(ts, k, way) && Target(ts, k, way, size).size >= size
      && (Growth(ts, k, way, size) > 0 ==> To(way, k) == |ts|)
  {
    hide JoinSize, Tiled, Ordered, WayOf, From, To, Growth, Target;
    OrderedOf(start, brk, ts);
    var way := WayOf(ts, k, size, w);
    WayFitsAlways(ts, k, size, w);
    RoomTaken(ts, k, way);
    JoinSizes(ts, From(way, k), To(way, k));
    WayEnds(brk, ts, k, way, size, w);
  }

  lemma RoomTaken(ts: seq<Tile>, k: int, way: Way)
    requires WayFits(ts, k, way)
    ensures 0 <= From(way, k) <= k < To(way, k) <= |ts| && To(way, k) <= From(way, k) + 3
    ensures Room(ts, k, way) == JoinSize(ts, From(way, k), To(way, k))
  {
    hide JoinSize;
  }

  /** Where the block ends that a way leads to. */
  lemma TargetEnds(start: int, brk: int, ts: seq<Tile>, k: int, way: Way, size: int, i: int, j: int)
    requires Tiled(start, brk, ts) && WayFits(ts, k, way) && i == From(way, k) && j == To(way, k)
    requires Growth(ts, k, way, size) > 0 ==> j == |ts|
    ensures 0 <= i <= k < j <= |ts| && brk == End(ts[|ts| - 1])
    ensures var t := Target(ts, k, way, size);
      && t.addr == ts[i].addr == StartOf(ts, i, brk)
      && t.size == Growth(ts, k, way, size) + Room(ts, k, way) && End(ts[j - 1]) <= End(t)
      && (if j < |ts| then End(t) == ts[j].addr else End(t) == brk + Growth(ts, k, way, size))
    ensures Room(ts, k, way) == ts[i].size + (if j > i + 1 then 2 * SOM + ts[i + 1].size else 0)
                                + (if j > i + 2 then 2 * SOM + ts[i + 2].size else 0)
  {
    hide JoinSize, Tiled, From, To;
    RoomTaken(ts, k, way);
    Range(start, brk, ts, i, j);
  }

  lemma WayTakesFree(ts: seq<Tile>, k: int, size: int, w: int)
    requires 0 <= k < |ts|
    ensures var way := WayOf(ts, k, size, w);
      && (Moves(way) ==> k > 0)
      && forall x :: From(way, k) <= x < To(way, k) && x != k ==> 0 <= x < |ts| && ts[x].free
  {
  }

  lemma WayEnds(brk: int, ts: seq<Tile>, k: int, way: Way, size: int, w: int)
    requires 0 <= k < |ts| && way == WayOf(ts, k, size, w) && WayFits(ts, k, way) && size > ts[k].size
    requires w == ts[k].addr <==> k == |ts| - 1
    requires k + 1 < |ts| ==> (w == ts[k + 1].addr <==> k + 1 == |ts| - 1)
    requires Room(ts, k, way) == ts[From(way, k)].size
      + (if To(way, k) > From(way, k) + 1 then 2 * SOM + ts[From(way, k) + 1].size else 0)
      + (if To(way, k) > From(way, k) + 2 then 2 * SOM + ts[From(way, k) + 2].size else 0)
    ensures Target(ts, k, way, size).size >= size && Target(ts, k, way, size).size >= Room(ts, k, way)
    ensures Growth(ts, k, way, size) > 0 ==> To(way, k) == |ts|
  {
  }

  /** Sizes and ends of up to three neighbouring blocks. */
  lemma Range(start: int, brk: int, ts: seq<Tile>, i: int, j: int)
    requires Tiled(start, brk, ts) && 0 <= i < j <= |ts| && j <= i + 3
    ensures ts[i].addr + JoinSize(ts, i, j) + 2 * SOM == End(ts[j - 1])
    ensures if j < |ts| then End(ts[j - 1]) == ts[j].addr else End(ts[j - 1]) == brk
    ensures brk == End(ts[|ts| - 1]) && ts[i].addr == StartOf(ts, i, brk)
    ensures JoinSize(ts, i, j) ==
      ts[i].size + (if j > i + 1 then 2 * SOM + ts[i + 1].size else 0)
        + (if j > i + 2 then 2 * SOM + ts[i + 2].size else 0)
  {
    JoinSizes(ts, i, j);
    JoinEnd(start, brk, ts, i, j);
    assert j < |ts| ==> Abut(ts, j - 1);
  }

  /** The n bytes at src have arrived at dst. */
  ghost predicate BytesMoved(m: Memory, m': Memory, src: int, dst: int, n: int) {
    forall y :: src <= y < src + n && y in m.bytes ==>
      y - src + dst in m'.bytes && m'.bytes[y - src + dst] == m.bytes[y]
  }

  lemma BytesStay(m: Memory, m': Memory, a: int, n: int)
    requires BytesKept(m, m', a, n)
    ensures BytesMoved(m, m', a, a, n)
  {
  }

  lemma MovedThenKept(m: Memory, m1: Memory, m2: Memory, src: int, dst: int, n: int)
    requires BytesMoved(m, m1, src, dst, n) && BytesKept(m1, m2, dst, n)
    ensures BytesMoved(m, m2, src, dst, n)
  {
  }

  /** A single word written, or none. */
  ghost predicate MayStore(m: Memory, m': Memory, a: int, v: int) { m' == m || Stored(m, m', a, v) }

  /** The writes before a merge in place: perhaps the size of the right neighbour, the new size
      of block k, perhaps its flag. */
  lemma InPlaceWrites(m0: Memory, ma: Memory, mb: Memory, m1: Memory, head: int, o: seq<int>, start: int, brk: int,
                      ts: seq<Tile>, k: int, j: int, total: nat, v: int)
    requires HeapOK(m0, head, o, start, brk, ts) && 0 <= k < j <= |ts| && j <= k + 2 && !ts[k].free
    requires ma == m0 || (j == k + 2 && Stored(m0, ma, ts[k + 1].addr, v))
    requires Stored(ma, mb, ts[k].addr, total) && MayStore(mb, m1, ts[k].addr + 8, 0)
    ensures Torn(m1, head, o, start, ts, k, j) && Records(m1.words, ts[k].addr, Tile(ts[k].addr, total, false))
    ensures Frame(m0, m1, ts[k].addr, End(ts[j - 1]), []) && BytesKept(m0, m1, Payload(ts[k]), ts[k].size)
  {
    hide HeapOK, Torn;
    HeapTiles(m0, head, o, start, brk, ts, k, j);
    Span(start, brk, ts, k, j);
    InPlaceFrame(m0, ma, mb, m1, ts, k, j, total, v);
    TornAfter(m0, m1, head, o, start, brk, ts, k, j);
  }

  lemma Span(start: int, brk: int, ts: seq<Tile>, i: int, j: int)
    requires Tiled(start, brk, ts) && 0 <= i < j <= |ts|
    ensures End(ts[i]) <= End(ts[j - 1])
    ensures forall x :: i < x < j ==> End(ts[i]) <= ts[x].addr && End(ts[x]) <= End(ts[j - 1])
    ensures forall x :: i <= x < j - 1 ==> End(ts[x]) <= ts[j - 1].addr
    ensures j > i + 1 ==> End(ts[i]) == ts[i + 1].addr
  {
    assert j > i + 1 ==> Abut(ts, i);
  }

  lemma InPlaceFrame(m0: Memory, ma: Memory, mb: Memory, m1: Memory, ts: seq<Tile>, k: int, j: int, total: nat, v: int)
    requires 0 <= k < j <= |ts| && j <= k + 2 && !ts[k].free && (j == k + 2 ==> End(ts[k]) <= ts[k + 1].addr)
    requires Records(m0.words, ts[k].addr, ts[k])
    requires ma == m0 || (j == k + 2 && Stored(m0, ma, ts[k + 1].addr, v))
    requires Stored(ma, mb, ts[k].addr, total) && MayStore(mb, m1, ts[k].addr + 8, 0)
    ensures Records(m1.words, ts[k].addr, Tile(ts[k].addr, total, false))
    ensures Frame(m0, m1, ts[k].addr, End(ts[j - 1]), []) && BytesKept(m0, m1, Payload(ts[k]), ts[k].size)
    ensures forall x :: k <= x < j ==>
      Same(m0.words, m1.words, ts[x].addr + 16) && Same(m0.words, m1.words, ts[x].addr + 24)
  {
    var lo, hi := ts[k].addr, End(ts[j - 1]);
    assert forall y :: WordClear(y, lo, hi, []) ==> y + 8 <= lo || hi <= y;
    assert forall y :: ByteClear(y, lo, hi, []) ==> y < lo || hi <= y;
  }

  /** The writes before a merge to the left: perhaps the grown size of block k, the size and
      flag of the left block, and the memmove of n bytes that must stop short of the links of
      block k. */
  lemma LeftWrites(m0: Memory, ma: Memory, mb: Memory, mc: Memory, m1: Memory, head: int, o: seq<int>, start: int,
                   brk: int,
                   ts: seq<Tile>, k: int, j: int, total: nat, v: int, n: int)
    requires HeapOK(m0, head, o, start, brk, ts) && 0 < k < j <= |ts| && j <= k + 2
    requires ts[k].size <= n <= ts[k - 1].size + SOM + 16
    requires MayStore(m0, ma, ts[k].addr, v) && Stored(ma, mb, ts[k - 1].addr, total)
    requires Stored(mb, mc, ts[k - 1].addr + 8, 0)
    requires Moved(mc, m1, Payload(ts[k - 1]), Payload(ts[k]), n)
    ensures Torn(m1, head, o, start, ts, k - 1, j)
    ensures Records(m1.words, ts[k - 1].addr, Tile(ts[k - 1].addr, total, false))
    ensures Frame(m0, m1, ts[k - 1].addr, End(ts[j - 1]), [])
    ensures BytesMoved(m0, m1, Payload(ts[k]), Payload(ts[k - 1]), ts[k].size)
  {
    hide HeapOK, Torn, Tiled, Frame, Stored, Moved, MayStore, BytesMoved, Same;
    HeapTiles(m0, head, o, start, brk, ts, k - 1, j);
    Span(start, brk, ts, k - 1, j);
    Span(start, brk, ts, k, j);
    LeftFrame(m0, ma, mb, mc, m1, ts[k - 1], ts[k], total, v, n, End(ts[j - 1]));
    LeftLinks(m0, ma, mb, mc, m1, ts, k, j, total, v, n);
    LeftBytes(m0, ma, mb, mc, m1, ts[k - 1], ts[k], total, v, n);
    TornAfter(m0, m1, head, o, start, brk, ts, k - 1, j);
  }

  lemma LeftFrame(m0: Memory, ma: Memory, mb: Memory, mc: Memory, m1: Memory, l: Tile, t: Tile, total: nat, v: int,
                  n: int, hi: int)
    requires t.addr == End(l) && End(t) <= hi && 0 <= n <= l.size + SOM + 16
    requires MayStore(m0, ma, t.addr, v) && Stored(ma, mb, l.addr, total) && Stored(mb, mc, l.addr + 8, 0)
    requires Moved(mc, m1, Payload(l), Payload(t), n)
    ensures Frame(m0, m1, l.addr, hi, [])
  {
    hide Frame, Stored, MayStore, Moved, BytesMoved;
    StoreFrame(m0, ma, t.addr, v, l.addr, hi);
    StoredIsMay(ma, mb, l.addr, total);
    StoreFrame(ma, mb, l.addr, total, l.addr, hi);
    StoredIsMay(mb, mc, l.addr + 8, 0);
    StoreFrame(mb, mc, l.addr + 8, 0, l.addr, hi);
    MovedFrame(mc, m1, Payload(l), Payload(t), n);
    FrameTrans(m0, ma, mb, l.addr, hi, [], l.addr, hi, [], l.addr, hi, []);
    FrameTrans(m0, mb, mc, l.addr, hi, [], l.addr, hi, [], l.addr, hi, []);
    FrameTrans(m0, mc, m1, l.addr, hi, [], Payload(l), Payload(l) + n, [], l.addr, hi, []);
  }

  lemma StoredIsMay(m: Memory, m': Memory, a: int, v: int)
    requires Stored(m, m', a, v)
    ensures MayStore(m, m', a, v)
  {
  }

  lemma StoreFrame(m: Memory, m': Memory, a: int, v: int, lo: int, hi: int)
    requires MayStore(m, m', a, v) && lo <= a && a + 8 <= hi
    ensures Frame(m, m', lo, hi, [])
  {
  }

  /** The header of the left block is written, and no link field is touched. */
  lemma LeftLinks(m0: Memory, ma: Memory, mb: Memory, mc: Memory, m1: Memory, ts: seq<Tile>, k: int, j: int,
                  total: nat, v: int, n: int)
    requires 0 < k < j <= |ts| && j <= k + 2 && ts[k].addr == End(ts[k - 1])
    requires (j == k + 2 ==> End(ts[k]) <= ts[k + 1].addr)
    requires 0 <= n <= ts[k - 1].size + SOM + 16
    requires MayStore(m0, ma, ts[k].addr, v) && Stored(ma, mb, ts[k - 1].addr, total)
    requires Stored(mb, mc, ts[k - 1].addr + 8, 0)
    requires Moved(mc, m1, Payload(ts[k - 1]), Payload(ts[k]), n)
    ensures Records(m1.words, ts[k - 1].addr, Tile(ts[k - 1].addr, total, false))
    ensures forall x :: k - 1 <= x < j ==>
      Same(m0.words, m1.words, ts[x].addr + 16) && Same(m0.words, m1.words, ts[x].addr + 24)
  {
  }

  lemma LeftBytes(m0: Memory, ma: Memory, mb: Memory, mc: Memory, m1: Memory, l: Tile, t: Tile, total: nat, v: int,
                  n: int)
    requires t.addr == End(l) && t.size <= n
    requires MayStore(m0, ma, t.addr, v) && Stored(ma, mb, l.addr, total) && Stored(mb, mc, l.addr + 8, 0)
    requires Moved(mc, m1, Payload(l), Payload(t), n)
    ensures BytesMoved(m0, m1, Payload(t), Payload(l), t.size)
  {
  }

  /** The sizes of the free blocks a way takes. */
  ghost function FreeTaken(ts: seq<Tile>, k: int, way: Way): int
    requires WayFits(ts, k, way)
  {
    (if Moves(way) then ts[k - 1].size else 0) + (if To(way, k) == k + 2 then ts[k + 1].size else 0)
  }

  ghost function WayDelta(ts: seq<Tile>, k: int, way: Way, size: int): Stats
    requires WayFits(ts, k, way)
  {
    var n, g := To(way, k) - From(way, k), Growth(ts, k, way, size);
    Stats(1 - n, 1 - n, g + 2 * SOM * (n - 1), -FreeTaken(ts, k, way), 2 * SOM * (1 - n))
  }

  lemma WayCounts(ts: seq<Tile>, k: int, way: Way, size: int, base: Stats)
    requires WayFits(ts, k, way) && !ts[k].free
    requires forall x :: From(way, k) <= x < To(way, k) && x != k ==> ts[x].free
    ensures Plus(Plus(Totals(ts), base), WayDelta(ts, k, way, size)) == Plus(Totals(Resized(ts, k, way, size)), base)
  {
    hide Totals, JoinSize, Splice, Growth, Room;
    RoomTaken(ts, k, way);
    JoinTotals(ts, From(way, k), To(way, k), Target(ts, k, way, size));
    JoinCount(ts, From(way, k), To(way, k));
  }

  lemma WayNoPair(ts: seq<Tile>, k: int, way: Way, size: int)
    requires WayFits(ts, k, way) && NoFreePair(ts)
    ensures NoFreePair(Resized(ts, k, way, size))
  {
    hide JoinSize;
    var r, i, j := Resized(ts, k, way, size), From(way, k), To(way, k);
    forall x {:trigger FreePair(r, x)} | 0 <= x < |r| - 1 ensures !FreePair(r, x) {
      assert x + 1 < i ==> !FreePair(ts, x);
      assert x > i ==> !FreePair(ts, x - 1 + j - i);
    }
  }

  lemma AddrsRise(ts: seq<Tile>, i: int, j: int)
    requires Ordered(ts) && 0 <= i <= j < |ts|
    ensures i < j ==> ts[i].addr < ts[j].addr
  {
  }

  lemma ResizedLast(ts: seq<Tile>, k: int, way: Way, size: int)
    requires WayFits(ts, k, way)
    ensures var r := Resized(ts, k, way, size);
      r != [] && r[|r| - 1].addr == if To(way, k) == |ts| then ts[From(way, k)].addr else ts[|ts| - 1].addr
  {
  }

  /** Which ways reach the last block. */
  lemma WayEndsAt(ts: seq<Tile>, k: int, size: int, w: int)
    requires 0 <= k < |ts| && WildOK(ts, w) && Ordered(ts)
    ensures var way := WayOf(ts, k, size, w);
      && (way.Wild? ==> k + 1 == |ts|) && (way.BothWild? || way.RightWild? ==> k + 2 == |ts|)
      && (w == ts[k].addr <==> k + 1 == |ts|)
  {
  }

  /** Two of the merges forget the wilderness: it then names a block that no longer exists.
      That happens exactly when the right neighbour they take is the last block. */
  lemma WayWilderness(start: int, brk: int, ts: seq<Tile>, k: int, size: int, w: int)
    requires Tiled(start, brk, ts) && WildOK(ts, w) && 0 <= k < |ts| && !ts[k].free && size > ts[k].size
    requires WayOf(ts, k, size, w) != Alone
    ensures var way := WayOf(ts, k, size, w);
      WayFits(ts, k, way)
      && (WildOK(Resized(ts, k, way, size), WildernessAfter(ts, k, way, w))
          <==> !((way.Right? || way.Both?) && k + 2 == |ts|))
  {
    hide Tiled, Ordered, Resized, WayOf;
    OrderedOf(start, brk, ts);
    var way := WayOf(ts, k, size, w);
    WayFitsAlways(ts, k, size, w);
    WayEndsAt(ts, k, size, w);
    ResizedLast(ts, k, way, size);
    AddrsRise(ts, From(way, k), |ts| - 1);
    AddrsRise(ts, k, |ts| - 1);
    if k > 0 { AddrsRise(ts, k - 1, k); }
  }

  /** Everything a finished merge owes to the payloads. */
  lemma WayDone(m0: Memory, m1: Memory, m2: Memory, o0: seq<int>, start: int, brk: int, ts: seq<Tile>, mp: seq<Tile>,
                k: int, size: int, w: int)
    requires Tiled(start, brk, ts) && multiset(o0) == multiset(Addrs(ts)) && WildOK(ts, w)
    requires 0 <= k < |ts| && !ts[k].free && size > ts[k].size && WayOf(ts, k, size, w) != Alone
    requires WayFits(ts, k, WayOf(ts, k, size, w)) && !LinksLost(ts, k, WayOf(ts, k, size, w), size)
    requires MappedOK(m0, start, brk + Growth(ts, k, WayOf(ts, k, size, w), size), mp)
    requires var way := WayOf(ts, k, size, w); var t := Target(ts, k, way, size);
      && Frame(m0, m1, t.addr, End(ts[To(way, k) - 1]), []) && Frame(m1, m2, Footer(t), End(t), o0 + [t.addr])
      && BytesMoved(m0, m1, Payload(ts[k]), Payload(t), ts[k].size)
    ensures var way := WayOf(ts, k, size, w); var t := Target(ts, k, way, size);
      && Frame(m0, m2, t.addr, End(t), o0)
      && BytesMoved(m0, m2, Payload(ts[k]), Payload(t), ts[k].size)
      && OthersKept(m0, m2, ts, mp, k, -1)
      && MappedOK(m2, start, brk + Growth(ts, k, way, size), mp)
  {
    hide Frame, BytesKept, BytesMoved, MappedOK, Tiled, WayOf, JoinSize;
    var way := WayOf(ts, k, size, w);
    var t, i, j := Target(ts, k, way, size), From(way, k), To(way, k);
    WayShape(start, brk, ts, k, size, w);
    TakenHeaders(o0, start, brk, ts, i);
    FrameTrans(m0, m1, m2, t.addr, End(ts[j - 1]), [], Footer(t), End(t), o0 + [t.addr], t.addr, End(t), o0);
    TargetHeaders(o0, start, brk, ts, k, way, size);
    KeepsBytes(m1, m2, Payload(t), ts[k].size, Footer(t), End(t), o0 + [t.addr]);
    MovedThenKept(m0, m1, m2, Payload(ts[k]), Payload(t), ts[k].size);
    WayOthers(m0, m2, o0, start, brk, brk + Growth(ts, k, way, size), ts, mp, i, j, k, t);
  }

  lemma TakenHeaders(o: seq<int>, start: int, brk: int, ts: seq<Tile>, i: int)
    requires Tiled(start, brk, ts) && multiset(o) == multiset(Addrs(ts)) && 0 <= i < |ts|
    ensures ts[i].addr in o
  {
    InAddrs(o, ts);
  }

  lemma TargetHeaders(o: seq<int>, start: int, brk: int, ts: seq<Tile>, k: int, way: Way, size: int)
    requires Tiled(start, brk, ts) && multiset(o) == multiset(Addrs(ts))
    requires WayFits(ts, k, way) && (Moves(way) ==> ts[k].size <= ts[k - 1].size + SOM + 16)
    ensures var p := Payload(ts[From(way, k)]); forall h :: h in o ==> h + SOM <= p || p + ts[k].size <= h + 16
  {
    var p := Payload(ts[From(way, k)]);
    HeadersAround(o, start, brk, ts, k);
    if Moves(way) {
      HeadersAround(o, start, brk, ts, k - 1);
      assert Abut(ts, k - 1);
    }
  }

  lemma WayOthers(m0: Memory, m2: Memory, o0: seq<int>, start: int, brk: int, brk2: int, ts: seq<Tile>, mp: seq<Tile>,
                  i: int, j: int, k: int, t: Tile)
    requires Tiled(start, brk, ts) && multiset(o0) == multiset(Addrs(ts)) && 0 <= i <= k < j <= |ts|
    requires forall x :: i <= x < j && x != k ==> ts[x].free
    requires t.addr == StartOf(ts, i, brk) && (if j < |ts| then End(t) == ts[j].addr && brk2 == brk else End(t) == brk2)
    requires brk <= brk2 && MappedOK(m0, start, brk2, mp) && Frame(m0, m2, t.addr, End(t), o0)
    ensures OthersKept(m0, m2, ts, mp, k, -1) && MappedOK(m2, start, brk2, mp)
  {
    hide Frame, BytesKept, MappedOK, Tiled, Records;
    EndsBefore(start, brk, ts, i);
    EndsBefore(start, brk, ts, j);
    HeadersInHeap(o0, start, brk, ts);
    MappedOutside(m0, start, brk2, mp);
    MappedAgain(m0, m0, start, brk2, brk, mp);
    OthersOutside(m0, m2, o0, start, brk, ts, mp, i, j, t.addr, End(t), o0);
    MappedOutside(m2, start, brk, mp);
    MappedAgain(m2, m2, start, brk, brk2, mp);
  }

  /** The memory after tryMergeRealloc took the given way, seen from outside. */
  ghost predicate Settled(m0: Memory, o0: seq<int>, ts: seq<Tile>, mp: seq<Tile>, m2: Memory, k: int, way: Way,
                          size: int) {
    && WayFits(ts, k, way)
    && BytesMoved(m0, m2, Payload(ts[k]), Payload(Target(ts, k, way, size)), ts[k].size)
    && Frame(m0, m2, Target(ts, k, way, size).addr, End(Target(ts, k, way, size)), o0)
    && OthersKept(m0, m2, ts, mp, k, -1)
  }

  /** All preparations for the given way are made; what is left is to relink. */
  ghost predicate Prepared(m0: Memory, m1: Memory, o0: seq<int>, start: int, brk0: int, ts: seq<Tile>, mp: seq<Tile>,
                           k: int, way: Way, size: int, w0: int)
  {
    && Tiled(start, brk0, ts) && multiset(o0) == multiset(Addrs(ts)) && WildOK(ts, w0)
    && 0 <= k < |ts| && !ts[k].free && size > ts[k].size && way == WayOf(ts, k, size, w0) != Alone
    && WayFits(ts, k, way) && !LinksLost(ts, k, way, size)
    && MappedOK(m0, start, brk0 + Growth(ts, k, way, size), mp)
    && Frame(m0, m1, Target(ts, k, way, size).addr, End(ts[To(way, k) - 1]), [])
    && BytesMoved(m0, m1, Payload(ts[k]), Payload(Target(ts, k, way, size)), ts[k].size)
  }

  lemma PreparedShape(m0: Memory, m1: Memory, o0: seq<int>, start: int, brk0: int, ts: seq<Tile>, mp: seq<Tile>,
                      k: int, way: Way, size: int, w0: int)
    requires Prepared(m0, m1, o0, start, brk0, ts, mp, k, way, size, w0)
    ensures WayFits(ts, k, way) && Target(ts, k, way, size).addr == ts[From(way, k)].addr
    ensures var t, j := Target(ts, k, way, size), To(way, k);
      if j < |ts| then End(t) == ts[j].addr && brk0 + Growth(ts, k, way, size) == End(ts[|ts| - 1])
      else End(t) == brk0 + Growth(ts, k, way, size)
    ensures forall x, y :: From(way, k) <= x < y < To(way, k) ==> ts[x].addr < ts[y].addr
  {
    hide JoinSize, Tiled, Ordered, WayOf, Target, Growth, LinksLost, Frame, BytesMoved, MappedOK;
    WayShape(start, brk0, ts, k, size, w0);
    TargetPlace(ts, k, way, size);
    OrderedOf(start, brk0, ts);
    forall x, y | From(way, k) <= x < y < To(way, k) ensures ts[x].addr < ts[y].addr { AddrsRise(ts, x, y); }
  }

  lemma TargetPlace(ts: seq<Tile>, k: int, way: Way, size: int)
    requires WayFits(ts, k, way)
    ensures 0 <= From(way, k) < |ts| && Target(ts, k, way, size).addr == ts[From(way, k)].addr
    ensures !Target(ts, k, way, size).free && Payload(Target(ts, k, way, size)) == Payload(ts[From(way, k)])
    ensures From(way, k) <= k < To(way, k) <= |ts|
  {
  }

  lemma PreparedSettles(m0: Memory, m1: Memory, m2: Memory, o0: seq<int>, start: int, brk0: int, ts: seq<Tile>,
                        mp: seq<Tile>,
                        k: int, way: Way, size: int, w0: int)
    requires Prepared(m0, m1, o0, start, brk0, ts, mp, k, way, size, w0)
    requires var t := Target(ts, k, way, size); Frame(m1, m2, Footer(t), End(t), o0 + [t.addr])
    ensures Settled(m0, o0, ts, mp, m2, k, way, size)
    ensures MappedOK(m2, start, brk0 + Growth(ts, k, way, size), mp)
  {
    hide Frame, BytesMoved, OthersKept, MappedOK, Tiled, WayOf, Target, Growth, LinksLost, WildOK, WayFits;
    WayDone(m0, m1, m2, o0, start, brk0, ts, mp, k, size, w0);
  }

  lemma LeftFate(start: int, brk: int, ts: seq<Tile>, k: int, size: int, w: int, mp: seq<Tile>, ker: Kernel)
    requires Tiled(start, brk, ts) && WildOK(ts, w) && 0 <= k < |ts| && !ts[k].free && size > ts[k].size
    requires WayOf(ts, k, size, w) == Left
    ensures WayFits(ts, k, Left) && From(Left, k) == k - 1 && To(Left, k) == k + 1 && brk == End(ts[|ts| - 1])
    ensures var l, s, g := ts[k - 1].size, ts[k].size, Growth(ts, k, Left, size);
      && Target(ts, k, Left, size) == Tile(ts[k - 1].addr, l + s + 2 * SOM + g, false)
      && ts[k].addr == End(ts[k - 1])
      && WayDelta(ts, k, Left, size) == Stats(-1, -1, g + 2 * SOM, -(l as int), -2 * SOM)
      && Fate(ts, k, size, w, brk, start, mp, ker)
         == (if !Granted(brk, g, start, mp, ker) then Ptr(NULL)
             else if s + g > l + SOM + 16 then Stuck(OverwritesLinks)
             else Ptr(Payload(ts[k - 1])))
      && (LinksLost(ts, k, Left, size) <==> s + g > l + SOM + 16)
    ensures var t := Target(ts, k, Left, size);
      if k + 1 < |ts| then End(t) == ts[k + 1].addr && Growth(ts, k, Left, size) == 0
      else End(t) == brk + Growth(ts, k, Left, size)
  {
    hide Tiled, JoinSize, Ordered, Granted;
    WayShape(start, brk, ts, k, size, w);
    OrderedOf(start, brk, ts);
    WayFitsAlways(ts, k, size, w);
  }

  lemma GrownThenMerged(s: Stats, g: int, l: int)
    ensures Plus(Plus(s, Stats(0, 0, g, 0, 0)), Stats(-1, -1, 2 * SOM, -l, -2 * SOM))
            == Plus(s, Stats(-1, -1, g + 2 * SOM, -l, -2 * SOM))
  {
  }

  lemma WildFate(start: int, brk: int, ts: seq<Tile>, k: int, size: int, w: int, mp: seq<Tile>, ker: Kernel)
    requires Tiled(start, brk, ts) && WildOK(ts, w) && 0 <= k < |ts| && !ts[k].free && size > ts[k].size
    requires WayOf(ts, k, size, w) == Wild
    ensures WayFits(ts, k, Wild) && From(Wild, k) == k && To(Wild, k) == k + 1 == |ts| && brk == End(ts[|ts| - 1])
    ensures var g := Growth(ts, k, Wild, size);
      && g == size - ts[k].size && Target(ts, k, Wild, size) == Tile(ts[k].addr, size, false)
      && WayDelta(ts, k, Wild, size) == Stats(0, 0, g, 0, 0) && !LinksLost(ts, k, Wild, size)
      && Fate(ts, k, size, w, brk, start, mp, ker)
         == (if g % 8 != 0 then Stuck(AssertFails)
             else if !Granted(brk, g, start, mp, ker) then Ptr(NULL)
             else if (brk + g) % 8 != 0 then Stuck(AssertFails)
             else Ptr(Payload(ts[k])))
  {
  }

  lemma RightFate(start: int, brk: int, ts: seq<Tile>, k: int, size: int, w: int, mp: seq<Tile>, ker: Kernel)
    requires Tiled(start, brk, ts) && WildOK(ts, w) && 0 <= k < |ts| && !ts[k].free && size > ts[k].size
    requires WayOf(ts, k, size, w) == Right
    ensures WayFits(ts, k, Right) && From(Right, k) == k && To(Right, k) == k + 2
    ensures var s, r := ts[k].size, ts[k + 1].size;
      && Growth(ts, k, Right, size) == 0 && Target(ts, k, Right, size) == Tile(ts[k].addr, s + r + 2 * SOM, false)
      && WayDelta(ts, k, Right, size) == Stats(-1, -1, 2 * SOM, -(r as int), -2 * SOM) && !LinksLost(ts, k, Right, size)
      && Fate(ts, k, size, w, brk, start, mp, ker) == Ptr(Payload(ts[k]))
  {
    hide Tiled, JoinSize, Ordered, WayOf, Granted;
    GrantedNone(brk, start, mp, ker);
    WayShape(start, brk, ts, k, size, w);
    OrderedOf(start, brk, ts);
    FateNullSteps(start, brk, ts, k, size, w);
    WayFitsAlways(ts, k, size, w);
    JoinSizes(ts, k, k + 2);
  }

  lemma BothFate(start: int, brk: int, ts: seq<Tile>, k: int, size: int, w: int, mp: seq<Tile>, ker: Kernel)
    requires Tiled(start, brk, ts) && WildOK(ts, w) && 0 <= k < |ts| && !ts[k].free && size > ts[k].size
    requires WayOf(ts, k, size, w) == Both
    ensures WayFits(ts, k, Both) && From(Both, k) == k - 1 && To(Both, k) == k + 2
    ensures var l, s, r := ts[k - 1].size, ts[k].size, ts[k + 1].size;
      && Growth(ts, k, Both, size) == 0 && Target(ts, k, Both, size) == Tile(ts[k - 1].addr, l + s + r + 4 * SOM, false)
      && ts[k].addr == End(ts[k - 1]) && (LinksLost(ts, k, Both, size) <==> s > l + SOM + 16)
      && WayDelta(ts, k, Both, size) == Stats(-2, -2, 4 * SOM, -(l + r), -4 * SOM)
      && Fate(ts, k, size, w, brk, start, mp, ker)
         == (if s > l + SOM + 16 then Stuck(OverwritesLinks) else Ptr(Payload(ts[k - 1])))
  {
    hide Tiled, JoinSize, Ordered, WayOf, Granted;
    GrantedNone(brk, start, mp, ker);
    WayShape(start, brk, ts, k, size, w);
    OrderedOf(start, brk, ts);
    FateNullSteps(start, brk, ts, k, size, w);
    WayFitsAlways(ts, k, size, w);
    JoinSizes(ts, k - 1, k + 2);
  }

  lemma BothWildFate(start: int, brk: int, ts: seq<Tile>, k: int, size: int, w: int, mp: seq<Tile>, ker: Kernel)
    requires Tiled(start, brk, ts) && WildOK(ts, w) && 0 <= k < |ts| && !ts[k].free && size > ts[k].size
    requires WayOf(ts, k, size, w) == BothWild
    ensures WayFits(ts, k, BothWild) && From(BothWild, k) == k - 1 && To(BothWild, k) == k + 2 == |ts|
    ensures brk == End(ts[|ts| - 1])
    ensures var l, s, r, g := ts[k - 1].size, ts[k].size, ts[k + 1].size, Growth(ts, k, BothWild, size);
      && 0 < g == size - (l + s + r + 4 * SOM) && Target(ts, k, BothWild, size) == Tile(ts[k - 1].addr, size, false)
      && ts[k].addr == End(ts[k - 1]) && (LinksLost(ts, k, BothWild, size) <==> s > l + SOM + 16)
      && WayDelta(ts, k, BothWild, size) == Stats(-2, -2, g + 4 * SOM, -(l + r), -4 * SOM)
      && Fate(ts, k, size, w, brk, start, mp, ker)
         == (if g % 8 != 0 then Stuck(AssertFails)
             else if !Granted(brk, g, start, mp, ker) then Ptr(NULL)
             else if s > l + SOM + 16 then Stuck(OverwritesLinks)
             else Ptr(Payload(ts[k - 1])))
  {
    hide Tiled, JoinSize, Ordered, Granted;
    WayShape(start, brk, ts, k, size, w);
    OrderedOf(start, brk, ts);
    WayFitsAlways(ts, k, size, w);
    JoinSizes(ts, k - 1, k + 2);
  }

  lemma RightWildFate(start: int, brk: int, ts: seq<Tile>, k: int, size: int, w: int, mp: seq<Tile>, ker: Kernel)
    requires Tiled(start, brk, ts) && WildOK(ts, w) && 0 <= k < |ts| && !ts[k].free && size > ts[k].size
    requires WayOf(ts, k, size, w) == RightWild
    ensures WayFits(ts, k, RightWild) && From(RightWild, k) == k && To(RightWild, k) == k + 2 == |ts|
    ensures brk == End(ts[|ts| - 1])
    ensures var s, r, g := ts[k].size, ts[k + 1].size, Growth(ts, k, RightWild, size);
      && 0 < g == size - (s + r + 2 * SOM) && Target(ts, k, RightWild, size) == Tile(ts[k].addr, size, false)
      && !LinksLost(ts, k, RightWild, size)
      && WayDelta(ts, k, RightWild, size) == Stats(-1, -1, g + 2 * SOM, -(r as int), -2 * SOM)
      && Fate(ts, k, size, w, brk, start, mp, ker)
         == (if g % 8 != 0 then Stuck(AssertFails)
             else if !Granted(brk, g, start, mp, ker) then Ptr(NULL)
             else Ptr(Payload(ts[k])))
  {
    hide Tiled, JoinSize, Ordered, Granted;
    WayShape(start, brk, ts, k, size, w);
    OrderedOf(start, brk, ts);
    WayFitsAlways(ts, k, size, w);
    JoinSizes(ts, k, k + 2);
  }

  lemma NextStored(m0: Memory, m1: Memory, a: int, b: int, v: int)
    requires Stored(m0, m1, b, v) && a + 8 <= b && a in m0.words
    ensures LinkIs(m1.words, a, m0.words[a]) && LinkIs(m1.words, b, v)
  {
  }

  // Trimming a live block to a request.

  ghost predicate Trims(t: Tile, size: int) { t.size >= size + 2 * SOM + MIN_SPLIT_SIZE }

  ghost function Trimmed(ts: seq<Tile>, k: int, size: nat): seq<Tile>
    requires 0 <= k < |ts|
  {
    if Trims(ts[k], size) then SplitAt(ts, k, size) else ts
  }

  ghost function TrimWild(ts: seq<Tile>, k: int, size: nat, w: int): int
    requires 0 <= k < |ts|
  {
    if Trims(ts[k], size) then SplitWild(ts, k, size, w) else w
  }

  lemma TrimInvariant(start: int, brk: int, ts: seq<Tile>, k: int, size: nat, base: Stats)
    requires Tiled(start, brk, ts) && NoFreePair(ts) && 0 <= k < |ts| && !ts[k].free && Trims(ts[k], size)
    ensures NoFreePair(SplitAt(ts, k, size))
    ensures Plus(Plus(Plus(Totals(ts), base), Stats(0, 1, 0, ts[k].size, 0)), SplitDelta(ts, k, size))
            == Plus(Totals(SplitAt(ts, k, size)), base)
  {
    hide Totals, SplitDelta, Tiled, Freed, Cut;
    CutNoPair(ts, k, size);
    FreedNoPair(Cut(ts, k, size), k + 1);
    SetFlagTotals(ts, k);
    SplitTotals(start, brk, ts, k, size);
  }

  lemma TrimBlockFacts(start: int, brk: int, ts: seq<Tile>, k: int, size: nat)
    requires Tiled(start, brk, ts) && 0 <= k < |ts| && !ts[k].free && ts[k].size >= size
    ensures var s := Trimmed(ts, k, size);
      |s| > k && s[k].addr == ts[k].addr && !s[k].free && size <= s[k].size < size + 2 * SOM + MIN_SPLIT_SIZE
  {
  }

  lemma KeptPart(m: Memory, m': Memory, a: int, n: int, n': int)
    requires BytesKept(m, m', a, n) && n' <= n
    ensures BytesKept(m, m', a, n')
  {
  }

  lemma NothingChanged(m: Memory, ts: seq<Tile>, mp: seq<Tile>, k: int, a: int, n: int)
    ensures BytesKept(m, m, a, n) && OthersKept(m, m, ts, mp, k, -1)
  {
  }

  /** tryMergeRealloc gives up exactly when no merge fits, or one fits but for the memory that
      sbrk refuses; an assertion on the way may stop it first. */
  lemma FateNull(start: int, brk: int, ts: seq<Tile>, k: int, size: int, w: int, mp: seq<Tile>, ker: Kernel)
    requires Tiled(start, brk, ts) && WildOK(ts, w) && Ordered(ts) && 0 <= k < |ts|
    ensures var way := WayOf(ts, k, size, w);
      Fate(ts, k, size, w, brk, start, mp, ker) == Ptr(NULL) <==>
        || way.Alone?
        || (&& WayFits(ts, k, way) && !Granted(brk, Growth(ts, k, way, size), start, mp, ker)
            && !(!way.Left? && Growth(ts, k, way, size) % 8 != 0))
    ensures Fate(ts, k, size, w, brk, start, mp, ker) == Ptr(NULL) ==> Short(ts, k, WayOf(ts, k, size, w), size)
  {
    WayFitsAlways(ts, k, size, w);
    FateNullSteps(start, brk, ts, k, size, w);
  }

  /** Cases d and e never move the break. */
  lemma FateNullSteps(start: int, brk: int, ts: seq<Tile>, k: int, size: int, w: int)
    requires Tiled(start, brk, ts) && WildOK(ts, w) && Ordered(ts) && 0 <= k < |ts|
    ensures var way := WayOf(ts, k, size, w);
      way.Right? || way.Both? ==> WayFits(ts, k, way) && Growth(ts, k, way, size) == 0
    ensures forall i :: 0 <= i < |ts| ==> Payload(ts[i]) != NULL
  {
    hide Tiled, Ordered, JoinSize;
    var way := WayOf(ts, k, size, w);
    WayFitsAlways(ts, k, size, w);
    if way.Right? || way.Both? { JoinSizes(ts, From(way, k), To(way, k)); }
    forall i | 0 <= i < |ts| ensures Payload(ts[i]) != NULL { TileBound(start, brk, ts, i); }
  }

  // Writes into live payloads.

  /** A change inside the payload of live heap block x. */
  lemma PayloadWrite(m: Memory, m': Memory, head: int, o: seq<int>, start: int, brk: int, ts: seq<Tile>, mp: seq<Tile>,
                     x: int, a: int, b: int)
    requires HeapOK(m, head, o, start, brk, ts) && MappedOK(m, start, brk, mp) && 0 <= x < |ts|
    requires Frame(m, m', a, b, []) && Payload(ts[x]) <= a <= b <= Footer(ts[x])
    ensures HeapOK(m', head, o, start, brk, ts) && MappedOK(m', start, brk, mp) && OthersKept(m, m', ts, mp, x, -1)
  {
    hide Linked, Sorted, BytesKept, MappedOK;
    forall i | 0 <= i < |ts| ensures TileCells(m'.words, ts[i])
      && (i != x ==> BytesKept(m, m', Payload(ts[i]), ts[i].size)) {
      if i == x {
        assert TileCells(m.words, ts[x]);
        PayloadInside(m, m', ts[x], a, b);
      } else {
        assert i < x ==> End(ts[i]) <= ts[x].addr;
        assert i > x ==> End(ts[x]) <= ts[i].addr;
        KeepsTile(m, m', ts, i, a, b, []);
      }
    }
    PayloadLinks(m, m', head, o, start, brk, ts, x, a, b);
    PayloadMaps(m, m', start, brk, ts, mp, x, a, b);
  }

  lemma PayloadInside(m: Memory, m': Memory, t: Tile, a: int, b: int)
    requires Frame(m, m', a, b, []) && Payload(t) <= a <= b <= Footer(t) && TileCells(m.words, t)
    ensures TileCells(m'.words, t)
  {
  }

  lemma PayloadLinks(m: Memory, m': Memory, head: int, o: seq<int>, start: int, brk: int, ts: seq<Tile>, x: int,
                     a: int, b: int)
    requires HeapOK(m, head, o, start, brk, ts) && 0 <= x < |ts|
    requires Frame(m, m', a, b, []) && Payload(ts[x]) <= a <= b <= Footer(ts[x])
    ensures Linked(m'.words, head, o) && Sorted(m'.words, o)
  {
    hide Linked, Sorted, CellsOK;
    HeadersAround(o, start, brk, ts, x);
    ListElsewhere(m, m', head, o, a, b);
  }

  lemma PayloadMaps(m: Memory, m': Memory, start: int, brk: int, ts: seq<Tile>, mp: seq<Tile>, x: int, a: int, b: int)
    requires Tiled(start, brk, ts) && MappedOK(m, start, brk, mp) && 0 <= x < |ts|
    requires Frame(m, m', a, b, []) && Payload(ts[x]) <= a <= b <= Footer(ts[x])
    ensures MappedOK(m', start, brk, mp)
    ensures forall i :: 0 <= i < |mp| ==> BytesKept(m, m', Payload(mp[i]), mp[i].size)
  {
  }

  /** A change inside the payload of mapped block x. */
  lemma MappingWrite(m: Memory, m': Memory, head: int, o: seq<int>, start: int, brk: int, ts: seq<Tile>, mp: seq<Tile>,
                     x: int, a: int, b: int)
    requires HeapOK(m, head, o, start, brk, ts) && MappedOK(m, start, brk, mp) && 0 <= x < |mp|
    requires Frame(m, m', a, b, []) && Payload(mp[x]) <= a <= b <= MapEnd(mp[x])
    ensures HeapOK(m', head, o, start, brk, ts) && MappedOK(m', start, brk, mp) && OthersKept(m, m', ts, mp, -1, x)
  {
    hide HeapOK, BytesKept;
    if a < b {
      HeapElsewhere(m, m', head, o, start, brk, ts, a, b);
    } else {
      FrameEmpty(m, m', a, b);
      HeapElsewhere(m, m', head, o, start, brk, ts, brk, brk);
    }
    forall i | 0 <= i < |mp|
      ensures Records(m'.words, mp[i].addr, mp[i]) && (i != x ==> BytesKept(m, m', Payload(mp[i]), mp[i].size))
    {
      if i == x {
        assert WordClear(mp[i].addr, a, b, []) && WordClear(mp[i].addr + 8, a, b, []);
      } else {
        MapKept(m, m', start, brk, mp[i], a, b, []);
      }
    }
  }

  lemma FrameEmpty(m: Memory, m': Memory, a: int, b: int)
    requires Frame(m, m', a, b, []) && b <= a
    ensures forall c :: Frame(m, m', c, c, [])
  {
  }

  lemma MovedFrame(m: Memory, m': Memory, dst: int, src: int, n: int)
    requires Moved(m, m', dst, src, n) && 0 <= n
    ensures Frame(m, m', dst, dst + n, []) && BytesMoved(m, m', src, dst, n)
  {
  }

  /** After these calls the wilderness pointer names no block: the merge took the last block
      without looking (cases d and e), and the cut did not by chance restore it. */
  ghost predicate Forgotten(ts: seq<Tile>, k: int, way: Way, size: int, request: nat) {
    && WayFits(ts, k, way) && (way.Right? || way.Both?) && k + 2 == |ts|
    && !(way.Both? && Trims(Target(ts, k, way, size), request) && request == ts[k - 1].size + ts[k].size + 2 * SOM)
  }

  lemma TargetAt(ts: seq<Tile>, k: int, way: Way, size: int)
    requires WayFits(ts, k, way)
    ensures var r := Resized(ts, k, way, size); var i := From(way, k);
      |r| == |ts| - (To(way, k) - i) + 1 && r[i] == Target(ts, k, way, size)
  {
  }

  lemma LastCut(start: int, brk: int, ts: seq<Tile>, k: int, size: nat)
    requires Tiled(start, brk, ts) && 0 <= k == |ts| - 1 && ts[k].size >= size + 2 * SOM
    ensures var s := SplitAt(ts, k, size); s != [] && s[|s| - 1].addr == HighPart(ts[k], size).addr
    ensures !FreeRight(ts, k)
  {
  }

  lemma RegrowWilderness(start: int, brk: int, brk2: int, ts: seq<Tile>, k: int, size: int, request: nat, w: int)
    requires Tiled(start, brk, ts) && WildOK(ts, w) && NoFreePair(ts) && 0 <= k < |ts| && !ts[k].free
    requires size > ts[k].size && request > ts[k].size && WayOf(ts, k, size, w) != Alone
    requires WayFits(ts, k, WayOf(ts, k, size, w)) && Tiled(start, brk2, Resized(ts, k, WayOf(ts, k, size, w), size))
    requires Target(ts, k, WayOf(ts, k, size, w), size).size >= request
    ensures var way := WayOf(ts, k, size, w);
      var ts1, w1, i := Resized(ts, k, way, size), WildernessAfter(ts, k, way, w), From(way, k);
      && i < |ts1|
      && (WildOK(Trimmed(ts1, i, request), TrimWild(ts1, i, request, w1)) <==> !Forgotten(ts, k, way, size, request))
      && (Forgotten(ts, k, way, size, request) ==> TrimWild(ts1, i, request, w1) == w)
  {
    hide Tiled, NoFreePair, WildOK, Target, Resized, SplitAt, SplitWild, WayOf, JoinSize, Splice;
    var way := WayOf(ts, k, size, w);
    var ts1, w1, i := Resized(ts, k, way, size), WildernessAfter(ts, k, way, w), From(way, k);
    TargetAt(ts, k, way, size);
    WayNoPair(ts, k, way, size);
    WayWilderness(start, brk, ts, k, size, w);
    if WildOK(ts1, w1) {
      if Trims(ts1[i], request) { SplitKeepsInvariant(start, brk2, ts1, i, request, w1); }
    } else {
      DanglingCut(start, brk, brk2, ts, k, size, request, w);
    }
  }

  lemma DanglingCut(start: int, brk: int, brk2: int, ts: seq<Tile>, k: int, size: int, request: nat, w: int)
    requires Tiled(start, brk, ts) && WildOK(ts, w) && 0 <= k < |ts| && !ts[k].free && request > ts[k].size
    requires size > ts[k].size && WayOf(ts, k, size, w) != Alone && WayFits(ts, k, WayOf(ts, k, size, w))
    requires Tiled(start, brk2, Resized(ts, k, WayOf(ts, k, size, w), size))
    requires !WildOK(Resized(ts, k, WayOf(ts, k, size, w), size), WildernessAfter(ts, k, WayOf(ts, k, size, w), w))
    requires WayOf(ts, k, size, w).Right? || WayOf(ts, k, size, w).Both?
    requires k + 2 == |ts|
    ensures var way := WayOf(ts, k, size, w);
      var ts1, w1, i := Resized(ts, k, way, size), WildernessAfter(ts, k, way, w), From(way, k);
      && i < |ts1|
      && (WildOK(Trimmed(ts1, i, request), TrimWild(ts1, i, request, w1)) <==> !Forgotten(ts, k, way, size, request))
      && (Forgotten(ts, k, way, size, request) ==> TrimWild(ts1, i, request, w1) == w)
  {
    hide Tiled, Resized, SplitAt, WayOf, JoinSize, Splice;
    var way := WayOf(ts, k, size, w);
    var ts1, w1, i := Resized(ts, k, way, size), WildernessAfter(ts, k, way, w), From(way, k);
    TargetAt(ts, k, way, size);
    WayShape(start, brk, ts, k, size, w);
    Range(start, brk, ts, k, k + 1);
    assert w1 == ts[k + 1].addr == ts[k].addr + ts[k].size + 2 * SOM;
    if Trims(ts1[i], request) { LastCut(start, brk2, ts1, i, request); }
  }

  lemma FateIsNoNull(start: int, brk: int, ts: seq<Tile>, k: int, way: Way, size: int)
    requires Tiled(start, brk, ts) && 0 <= k < |ts| && WayFits(ts, k, way)
    ensures Payload(ts[From(way, k)]) > 0 && Ptr(Payload(ts[From(way, k)])) != Ptr(NULL)
  {
    TileBound(start, brk, ts, From(way, k));
  }

  lemma FateTarget(start: int, brk: int, ts: seq<Tile>, k: int, size: int, w: int, mp: seq<Tile>, ker: Kernel)
    requires Tiled(start, brk, ts) && WildOK(ts, w) && Ordered(ts) && 0 <= k < |ts|
    requires Fate(ts, k, size, w, brk, start, mp, ker).Ptr? && Fate(ts, k, size, w, brk, start, mp, ker) != Ptr(NULL)
    ensures WayOf(ts, k, size, w) != Alone && WayFits(ts, k, WayOf(ts, k, size, w))
    ensures Fate(ts, k, size, w, brk, start, mp, ker) == Ptr(Payload(Target(ts, k, WayOf(ts, k, size, w), size)))
  {
    WayFitsAlways(ts, k, size, w);
  }

  lemma TrimKeepsWild(start: int, brk: int, ts: seq<Tile>, k: int, size: nat, w: int)
    requires Tiled(start, brk, ts) && NoFreePair(ts) && WildOK(ts, w) && 0 <= k < |ts|
    ensures WildOK(Trimmed(ts, k, size), TrimWild(ts, k, size, w))
  {
    hide SplitAt, SplitWild;
    if Trims(ts[k], size) { SplitKeepsInvariant(start, brk, ts, k, size, w); }
  }

  /** The mapping that starts at the header in front of p is the live block at p. */
  lemma MapFound(m: Memory, start: int, brk: int, ts: seq<Tile>, mp: seq<Tile>, at: Place, block: int)
    requires Tiled(start, brk, ts) && MappedOK(m, start, brk, mp)
    requires exists j :: 0 <= j < |mp| && mp[j].addr == block
    requires || (at.InHeap? && 0 <= at.k < |ts| && ts[at.k].addr == block)
             || (at.InMap? && 0 <= at.j < |mp| && mp[at.j].addr == block)
    ensures at.InMap? && Records(m.words, block, mp[at.j]) && mp[at.j].size < TWO64
  {
  }

  /** A block that has to move takes no neighbour in, and so does not touch the wilderness. */
  lemma ShortForgetsNothing(start: int, brk: int, ts: seq<Tile>, k: int, size: int, request: nat, w: int)
    requires Tiled(start, brk, ts) && WildOK(ts, w) && Ordered(ts) && 0 <= k < |ts|
    requires Short(ts, k, WayOf(ts, k, size, w), size)
    ensures !Forgotten(ts, k, WayOf(ts, k, size, w), size, request)
  {
    FateNullSteps(start, brk, ts, k, size, w);
  }
}
