/** What the allocator's operations do to the row of blocks, and the facts about one memory
    change that all of them share. */
module HeapSpec {
  import opened Memory
  import opened Tiling
  import opened BlockListModel
  import opened SizeArithmetic

  // Joining the blocks i .. j-1 into one.

  ghost function JoinSize(ts: seq<Tile>, i: int, j: int): nat
    requires 0 <= i < j <= |ts|
    decreases j - i
  {
    if j == i + 1 then ts[i].size else ts[i].size + 2 * SOM + JoinSize(ts, i + 1, j)
  }

  lemma {:induction false} JoinEnd(start: int, brk: int, ts: seq<Tile>, i: int, j: int)
    requires Tiled(start, brk, ts) && 0 <= i < j <= |ts|
    ensures ts[i].addr + JoinSize(ts, i, j) + 2 * SOM == End(ts[j - 1])
    decreases j - i
  {
    if j > i + 1 {
      assert Abut(ts, i);
      JoinEnd(start, brk, ts, i + 1, j);
    }
  }

  ghost predicate FreeLeft(ts: seq<Tile>, k: int) { 0 < k <= |ts| && ts[k - 1].free }

  ghost predicate FreeRight(ts: seq<Tile>, k: int) { 0 <= k < |ts| - 1 && ts[k + 1].free }

  ghost function JoinFrom(ts: seq<Tile>, k: int): int { if FreeLeft(ts, k) then k - 1 else k }

  ghost function JoinTo(ts: seq<Tile>, k: int): int { if FreeRight(ts, k) then k + 2 else k + 1 }

  /** The free block that contains block k once it has been merged with its free neighbours. */
  ghost function Merged(ts: seq<Tile>, k: int): Tile
    requires 0 <= k < |ts|
  {
    Tile(ts[JoinFrom(ts, k)].addr, JoinSize(ts, JoinFrom(ts, k), JoinTo(ts, k)), true)
  }

  ghost function Coalesced(ts: seq<Tile>, k: int): seq<Tile>
    requires 0 <= k < |ts|
  {
    Splice(ts, JoinFrom(ts, k), JoinTo(ts, k), [Merged(ts, k)])
  }

  ghost function SetFlag(ts: seq<Tile>, k: int, free: bool): seq<Tile>
    requires 0 <= k < |ts|
  {
    ts[k := ts[k].(free := free)]
  }

  /** sfree of block k. */
  ghost function Freed(ts: seq<Tile>, k: int): seq<Tile>
    requires 0 <= k < |ts|
  {
    Coalesced(SetFlag(ts, k, true), k)
  }

  ghost predicate FreePair(ts: seq<Tile>, i: int)
    requires 0 <= i < |ts| - 1
  {
    ts[i].free && ts[i + 1].free
  }

  /** No two neighbouring blocks are both free. */
  ghost predicate NoFreePair(ts: seq<Tile>) {
    forall i {:trigger FreePair(ts, i)} :: 0 <= i < |ts| - 1 ==> !FreePair(ts, i)
  }

  /** Freeing a live block leaves no two free neighbours. */
  lemma FreedNoPair(ts: seq<Tile>, k: int)
    requires NoFreePair(ts) && 0 <= k < |ts| && !ts[k].free
    ensures NoFreePair(Freed(ts, k))
  {
    var f := SetFlag(ts, k, true);
    var lo, hi := JoinFrom(f, k), JoinTo(f, k);
    var r := Freed(ts, k);
    assert lo > 0 ==> !f[lo - 1].free by {
      if lo > 0 && lo == k - 1 { assert !FreePair(ts, lo - 1); }
    }
    assert hi < |f| ==> !f[hi].free by {
      if hi < |f| && hi == k + 2 { assert !FreePair(ts, k + 1); }
    }
    forall i {:trigger FreePair(r, i)} | 0 <= i < |r| - 1 ensures !FreePair(r, i) {
      if i + 1 < lo {
        assert !FreePair(ts, i);
      } else if i > lo {
        assert !FreePair(ts, i - 1 + hi - lo);
      }
    }
  }

  // Counters.

  lemma SetFlagTotals(ts: seq<Tile>, k: int)
    requires 0 <= k < |ts| && !ts[k].free
    ensures Totals(SetFlag(ts, k, true)) == Plus(Totals(ts), Stats(0, 1, 0, ts[k].size, 0))
  {
    var t := ts[k].(free := true);
    TotalsSplice(ts, k, k + 1, [t]);
    assert Splice(ts, k, k + 1, [t]) == SetFlag(ts, k, true);
    assert ts[k..k + 1] == [ts[k]];
  }

  lemma JoinTotals(ts: seq<Tile>, i: int, j: int, t: Tile)
    requires 0 <= i < j <= |ts| && j <= i + 3
    ensures Totals(Splice(ts, i, j, [t])) ==
      Plus(Totals(ts), Stats(1 - (j - i), (if t.free then 1 else 0) - Totals(ts[i..j]).freeBlocks,
        t.size - JoinSize(ts, i, j) + 2 * SOM * (j - i - 1),
        (if t.free then t.size else 0) - Totals(ts[i..j]).freeBytes, 2 * SOM * (1 - (j - i))))
  {
    hide Totals, JoinSize, Splice;
    TotalsSplice(ts, i, j, [t]);
    TotalsFew(t, t);
    JoinCount(ts, i, j);
  }

  lemma JoinSizes(ts: seq<Tile>, i: int, j: int)
    requires 0 <= i < j <= |ts| && j <= i + 3
    ensures JoinSize(ts, i, j) ==
      ts[i].size + (if j > i + 1 then 2 * SOM + ts[i + 1].size else 0)
        + (if j > i + 2 then 2 * SOM + ts[i + 2].size else 0)
  {
    if j == i + 3 {
      assert JoinSize(ts, i + 1, j) == ts[i + 1].size + 2 * SOM + ts[i + 2].size;
    }
  }

  lemma JoinCount(ts: seq<Tile>, i: int, j: int)
    requires 0 <= i < j <= |ts| && j <= i + 3
    ensures Totals(ts[i..j]).allocatedBlocks == j - i
    ensures Totals(ts[i..j]).allocatedBytes == JoinSize(ts, i, j) - 2 * SOM * (j - i - 1)
    ensures Totals(ts[i..j]).metadataBytes == 2 * SOM * (j - i)
    ensures Totals(ts[i..j]).freeBlocks ==
      (if ts[i].free then 1 else 0) + (if j > i + 1 && ts[i + 1].free then 1 else 0)
        + (if j > i + 2 && ts[i + 2].free then 1 else 0)
    ensures Totals(ts[i..j]).freeBytes ==
      (if ts[i].free then ts[i].size else 0) + (if j > i + 1 && ts[i + 1].free then ts[i + 1].size else 0)
        + (if j > i + 2 && ts[i + 2].free then ts[i + 2].size else 0)
  {
    var s := ts[i..j];
    assert Totals(s) == Plus(Count(s[0]), Totals(s[1..]));
    if j > i + 1 {
      assert Totals(s[1..]) == Plus(Count(s[1]), Totals(s[2..])) by { assert s[1..][1..] == s[2..]; }
      if j > i + 2 {
        assert Totals(s[2..]) == Plus(Count(s[2]), Totals(s[3..])) by { assert s[2..][1..] == s[3..]; }
      }
    }
    JoinSizes(ts, i, j);
  }

  /** Which block a pointer handed to the allocator belongs to. */
  datatype Place = Nothing | InHeap(k: int) | InMap(j: int)

  // The heap as it lies in memory.

  ghost predicate HeapOK(m: Memory, head: int, o: seq<int>, start: int, brk: int, ts: seq<Tile>) {
    && Tiled(start, brk, ts) && CellsOK(m.words, ts)
    && Apart(o) && Linked(m.words, head, o) && Sorted(m.words, o)
    && multiset(o) == multiset(Addrs(ts))
  }

  ghost predicate Same<T(!new)>(a: map<int, T>, b: map<int, T>, y: int) { y in a ==> y in b && b[y] == a[y] }

  /** The blocks i .. j-1 are being rebuilt: their sizes, flags, footers and payloads may be
      anything, but they are still linked, and the rest of the heap is in order. */
  ghost predicate Torn(m: Memory, head: int, o: seq<int>, start: int, ts: seq<Tile>, i: int, j: int) {
    && 0 <= i < j <= |ts| && Tiled(start, End(ts[|ts| - 1]), ts)
    && CellsOK(m.words, ts[..i]) && CellsOK(m.words, ts[j..])
    && Apart(o) && Linked(m.words, head, o) && multiset(o) == multiset(Addrs(ts))
    && SortedBut(m.words, o, set x | i <= x < j :: ts[x].addr)
  }

  lemma InAddrs(o: seq<int>, ts: seq<Tile>)
    requires multiset(o) == multiset(Addrs(ts))
    ensures forall h :: h in o <==> h in Addrs(ts)
    ensures forall i :: 0 <= i < |ts| ==> ts[i].addr in o
    ensures |o| == |ts|
  {
    forall h ensures h in o <==> h in Addrs(ts) {
      assert h in o <==> h in multiset(o);
      assert h in Addrs(ts) <==> h in multiset(Addrs(ts));
    }
    forall i | 0 <= i < |ts| ensures ts[i].addr in o { assert Addrs(ts)[i] in Addrs(ts); }
    assert |multiset(o)| == |o| && |multiset(Addrs(ts))| == |Addrs(ts)|;
  }

  lemma TornAfter(m0: Memory, m1: Memory, head: int, o: seq<int>, start: int, brk: int, ts: seq<Tile>, i: int, j: int)
    requires HeapOK(m0, head, o, start, brk, ts) && 0 <= i < j <= |ts|
    requires Frame(m0, m1, ts[i].addr, End(ts[j - 1]), [])
    requires forall x :: i <= x < j ==>
      Same(m0.words, m1.words, ts[x].addr + 16) && Same(m0.words, m1.words, ts[x].addr + 24)
    ensures Torn(m1, head, o, start, ts, i, j)
  {
    var lo, hi := ts[i].addr, End(ts[j - 1]);
    forall x | 0 <= x < |ts| && (x < i || j <= x) ensures TileCells(m1.words, ts[x]) {
      KeepsTile(m0, m1, ts, x, lo, hi, []);
    }
    TornLinks(m0, m1, head, o, start, brk, ts, i, j);
  }

  lemma TornLinks(m0: Memory, m1: Memory, head: int, o: seq<int>, start: int, brk: int, ts: seq<Tile>, i: int, j: int)
    requires HeapOK(m0, head, o, start, brk, ts) && 0 <= i < j <= |ts|
    requires Frame(m0, m1, ts[i].addr, End(ts[j - 1]), [])
    requires forall x :: i <= x < j ==>
      Same(m0.words, m1.words, ts[x].addr + 16) && Same(m0.words, m1.words, ts[x].addr + 24)
    ensures Linked(m1.words, head, o) && SortedBut(m1.words, o, set x | i <= x < j :: ts[x].addr)
  {
    hide CellsOK, Tiled, Linked, Sorted, Apart, Frame;
    var gone := set x | i <= x < j :: ts[x].addr;
    InAddrs(o, ts);
    forall h | h in o
      ensures Same(m0.words, m1.words, h + 16) && Same(m0.words, m1.words, h + 24)
      ensures h !in gone ==> Same(m0.words, m1.words, h)
    {
      var x :| 0 <= x < |ts| && Addrs(ts)[x] == h;
      TornNode(m0, m1, start, brk, ts, i, j, x);
      assert i <= x < j ==> ts[x].addr in gone;
    }
    LinkedSame(m0, m1, head, o);
    SortedButSame(m0, m1, o, gone);
  }

  lemma LinkedSame(m0: Memory, m1: Memory, head: int, o: seq<int>)
    requires Linked(m0.words, head, o)
    requires forall h :: h in o ==> Same(m0.words, m1.words, h + 16) && Same(m0.words, m1.words, h + 24)
    ensures Linked(m1.words, head, o)
  {
    forall i | 0 <= i < |o| ensures NodeAt(m1.words, o, i) {
      assert NodeAt(m0.words, o, i) && o[i] in o;
      assert Same(m0.words, m1.words, o[i] + 16) && Same(m0.words, m1.words, o[i] + 24);
    }
  }

  lemma SortedButSame(m0: Memory, m1: Memory, o: seq<int>, gone: set<int>)
    requires Sorted(m0.words, o) && forall h :: h in o && h !in gone ==> Same(m0.words, m1.words, h)
    ensures SortedBut(m1.words, o, gone)
  {
    forall i | 0 <= i < |o| && o[i] !in gone ensures LinkIs(m1.words, o[i], m0.words[o[i]]) {
      assert o[i] in o && Same(m0.words, m1.words, o[i]);
    }
    forall i, j | 0 <= i < j < |o| && o[i] !in gone && o[j] !in gone
      ensures o[i] in m1.words && o[j] in m1.words && Before(m1.words, o[i], o[j])
    {
      assert Before(m0.words, o[i], o[j]);
    }
  }

  lemma TornNode(m0: Memory, m1: Memory, start: int, brk: int, ts: seq<Tile>, i: int, j: int, x: int)
    requires Tiled(start, brk, ts) && 0 <= i < j <= |ts| && 0 <= x < |ts|
    requires Frame(m0, m1, ts[i].addr, End(ts[j - 1]), [])
    requires forall x :: i <= x < j ==>
      Same(m0.words, m1.words, ts[x].addr + 16) && Same(m0.words, m1.words, ts[x].addr + 24)
    ensures Same(m0.words, m1.words, ts[x].addr + 16) && Same(m0.words, m1.words, ts[x].addr + 24)
    ensures x < i || j <= x ==> Same(m0.words, m1.words, ts[x].addr)
  {
  }

  /** The heap is in order again once mid has taken the place of the blocks i .. j-1, in
      memory and in the list. */
  lemma Rebuilt(m1: Memory, m2: Memory, o1: seq<int>, head2: int, o2: seq<int>, start: int, brk1: int, brk: int,
                ts: seq<Tile>, i: int, j: int, mid: seq<Tile>, lo: int, hi: int, hs: seq<int>)
    requires Tiled(start, brk1, ts) && 0 <= i <= j <= |ts| && multiset(o1) == multiset(Addrs(ts))
    requires CellsOK(m1.words, ts[..i]) && CellsOK(m1.words, ts[j..])
    requires Covers(mid, lo, hi) && lo == StartOf(ts, i, brk1)
    requires if j < |ts| then hi == ts[j].addr && brk == brk1 else hi == brk
    requires Frame(m1, m2, lo, hi, hs) && CellsOK(m2.words, mid)
    requires forall h :: h in hs ==> h in o1 || (lo <= h && h + SOM <= hi)
    requires Apart(o2) && Linked(m2.words, head2, o2) && Sorted(m2.words, o2)
    requires multiset(o2) == multiset(o1) - multiset(Addrs(ts[i..j])) + multiset(Addrs(mid))
    ensures HeapOK(m2, head2, o2, start, brk, Splice(ts, i, j, mid))
  {
    hide Linked, Sorted, SortedBut, Apart, Frame;
    SpliceTiled(start, brk1, brk, ts, i, j, mid, lo, hi);
    InAddrs(o1, ts);
    SpliceCells(m1, m2, start, brk1, ts, i, j, mid, lo, hi, hs);
    AddrsSplice(ts, i, j, mid);
  }

  /** A torn heap is in order again once the rebuilt block t is relinked. */
  lemma Mended(m1: Memory, m2: Memory, head1: int, o1: seq<int>, head2: int, o2: seq<int>,
               start: int, brk: int, ts: seq<Tile>, i: int, j: int, t: Tile,
               gone: multiset<int>)
    requires Torn(m1, head1, o1, start, ts, i, j) && t.addr == ts[i].addr
    requires if j < |ts| then End(t) == ts[j].addr && brk == End(ts[|ts| - 1]) else End(t) == brk
    requires Frame(m1, m2, Footer(t), End(t), o1 + [t.addr]) && TileCells(m2.words, t)
    requires Apart(o2) && Linked(m2.words, head2, o2) && Sorted(m2.words, o2)
    requires gone == multiset(Addrs(ts[i..j])) && multiset(o2) == multiset(o1) - gone + multiset{t.addr}
    ensures HeapOK(m2, head2, o2, start, brk, Splice(ts, i, j, [t]))
  {
    hide Linked, Sorted, SortedBut, Apart, Tiled, TileCells, Splice, HeapOK;
    CoversOne(t);
    InAddrs(o1, ts);
    assert Addrs([t]) == [t.addr];
    Rebuilt(m1, m2, o1, head2, o2, start, End(ts[|ts| - 1]), brk, ts, i, j, [t], t.addr, End(t), o1 + [t.addr]);
  }

  // The addresses of one, two or three neighbouring blocks, in whatever order they are named.

  lemma JoinAddrs1(ts: seq<Tile>, i: int, x: int)
    requires 0 <= i < |ts| && x == ts[i].addr
    ensures multiset{x} == multiset(Addrs(ts[i..i + 1]))
  {
  }

  lemma JoinAddrs2(ts: seq<Tile>, i: int, x: int, y: int)
    requires 0 <= i && i + 2 <= |ts| && {x, y} == {ts[i].addr, ts[i + 1].addr} && ts[i].addr != ts[i + 1].addr
    ensures multiset{x, y} == multiset(Addrs(ts[i..i + 2]))
  {
    assert Addrs(ts[i..i + 2]) == [ts[i].addr, ts[i + 1].addr];
    assert x == ts[i].addr || x == ts[i + 1].addr;
    assert y == ts[i].addr || y == ts[i + 1].addr;
    assert ts[i].addr in {x, y} && ts[i + 1].addr in {x, y};
  }

  lemma JoinAddrs3(ts: seq<Tile>, i: int, x: int, y: int, z: int)
    requires 0 <= i && i + 3 <= |ts| && x != y && y != z && x != z
    requires {x, y, z} == {ts[i].addr, ts[i + 1].addr, ts[i + 2].addr}
    ensures multiset{x, y, z} == multiset(Addrs(ts[i..i + 3]))
  {
    var a, b, c := ts[i].addr, ts[i + 1].addr, ts[i + 2].addr;
    assert Addrs(ts[i..i + 3]) == [a, b, c];
    assert x in {a, b, c} && y in {a, b, c} && z in {a, b, c};
    Three(x, y, z, a, b, c);
  }

  lemma Three(x: int, y: int, z: int, a: int, b: int, c: int)
    requires x != y && y != z && x != z
    requires (x == a || x == b || x == c) && (y == a || y == b || y == c) && (z == a || z == b || z == c)
    ensures multiset{x, y, z} == multiset{a, b, c}
  {
  }

  /** Writing the size of a merged block into its header tears the heap there. */
  lemma SizeTears(m0: Memory, m1: Memory, head: int, o: seq<int>, start: int, brk: int, ts: seq<Tile>, i: int, j: int,
                  v: nat)
    requires HeapOK(m0, head, o, start, brk, ts) && 0 <= i < j <= |ts|
    requires Stored(m0, m1, ts[i].addr, v)
    ensures Torn(m1, head, o, start, ts, i, j)
    ensures Records(m1.words, ts[i].addr, Tile(ts[i].addr, v, ts[i].free))
    ensures forall x :: i < x < j ==> Records(m1.words, ts[x].addr, ts[x])
  {
    var a, hi := ts[i].addr, End(ts[j - 1]);
    assert TileCells(m0.words, ts[i]);
    forall x | i < x < j ensures Records(m1.words, ts[x].addr, ts[x]) { assert TileCells(m0.words, ts[x]); }
    assert hi >= End(ts[i]) by { assert i < j - 1 ==> End(ts[i]) <= ts[j - 1].addr; }
    assert Frame(m0, m1, a, hi, []) by {
      assert forall y :: WordClear(y, a, hi, []) ==> y + 8 <= a || a + 8 <= y;
      assert forall y :: ByteClear(y, a, hi, []) ==> y < a || a + 8 <= y;
    }
    TornAfter(m0, m1, head, o, start, brk, ts, i, j);
  }

  /** A merge leaves the payloads of the merged blocks, and the sizes in the headers it
      swallows, as they were. */
  lemma JoinKeeps(m0: Memory, m1: Memory, m2: Memory, start: int, brk: int, ts: seq<Tile>, i: int, j: int, v: int,
                  o: seq<int>, f: int, e: int, x: int)
    requires Tiled(start, brk, ts) && 0 <= i <= x < j <= |ts| && multiset(o) == multiset(Addrs(ts))
    requires Stored(m0, m1, ts[i].addr, v) && Frame(m1, m2, f, e, o + [ts[i].addr]) && Footer(ts[x]) <= f
    ensures BytesKept(m0, m2, Payload(ts[x]), ts[x].size)
    ensures x > i ==> Same(m0.words, m2.words, ts[x].addr)
    ensures e <= End(ts[j - 1]) ==> Frame(m0, m2, ts[i].addr, End(ts[j - 1]), o)
  {
    InAddrs(o, ts);
    var t, hs := ts[x], o + [ts[i].addr];
    assert i < x ==> End(ts[i]) <= t.addr;
    forall h | h in hs ensures h == t.addr || h + SOM <= t.addr || End(t) <= h {
      assert h in Addrs(ts);
      var y :| 0 <= y < |ts| && Addrs(ts)[y] == h;
      assert y != x ==> End(ts[y]) <= t.addr || End(t) <= ts[y].addr;
    }
    assert WordClear(t.addr, f, e, hs);
    forall y | Payload(t) <= y < Payload(t) + t.size ensures ByteClear(y, f, e, hs) {
    }
    if e <= End(ts[j - 1]) {
      JoinFrame(m0, m1, m2, ts[i].addr, End(ts[j - 1]), v, f, e, hs, o);
    }
  }

  lemma JoinFrame(m0: Memory, m1: Memory, m2: Memory, a: int, hi: int, v: int, f: int, e: int, hs: seq<int>,
                  o: seq<int>)
    requires Stored(m0, m1, a, v) && Frame(m1, m2, f, e, hs) && a + 8 <= hi && a <= f && e <= hi
    requires forall h :: h in hs ==> h in o
    ensures Frame(m0, m2, a, hi, o)
  {
  }

  lemma JoinRoom(start: int, ts: seq<Tile>, o: seq<int>, i: int, j: int, t: Tile, gone: set<int>)
    requires 0 <= i < j <= |ts| && Tiled(start, End(ts[|ts| - 1]), ts) && multiset(o) == multiset(Addrs(ts))
    requires t.addr == ts[i].addr && (j < |ts| ==> End(t) <= ts[j].addr)
    requires forall x :: i <= x < j ==> ts[x].addr in gone
    ensures RoomBut(o, t, gone)
  {
    InAddrs(o, ts);
    forall h | h in o && h !in gone ensures h + SOM <= Footer(t) || End(t) <= h {
      var x :| 0 <= x < |ts| && Addrs(ts)[x] == h;
      assert x < i ==> End(ts[x]) <= ts[i].addr;
      assert x > j ==> End(ts[j]) <= ts[x].addr;
    }
  }

  /** What a Rethread needs to know about the torn heap it mends. */
  lemma JoinReady(m: Memory, head: int, o: seq<int>, start: int, ts: seq<Tile>, i: int, j: int, t: Tile, gone: set<int>)
    requires Torn(m, head, o, start, ts, i, j) && j <= i + 3
    requires t.addr == ts[i].addr && (j < |ts| ==> End(t) <= ts[j].addr)
    requires gone == set x | i <= x < j :: ts[x].addr
    ensures Apart(o) && Linked(m.words, head, o) && SortedBut(m.words, o, gone) && RoomBut(o, t, gone)
    ensures forall h :: h in gone ==> h in o
    ensures forall x, y :: i <= x < y < j ==> ts[x].addr < ts[y].addr
  {
    InAddrs(o, ts);
    JoinRoom(start, ts, o, i, j, t, gone);
  }

  lemma TwoOf(ts: seq<Tile>, i: int, x: int, y: int)
    requires 0 <= i && i + 2 <= |ts| && {x, y} == {ts[i].addr, ts[i + 1].addr}
    ensures {x, y} == set k | i <= k < i + 2 :: ts[k].addr
  {
  }

  lemma ThreeOf(ts: seq<Tile>, i: int, x: int, y: int, z: int)
    requires 0 <= i && i + 3 <= |ts| && {x, y, z} == {ts[i].addr, ts[i + 1].addr, ts[i + 2].addr}
    ensures {x, y, z} == set k | i <= k < i + 3 :: ts[k].addr
  {
  }

  // Freeing.

  /** What mergeBlocks adds to the counters: n is the number of blocks that became one. */
  ghost function MergeDelta(ts: seq<Tile>, k: int): Stats
    requires 0 <= k < |ts|
  {
    var n := JoinTo(ts, k) - JoinFrom(ts, k);
    Stats(1 - n, 2 - n, 2 * SOM * (n - 1), ts[k].size + 2 * SOM * (n - 1), 2 * SOM * (1 - n))
  }

  lemma MergeCounts(ts: seq<Tile>, k: int)
    requires 0 <= k < |ts| && ts[k].free
    ensures Plus(Totals(SetFlag(ts, k, false)), MergeDelta(ts, k)) == Totals(Coalesced(ts, k))
  {
    hide Totals, JoinSize;
    var live := SetFlag(ts, k, false);
    SetFlagTotals(live, k);
    assert SetFlag(live, k, true) == ts;
    JoinTotals(ts, JoinFrom(ts, k), JoinTo(ts, k), Merged(ts, k));
    JoinSizes(ts, JoinFrom(ts, k), JoinTo(ts, k));
    JoinCount(ts, JoinFrom(ts, k), JoinTo(ts, k));
  }

  /** Where the wilderness pointer goes when block k is merged with its free neighbours. */
  ghost function WildAfter(ts: seq<Tile>, k: int, w: int): int
    requires 0 <= k < |ts|
  {
    if FreeRight(ts, k) then (if w == ts[k + 1].addr then Merged(ts, k).addr else w)
    else if FreeLeft(ts, k) && w == ts[k].addr then Merged(ts, k).addr
    else w
  }

  /** mergeBlocks on block k, seen from outside: the blocks, the counters, the wilderness and
      the memory afterwards.  The payload of block k itself is still there, and so is a size
      in its old header. */
  ghost predicate MergeResult(m0: Memory, o0: seq<int>, ts: seq<Tile>, w0: int, s0: Stats,
                              m2: Memory, ts2: seq<Tile>, w2: int, s2: Stats, k: int)
    requires 0 <= k < |ts|
  {
    && ts2 == Coalesced(ts, k)
    && s2 == Plus(s0, MergeDelta(ts, k))
    && w2 == WildAfter(ts, k, w0)
    && Frame(m0, m2, Merged(ts, k).addr, End(Merged(ts, k)), o0)
    && BytesKept(m0, m2, Payload(ts[k]), ts[k].size)
    && LinkIs(m2.words, ts[k].addr, if FreeRight(ts, k) && !FreeLeft(ts, k) then Merged(ts, k).size else ts[k].size)
  }

  /** The merged block takes exactly the place of the blocks it is made of. */
  lemma JoinFits(start: int, brk: int, ts: seq<Tile>, i: int, j: int, t: Tile)
    requires Tiled(start, brk, ts) && 0 <= i < j <= |ts| && j <= i + 3
    requires t.addr == ts[i].addr && t.size == JoinSize(ts, i, j)
    ensures End(t) == End(ts[j - 1]) && Footer(t) == Footer(ts[j - 1]) && brk == End(ts[|ts| - 1])
    ensures if j < |ts| then End(t) == ts[j].addr else End(t) == brk
    ensures forall x :: i <= x < j ==> Footer(ts[x]) <= Footer(t)
    ensures forall x, y :: i <= x < y < j ==> ts[x].addr < ts[y].addr
    ensures t.size ==
      ts[i].size + (if j > i + 1 then 2 * SOM + ts[i + 1].size else 0)
        + (if j > i + 2 then 2 * SOM + ts[i + 2].size else 0)
  {
    JoinEnd(start, brk, ts, i, j);
    JoinSizes(ts, i, j);
    assert j < |ts| ==> Abut(ts, j - 1);
  }

  lemma MergedFits(start: int, brk: int, ts: seq<Tile>, k: int, i: int, j: int)
    requires Tiled(start, brk, ts) && 0 <= k < |ts|
    requires i == (if FreeLeft(ts, k) then k - 1 else k) && j == if FreeRight(ts, k) then k + 2 else k + 1
    ensures var t := Merged(ts, k);
      && 0 <= i <= k < j <= |ts| && t.addr == ts[i].addr && t.free
      && Footer(t) == Footer(ts[j - 1]) && End(t) == End(ts[j - 1]) && brk == End(ts[|ts| - 1])
      && (if j < |ts| then End(t) == ts[j].addr else End(t) == brk)
      && (forall x :: i <= x < j ==> Footer(ts[x]) <= Footer(t))
      && (forall x, y :: i <= x < y < j ==> ts[x].addr < ts[y].addr)
      && t.size == ts[i].size + (if j > i + 1 then 2 * SOM + ts[i + 1].size else 0)
                   + (if j > i + 2 then 2 * SOM + ts[i + 2].size else 0)
  {
    hide JoinSize, Tiled;
    JoinFits(start, brk, ts, i, j, Merged(ts, k));
  }

  /** What a merge has done, put together. */
  lemma MergeDone(m0: Memory, o0: seq<int>, ts: seq<Tile>, w0: int, s0: Stats,
                  m2: Memory, ts2: seq<Tile>, w2: int, s2: Stats, k: int, i: int, j: int)
    requires 0 <= k < |ts| && i == (if FreeLeft(ts, k) then k - 1 else k)
    requires j == if FreeRight(ts, k) then k + 2 else k + 1
    requires 0 <= i < j <= |ts| && ts2 == Splice(ts, i, j, [Merged(ts, k)])
    requires s2 == Plus(s0, Stats(1 - (j - i), 2 - (j - i), 2 * SOM * (j - i - 1), ts[k].size + 2 * SOM * (j - i - 1),
                                  2 * SOM * (1 - (j - i))))
    requires var last := if FreeRight(ts, k) then k + 1 else k;
      w2 == if j > i + 1 && w0 == ts[last].addr then ts[i].addr else w0
    requires Frame(m0, m2, ts[i].addr, End(Merged(ts, k)), o0) && BytesKept(m0, m2, Payload(ts[k]), ts[k].size)
    requires LinkIs(m2.words, ts[k].addr, if i == k && j == k + 2 then Merged(ts, k).size else ts[k].size)
    ensures MergeResult(m0, o0, ts, w0, s0, m2, ts2, w2, s2, k)
  {
    hide Splice, JoinSize, Frame, BytesKept, LinkIs;
  }

  /** The parts of HeapOK that concern the blocks i .. j-1. */
  lemma HeapTiles(m: Memory, head: int, o: seq<int>, start: int, brk: int, ts: seq<Tile>, i: int, j: int)
    requires HeapOK(m, head, o, start, brk, ts) && 0 <= i <= j <= |ts|
    ensures Tiled(start, brk, ts) && multiset(o) == multiset(Addrs(ts)) && 0 < start <= brk
    ensures forall x :: i <= x < j ==> Records(m.words, ts[x].addr, ts[x]) && Records(m.words, Footer(ts[x]), ts[x])
  {
  }

  lemma EmptyHeap(m: Memory, start: int)
    requires 0 < start
    ensures HeapOK(m, NULL, [], start, start, [])
  {
    assert Addrs([]) == [];
  }

  lemma NoBlocksAtAll(m: Memory, start: int)
    ensures MappedOK(m, start, start, []) && NoFreePair([]) && WildOK([], NULL)
    ensures Totals([]) == ZERO == Plus(Totals([]), Plus(Totals([]), ZERO))
  {
  }

  lemma TileRecords(ws: map<int, int>, t: Tile)
    ensures TileCells(ws, t) ==> Records(ws, t.addr, t) && Records(ws, Footer(t), t) && LinkIs(ws, t.addr, t.size)
    ensures LinkIs(ws, t.addr, t.size) ==> t.addr in ws && ws[t.addr] == t.size
  {
  }

  /** What address arithmetic from the header of block k finds: the footer of the block before
      it just below, the header of the block after it just past its own footer. */
  lemma Neighbours(m: Memory, head: int, o: seq<int>, start: int, brk: int, ts: seq<Tile>, k: int)
    requires HeapOK(m, head, o, start, brk, ts) && 0 <= k < |ts|
    ensures Records(m.words, ts[k].addr, ts[k])
    ensures k == 0 <==> ts[k].addr == start
    ensures k + 1 == |ts| <==> End(ts[k]) == brk
    ensures k > 0 ==> ts[k].addr - SOM == Footer(ts[k - 1]) && Records(m.words, ts[k].addr - SOM, ts[k - 1])
    ensures k + 1 < |ts| ==> End(ts[k]) == ts[k + 1].addr && Records(m.words, End(ts[k]), ts[k + 1])
  {
    assert TileCells(m.words, ts[k]);
    if k > 0 {
      assert Abut(ts, k - 1) && TileCells(m.words, ts[k - 1]);
    }
    if k + 1 < |ts| {
      assert Abut(ts, k) && TileCells(m.words, ts[k + 1]);
    }
  }

  /** A freed block without free neighbours stays as it is. */
  lemma MergeAlone(ts: seq<Tile>, k: int)
    requires 0 <= k < |ts| && ts[k].free && !FreeLeft(ts, k) && !FreeRight(ts, k)
    ensures Coalesced(ts, k) == ts && Merged(ts, k) == ts[k]
  {
    hide JoinSize, Splice;
    JoinOne(ts, k);
    SpliceSame(ts, k);
  }

  lemma JoinOne(ts: seq<Tile>, i: int)
    requires 0 <= i < |ts|
    ensures JoinSize(ts, i, i + 1) == ts[i].size
  {
  }

  lemma SpliceSame(ts: seq<Tile>, k: int)
    requires 0 <= k < |ts|
    ensures Splice(ts, k, k + 1, [ts[k]]) == ts
  {
  }

  /** Links and sizes survive a change that leaves their words alone. */
  lemma LinksSame(m0: Memory, m1: Memory, head: int, o: seq<int>)
    requires Linked(m0.words, head, o) && Sorted(m0.words, o)
    requires forall h :: h in o ==>
      Same(m0.words, m1.words, h) && Same(m0.words, m1.words, h + 16) && Same(m0.words, m1.words, h + 24)
    ensures Linked(m1.words, head, o) && Sorted(m1.words, o)
  {
    LinkedSame(m0, m1, head, o);
    forall i | 0 <= i < |o| ensures LinkIs(m1.words, o[i], m0.words[o[i]]) {
      assert o[i] in o && Same(m0.words, m1.words, o[i]);
    }
    SizesKept(m0.words, m1.words, o);
  }

  /** Writing is_free into the header and the footer of block k. */
  lemma FlagSet(m0: Memory, m1: Memory, m2: Memory, head: int, o: seq<int>, start: int, brk: int, ts: seq<Tile>,
                k: int, free: bool)
    requires HeapOK(m0, head, o, start, brk, ts) && 0 <= k < |ts|
    requires Stored(m0, m1, ts[k].addr + 8, Flag(free)) && Stored(m1, m2, Footer(ts[k]) + 8, Flag(free))
    ensures HeapOK(m2, head, o, start, brk, SetFlag(ts, k, free))
    ensures Frame(m0, m2, ts[k].addr, End(ts[k]), []) && BytesKept(m0, m2, Payload(ts[k]), ts[k].size)
  {
    hide Stored, Frame, BytesKept, TileCells, Tiled, Linked, Sorted, Apart;
    assert TileCells(m0.words, ts[k]);
    FlagFrame(m0, m1, m2, ts[k], free);
    FlagTiled(start, brk, ts, k, free);
    assert Addrs(SetFlag(ts, k, free)) == Addrs(ts);
    forall x | 0 <= x < |ts| && x != k ensures TileCells(m2.words, ts[x]) {
      OrderedOf(start, brk, ts);
      KeepsTile(m0, m2, ts, x, ts[k].addr, End(ts[k]), []);
    }
    FlagLinks(m0, m1, m2, head, o, start, brk, ts, k, free);
  }

  lemma OrderedOf(start: int, brk: int, ts: seq<Tile>)
    requires Tiled(start, brk, ts)
    ensures Ordered(ts)
  {
  }

  lemma FlagTiled(start: int, brk: int, ts: seq<Tile>, k: int, free: bool)
    requires Tiled(start, brk, ts) && 0 <= k < |ts|
    ensures Tiled(start, brk, SetFlag(ts, k, free))
  {
    var ts2 := SetFlag(ts, k, free);
    forall x {:trigger Abut(ts2, x)} | 0 <= x < |ts2| - 1 ensures Abut(ts2, x) { assert Abut(ts, x); }
  }

  lemma FlagFrame(m0: Memory, m1: Memory, m2: Memory, t: Tile, free: bool)
    requires Stored(m0, m1, t.addr + 8, Flag(free)) && Stored(m1, m2, Footer(t) + 8, Flag(free))
    ensures Frame(m0, m2, t.addr, End(t), []) && BytesKept(m0, m2, Payload(t), t.size)
    ensures TileCells(m0.words, t) ==> TileCells(m2.words, t.(free := free))
  {
  }

  lemma FlagLinks(m0: Memory, m1: Memory, m2: Memory, head: int, o: seq<int>, start: int, brk: int, ts: seq<Tile>,
                  k: int, free: bool)
    requires HeapOK(m0, head, o, start, brk, ts) && 0 <= k < |ts|
    requires Stored(m0, m1, ts[k].addr + 8, Flag(free)) && Stored(m1, m2, Footer(ts[k]) + 8, Flag(free))
    ensures Linked(m2.words, head, o) && Sorted(m2.words, o)
  {
    hide Linked, Sorted, CellsOK;
    InAddrs(o, ts);
    forall h | h in o
      ensures Same(m0.words, m2.words, h) && Same(m0.words, m2.words, h + 16) && Same(m0.words, m2.words, h + 24)
    {
      var x :| 0 <= x < |ts| && Addrs(ts)[x] == h;
      assert x < k ==> End(ts[x]) <= ts[k].addr;
      assert x > k ==> End(ts[k]) <= ts[x].addr;
    }
    LinksSame(m0, m2, head, o);
  }

  // Blocks the kernel mapped elsewhere.

  function MapEnd(t: Tile): int { t.addr + SOM + t.size }

  ghost predicate MappedOK(m: Memory, start: int, brk: int, mp: seq<Tile>) {
    && (forall i :: 0 <= i < |mp| ==>
          && !mp[i].free && mp[i].size >= MMAP_THRESHOLD && 0 < mp[i].addr && Records(m.words, mp[i].addr, mp[i])
          && (MapEnd(mp[i]) <= start || brk <= mp[i].addr) && MapEnd(mp[i]) < TWO64)
    && forall i, j :: 0 <= i < j < |mp| ==> MapEnd(mp[i]) <= mp[j].addr || MapEnd(mp[j]) <= mp[i].addr
  }

  ghost predicate HeadersWithin(hs: seq<int>, start: int, brk: int) {
    forall h :: h in hs ==> start <= h && h + SOM <= brk
  }

  lemma HeadersInHeap(o: seq<int>, start: int, brk: int, ts: seq<Tile>)
    requires Tiled(start, brk, ts) && multiset(o) == multiset(Addrs(ts))
    ensures HeadersWithin(o, start, brk)
  {
    InAddrs(o, ts);
    forall h | h in o ensures start <= h && h + SOM <= brk {
      var x :| 0 <= x < |ts| && Addrs(ts)[x] == h;
      EndsBefore(start, brk, ts, x);
    }
  }

  /** A change outside [start, brk) leaves the heap alone. */
  lemma HeapElsewhere(m: Memory, m': Memory, head: int, o: seq<int>, start: int, brk: int, ts: seq<Tile>, lo: int,
                      hi: int)
    requires HeapOK(m, head, o, start, brk, ts) && Frame(m, m', lo, hi, []) && (hi <= start || brk <= lo)
    ensures HeapOK(m', head, o, start, brk, ts)
    ensures forall i :: 0 <= i < |ts| ==> BytesKept(m, m', Payload(ts[i]), ts[i].size)
  {
    hide Linked, Sorted;
    forall i | 0 <= i < |ts| ensures TileCells(m'.words, ts[i]) && BytesKept(m, m', Payload(ts[i]), ts[i].size) {
      EndsBefore(start, brk, ts, i);
      KeepsTile(m, m', ts, i, lo, hi, []);
    }
    HeadersInHeap(o, start, brk, ts);
    forall h | h in o ensures Same(m.words, m'.words, h) && Same(m.words, m'.words, h + 16)
      && Same(m.words, m'.words, h + 24) {
      assert WordClear(h, lo, hi, []) && WordClear(h + 16, lo, hi, []) && WordClear(h + 24, lo, hi, []);
    }
    LinksSame(m, m', head, o);
  }

  // The whole invariant.

  ghost predicate WildOK(ts: seq<Tile>, w: int) {
    w == if ts == [] then NULL else ts[|ts| - 1].addr
  }

  /** All payloads but those of heap block k and mapped block j keep their bytes. */
  ghost predicate OthersKept(m: Memory, m': Memory, ts: seq<Tile>, mp: seq<Tile>, k: int, j: int) {
    && (forall i :: 0 <= i < |ts| && i != k && !ts[i].free ==> BytesKept(m, m', Payload(ts[i]), ts[i].size))
    && (forall i :: 0 <= i < |mp| && i != j ==> BytesKept(m, m', Payload(mp[i]), mp[i].size))
  }

  /** Skipping a block that is not live skips nothing. */
  lemma OthersAll(m: Memory, m': Memory, ts: seq<Tile>, mp: seq<Tile>, k: int)
    requires OthersKept(m, m', ts, mp, k, -1) && (0 <= k < |ts| ==> ts[k].free)
    ensures OthersKept(m, m', ts, mp, -1, -1)
  {
  }

  /** A change within blocks i .. j-1 of the heap keeps all payloads outside them. */
  lemma OthersOutside(m: Memory, m': Memory, o: seq<int>, start: int, brk: int, ts: seq<Tile>, mp: seq<Tile>,
                      i: int, j: int, lo: int, hi: int, hs: seq<int>)
    requires Tiled(start, brk, ts) && multiset(o) == multiset(Addrs(ts)) && 0 <= i <= j <= |ts|
    requires MappedOK(m, start, brk, mp) && Frame(m, m', lo, hi, hs)
    requires lo == StartOf(ts, i, brk) && (j < |ts| ==> hi <= ts[j].addr)
    requires forall h :: h in hs ==> h in o || (lo <= h && h + SOM <= hi)
    requires forall x :: 0 <= x < |mp| ==> MapEnd(mp[x]) <= lo || hi <= mp[x].addr
    ensures forall x :: 0 <= x < |ts| && (x < i || j <= x) ==> BytesKept(m, m', Payload(ts[x]), ts[x].size)
    ensures forall x :: 0 <= x < |mp| ==> BytesKept(m, m', Payload(mp[x]), mp[x].size)
    ensures MappedOK(m', start, brk, mp)
  {
    hide BytesKept, Frame, MappedOK, Records, Tiled, Ordered;
    EndsBefore(start, brk, ts, i);
    OrderedOf(start, brk, ts);
    InAddrs(o, ts);
    HeadersInHeap(o, start, brk, ts);
    forall x | 0 <= x < |ts| && (x < i || j <= x) ensures BytesKept(m, m', Payload(ts[x]), ts[x].size) {
      if x >= j { WithinRow(start, brk, ts, j, x); }
      KeepsTile(m, m', ts, x, lo, hi, hs);
    }
    MappedOutside(m, start, brk, mp);
    forall x | 0 <= x < |mp|
      ensures Records(m'.words, mp[x].addr, mp[x]) && BytesKept(m, m', Payload(mp[x]), mp[x].size)
    {
      MapKept(m, m', start, brk, mp[x], lo, hi, hs);
    }
    MappedAgain(m, m', start, brk, brk, mp);
  }

  /** Mappings stay in order while their headers do and the break stays clear of them. */
  lemma MappedAgain(m: Memory, m': Memory, start: int, brk: int, brk2: int, mp: seq<Tile>)
    requires MappedOK(m, start, brk, mp)
    requires forall i :: 0 <= i < |mp| ==> Records(m'.words, mp[i].addr, mp[i])
    requires forall i :: 0 <= i < |mp| ==> MapEnd(mp[i]) <= start || brk2 <= mp[i].addr
    ensures MappedOK(m', start, brk2, mp)
  {
    hide Records;
  }

  lemma MapKept(m: Memory, m': Memory, start: int, brk: int, t: Tile, lo: int, hi: int, hs: seq<int>)
    requires Records(m.words, t.addr, t) && Frame(m, m', lo, hi, hs)
    requires MapEnd(t) <= start || brk <= t.addr
    requires MapEnd(t) <= lo || hi <= t.addr
    requires forall h :: h in hs ==> (start <= h && h + SOM <= brk) || (lo <= h && h + SOM <= hi)
    ensures Records(m'.words, t.addr, t) && BytesKept(m, m', Payload(t), t.size)
  {
  }

  lemma FreeKeepsInvariant(start: int, brk: int, ts: seq<Tile>, k: int, w: int)
    requires Tiled(start, brk, ts) && NoFreePair(ts) && WildOK(ts, w) && 0 <= k < |ts| && !ts[k].free
    ensures NoFreePair(Freed(ts, k)) && WildOK(Freed(ts, k), WildAfter(SetFlag(ts, k, true), k, w))
    ensures Plus(Totals(ts), MergeDelta(SetFlag(ts, k, true), k)) == Totals(Freed(ts, k))
  {
    FreedNoPair(ts, k);
    FreedCounts(ts, k);
    FreedWild(start, brk, ts, k, w);
  }

  lemma FreedIs(ts: seq<Tile>, k: int)
    requires 0 <= k < |ts|
    ensures Freed(ts, k) == Coalesced(SetFlag(ts, k, true), k)
  {
  }

  lemma FreedCounts(ts: seq<Tile>, k: int)
    requires 0 <= k < |ts| && !ts[k].free
    ensures Plus(Totals(ts), MergeDelta(SetFlag(ts, k, true), k)) == Totals(Freed(ts, k))
  {
    hide Totals, MergeDelta, Coalesced;
    var f := SetFlag(ts, k, true);
    MergeCounts(f, k);
    assert SetFlag(f, k, false) == ts;
  }

  lemma FreedWild(start: int, brk: int, ts: seq<Tile>, k: int, w: int)
    requires Tiled(start, brk, ts) && WildOK(ts, w) && 0 <= k < |ts| && !ts[k].free
    ensures WildOK(Freed(ts, k), WildAfter(SetFlag(ts, k, true), k, w))
  {
  }

  /** The merged block lies where the blocks it is made of were. */
  lemma MergedSpan(start: int, brk: int, ts: seq<Tile>, k: int)
    requires Tiled(start, brk, ts) && 0 <= k < |ts|
    ensures var f := SetFlag(ts, k, true); var t, i, j := Merged(f, k), JoinFrom(f, k), JoinTo(f, k);
      && 0 <= i <= k < j <= |ts| && t.addr == StartOf(ts, i, brk)
      && (if j < |ts| then End(t) == ts[j].addr else End(t) == brk)
      && start <= t.addr <= ts[k].addr && End(ts[k]) <= End(t) <= brk
  {
    hide Merged, JoinFrom, JoinTo, Tiled;
    FlagTiled(start, brk, ts, k, true);
    MergedEnds(start, brk, SetFlag(ts, k, true), k);
  }

  lemma MergedEnds(start: int, brk: int, ts: seq<Tile>, k: int)
    requires Tiled(start, brk, ts) && 0 <= k < |ts|
    ensures var t, i, j := Merged(ts, k), JoinFrom(ts, k), JoinTo(ts, k);
      && 0 <= i <= k < j <= |ts| && t.addr == StartOf(ts, i, brk)
      && (if j < |ts| then End(t) == ts[j].addr else End(t) == brk)
      && start <= t.addr <= ts[k].addr && End(ts[k]) <= End(t) <= brk
  {
    hide JoinSize, Tiled;
    var t, i, j := Merged(ts, k), JoinFrom(ts, k), JoinTo(ts, k);
    JoinFits(start, brk, ts, i, j, t);
    EndsBefore(start, brk, ts, i);
    EndsBefore(start, brk, ts, j);
    WithinRow(start, brk, ts, i, k);
    WithinRow(start, brk, ts, k, j - 1);
  }

  lemma WithinRow(start: int, brk: int, ts: seq<Tile>, i: int, k: int)
    requires Tiled(start, brk, ts) && 0 <= i <= k < |ts|
    ensures ts[i].addr <= ts[k].addr && End(ts[i]) <= End(ts[k])
  {
  }

  /** The flags, then the merge: what sfree of block k changes in memory. */
  lemma FreeFrame(m0: Memory, m1: Memory, m2: Memory, o: seq<int>, start: int, brk: int, ts: seq<Tile>, mp: seq<Tile>,
                  k: int)
    requires Tiled(start, brk, ts) && multiset(o) == multiset(Addrs(ts)) && 0 <= k < |ts|
    requires MappedOK(m0, start, brk, mp)
    requires Frame(m0, m1, ts[k].addr, End(ts[k]), []) && BytesKept(m0, m1, Payload(ts[k]), ts[k].size)
    requires var t := Merged(SetFlag(ts, k, true), k); Frame(m1, m2, t.addr, End(t), o)
    requires BytesKept(m1, m2, Payload(ts[k]), ts[k].size)
    ensures var t := Merged(SetFlag(ts, k, true), k); Frame(m0, m2, t.addr, End(t), o)
    ensures BytesKept(m0, m2, Payload(ts[k]), ts[k].size)
    ensures OthersKept(m0, m2, ts, mp, -1, -1) && MappedOK(m2, start, brk, mp)
  {
    hide MappedOK, BytesKept, Frame, Tiled, Merged;
    var f := SetFlag(ts, k, true);
    var t, i, j := Merged(f, k), JoinFrom(f, k), JoinTo(f, k);
    MergedSpan(start, brk, ts, k);
    FrameTrans(m0, m1, m2, ts[k].addr, End(ts[k]), [], t.addr, End(t), o, t.addr, End(t), o);
    assert BytesKept(m0, m2, Payload(ts[k]), ts[k].size) by { BytesTrans(m0, m1, m2, Payload(ts[k]), ts[k].size); }
    MappedOutside(m0, start, brk, mp);
    OthersOutside(m0, m2, o, start, brk, ts, mp, i, j, t.addr, End(t), o);
  }

  lemma BytesTrans(m0: Memory, m1: Memory, m2: Memory, a: int, n: int)
    requires BytesKept(m0, m1, a, n) && BytesKept(m1, m2, a, n)
    ensures BytesKept(m0, m2, a, n)
  {
  }

  lemma MappedOutside(m: Memory, start: int, brk: int, mp: seq<Tile>)
    requires MappedOK(m, start, brk, mp)
    ensures forall i :: 0 <= i < |mp| ==>
      Records(m.words, mp[i].addr, mp[i]) && (MapEnd(mp[i]) <= start || brk <= mp[i].addr)
  {
  }

  function Drop<T>(s: seq<T>, j: int): seq<T>
    requires 0 <= j < |s|
  {
    s[..j] + s[j + 1..]
  }

  lemma MapDropped(m: Memory, m': Memory, start: int, brk: int, mp: seq<Tile>, j: int)
    requires MappedOK(m, start, brk, mp) && 0 <= j < |mp| && Frame(m, m', mp[j].addr, MapEnd(mp[j]), [])
    ensures MappedOK(m', start, brk, Drop(mp, j))
    ensures forall i :: 0 <= i < |mp| && i != j ==>
      mp[i].addr != mp[j].addr && BytesKept(m, m', Payload(mp[i]), mp[i].size)
  {
    hide Frame, BytesKept, MappedOK, Records, Drop;
    MapsApart(m, start, brk, mp, j);
    MappedOutside(m, start, brk, mp);
    forall i | 0 <= i < |mp| && i != j
      ensures Records(m'.words, mp[i].addr, mp[i]) && BytesKept(m, m', Payload(mp[i]), mp[i].size)
    {
      MapKept(m, m', start, brk, mp[i], mp[j].addr, MapEnd(mp[j]), []);
    }
    forall x | 0 <= x < |Drop(mp, j)| ensures Records(m'.words, Drop(mp, j)[x].addr, Drop(mp, j)[x]) {
      DropAt(mp, j, x);
    }
    MappedFewer(m, start, brk, mp, j);
    MappedOutside(m, start, brk, Drop(mp, j));
    MappedAgain(m, m', start, brk, brk, Drop(mp, j));
  }

  lemma DropAt<T>(s: seq<T>, j: int, x: int)
    requires 0 <= j < |s|
    ensures |Drop(s, j)| == |s| - 1
    ensures 0 <= x < |s| - 1 ==> Drop(s, j)[x] == s[if x < j then x else x + 1]
  {
  }

  lemma MapsApart(m: Memory, start: int, brk: int, mp: seq<Tile>, j: int)
    requires MappedOK(m, start, brk, mp) && 0 <= j < |mp|
    ensures forall i :: 0 <= i < |mp| && i != j ==>
      mp[i].addr != mp[j].addr && (MapEnd(mp[i]) <= mp[j].addr || MapEnd(mp[j]) <= mp[i].addr)
    ensures MapEnd(mp[j]) <= start || brk <= mp[j].addr
  {
    hide Records;
  }

  lemma MappedFewer(m: Memory, start: int, brk: int, mp: seq<Tile>, j: int)
    requires MappedOK(m, start, brk, mp) && 0 <= j < |mp|
    ensures MappedOK(m, start, brk, Drop(mp, j))
  {
    hide Records, Drop;
    var r := Drop(mp, j);
    DropAt(mp, j, 0);
    forall x | 0 <= x < |r| ensures r[x] == mp[if x < j then x else x + 1] { DropAt(mp, j, x); }
  }

  lemma MapTotals(mp: seq<Tile>, j: int)
    requires 0 <= j < |mp| && !mp[j].free
    ensures Totals(mp) == Plus(Totals(Drop(mp, j)), Stats(1, 0, mp[j].size, 0, 2 * SOM))
  {
    TotalsSplice(mp, j, j + 1, []);
    assert Splice(mp, j, j + 1, []) == Drop(mp, j);
    assert mp[j..j + 1] == [mp[j]];
  }

  lemma StoredThenFrame(m0: Memory, m1: Memory, m2: Memory, a: int, v: int, lo: int, hi: int)
    requires Stored(m0, m1, a, v) && Frame(m1, m2, lo, hi, []) && lo <= a && a + 8 <= hi
    ensures Frame(m0, m2, lo, hi, [])
  {
  }

  // Splitting.

  lemma KeepsRecord(m: Memory, m': Memory, t: Tile, lo: int, hi: int, hs: seq<int>)
    requires Frame(m, m', lo, hi, hs) && (hi <= lo || t.addr + SOM <= lo || hi <= t.addr)
    requires forall h :: h in hs ==> h == t.addr || h + SOM <= t.addr || t.addr + SOM <= h
    ensures Records(m.words, t.addr, t) ==> Records(m'.words, t.addr, t)
  {
  }

  lemma KeepsBytes(m: Memory, m': Memory, a: int, n: int, lo: int, hi: int, hs: seq<int>)
    requires Frame(m, m', lo, hi, hs) && (hi <= lo || a + n <= lo || hi <= a)
    requires forall h :: h in hs ==> h + SOM <= a || a + n <= h + 16
    ensures BytesKept(m, m', a, n)
  {
  }

  ghost function LowPart(t: Tile, size: nat): Tile { Tile(t.addr, size, false) }

  ghost function HighPart(t: Tile, size: nat): Tile
    requires t.size >= size + 2 * SOM
  {
    Tile(t.addr + size + 2 * SOM, t.size - size - 2 * SOM, false)
  }

  lemma PartsAre(t: Tile, size: nat)
    requires t.size >= size + 2 * SOM
    ensures LowPart(t, size) == Tile(t.addr, size, false)
    ensures HighPart(t, size) == Tile(t.addr + size + 2 * SOM, t.size - size - 2 * SOM, false)
    ensures End(LowPart(t, size)) == HighPart(t, size).addr && End(HighPart(t, size)) == End(t)
    ensures t.addr <= Footer(LowPart(t, size)) <= End(t) && Payload(t) + size == Footer(LowPart(t, size))
    ensures size <= t.size
  {
  }

  lemma RecordSays(ws: map<int, int>, a: int, t: Tile)
    requires Records(ws, a, t)
    ensures a in ws && ws[a] == t.size
  {
  }

  /** No link field of a header lies in the payload of block k. */
  lemma PayloadClear(o: seq<int>, start: int, brk: int, ts: seq<Tile>, k: int, n: nat)
    requires Tiled(start, brk, ts) && multiset(o) == multiset(Addrs(ts)) && 0 <= k < |ts| && n <= ts[k].size
    ensures forall h :: h in o ==> h + SOM <= Payload(ts[k]) || Payload(ts[k]) + n <= h + 16
  {
    hide Tiled, Addrs;
    HeadersAround(o, start, brk, ts, k);
  }

  /** The row right after splitBlock has cut block k, before the upper part is freed. */
  ghost function Cut(ts: seq<Tile>, k: int, size: nat): (r: seq<Tile>)
    requires 0 <= k < |ts| && ts[k].size >= size + 2 * SOM
    ensures |r| == |ts| + 1 && r[k] == LowPart(ts[k], size) && r[k + 1] == HighPart(ts[k], size)
    ensures forall x :: 0 <= x < k ==> r[x] == ts[x]
    ensures forall x :: k + 1 < x < |r| ==> r[x] == ts[x - 1]
  {
    Splice(ts, k, k + 1, [LowPart(ts[k], size), HighPart(ts[k], size)])
  }

  /** Where the headers of a heap lie relative to one of its blocks. */
  lemma HeadersAround(o: seq<int>, start: int, brk: int, ts: seq<Tile>, k: int)
    requires Tiled(start, brk, ts) && multiset(o) == multiset(Addrs(ts)) && 0 <= k < |ts|
    ensures ts[k].addr in o && 0 < ts[k].addr
    ensures forall h :: h in o ==> h == ts[k].addr || h + SOM <= ts[k].addr || End(ts[k]) <= h
  {
    InAddrs(o, ts);
    forall h | h in o ensures h == ts[k].addr || h + SOM <= ts[k].addr || End(ts[k]) <= h {
      var x :| 0 <= x < |ts| && Addrs(ts)[x] == h;
      assert x < k ==> End(ts[x]) <= ts[k].addr;
      assert x > k ==> End(ts[k]) <= ts[x].addr;
    }
  }

  /** The four header writes of splitBlock. */
  lemma CutStores(m0: Memory, m1: Memory, m2: Memory, m3: Memory, m4: Memory, t: Tile, size: nat)
    requires t.size >= size + 2 * SOM
    requires var hi := HighPart(t, size); Stored(m0, m1, hi.addr, hi.size) && Stored(m1, m2, hi.addr + 8, 0)
    requires Stored(m2, m3, t.addr, size) && Stored(m3, m4, t.addr + 8, 0)
    ensures Records(m4.words, t.addr, LowPart(t, size)) && Records(m4.words, HighPart(t, size).addr, HighPart(t, size))
    ensures Frame(m0, m4, t.addr, End(t), []) && BytesKept(m0, m4, Payload(t), size)
  {
  }

  /** Between removal and reinsertion: the rest of the list does not see what happens inside
      the removed block. */
  lemma ListElsewhere(m0: Memory, m1: Memory, head: int, o: seq<int>, lo: int, hi: int)
    requires Linked(m0.words, head, o) && Sorted(m0.words, o) && Frame(m0, m1, lo, hi, [])
    requires forall h :: h in o ==> h + SOM <= lo || hi <= h
    ensures Linked(m1.words, head, o) && Sorted(m1.words, o)
  {
    forall h | h in o ensures Same(m0.words, m1.words, h) && Same(m0.words, m1.words, h + 16)
      && Same(m0.words, m1.words, h + 24) {
      assert WordClear(h, lo, hi, []) && WordClear(h + 16, lo, hi, []) && WordClear(h + 24, lo, hi, []);
    }
    LinksSame(m0, m1, head, o);
  }

  lemma HeapList(m: Memory, head: int, o: seq<int>, start: int, brk: int, ts: seq<Tile>)
    requires HeapOK(m, head, o, start, brk, ts)
    ensures Apart(o) && Linked(m.words, head, o) && Sorted(m.words, o) && CellsOK(m.words, ts)
    ensures Tiled(start, brk, ts) && multiset(o) == multiset(Addrs(ts))
  {
  }

  lemma CutHeap(m0: Memory, m2: Memory, head2: int, o0: seq<int>, o2: seq<int>, start: int, brk: int,
                ts: seq<Tile>, k: int, size: nat)
    requires Tiled(start, brk, ts) && CellsOK(m0.words, ts) && multiset(o0) == multiset(Addrs(ts))
    requires 0 <= k < |ts| && ts[k].size >= size + 2 * SOM
    requires Frame(m0, m2, ts[k].addr, End(ts[k]), o0)
    requires TileCells(m2.words, LowPart(ts[k], size)) && TileCells(m2.words, HighPart(ts[k], size))
    requires Apart(o2) && Linked(m2.words, head2, o2) && Sorted(m2.words, o2)
    requires multiset(o2) == multiset(Without(o0, ts[k].addr)) + multiset{ts[k].addr, HighPart(ts[k], size).addr}
    ensures HeapOK(m2, head2, o2, start, brk, Cut(ts, k, size))
  {
    hide Without, Linked, Sorted, Apart, Frame, TileCells, Tiled, Splice, HeapOK;
    var l, h := LowPart(ts[k], size), HighPart(ts[k], size);
    CoversTwo(l, h);
    WithoutMembers(o0, ts[k].addr);
    InAddrs(o0, ts);
    assert ts[k..k + 1] == [ts[k]];
    assert Addrs([ts[k]]) == [ts[k].addr] && Addrs([l, h]) == [l.addr, h.addr];
    PartsFit(start, brk, ts, k);
    Rebuilt(m0, m2, o0, head2, o2, start, brk, brk, ts, k, k + 1, [l, h], l.addr, End(h), o0);
  }

  lemma PartsFit(start: int, brk: int, ts: seq<Tile>, k: int)
    requires Tiled(start, brk, ts) && 0 <= k < |ts|
    ensures if k + 1 < |ts| then End(ts[k]) == ts[k + 1].addr else End(ts[k]) == brk
  {
    assert k + 1 < |ts| ==> Abut(ts, k);
  }

  /** The row after splitBlock has cut block k and freed the upper part. */
  ghost function SplitAt(ts: seq<Tile>, k: int, size: nat): seq<Tile>
    requires 0 <= k < |ts| && ts[k].size >= size + 2 * SOM
  {
    Freed(Cut(ts, k, size), k + 1)
  }

  /** The block after the last one splitBlock touches. */
  ghost function SplitTo(ts: seq<Tile>, k: int): int { if FreeRight(ts, k) then k + 2 else k + 1 }

  ghost function SplitWild(ts: seq<Tile>, k: int, size: nat, w: int): int
    requires 0 <= k < |ts| && ts[k].size >= size + 2 * SOM
  {
    if w == ts[k].addr || (FreeRight(ts, k) && w == ts[k + 1].addr) then HighPart(ts[k], size).addr else w
  }

  /** splitBlock counts as if block k had been free. */
  ghost function SplitDelta(ts: seq<Tile>, k: int, size: nat): Stats
    requires 0 <= k < |ts| && ts[k].size >= size + 2 * SOM
  {
    Plus(Stats(1, -1, -2 * SOM, -(ts[k].size as int), 2 * SOM),
         MergeDelta(SetFlag(Cut(ts, k, size), k + 1, true), k + 1))
  }

  lemma CutTiled(start: int, brk: int, ts: seq<Tile>, k: int, size: nat)
    requires Tiled(start, brk, ts) && 0 <= k < |ts| && ts[k].size >= size + 2 * SOM
    ensures Tiled(start, brk, Cut(ts, k, size))
    ensures k + 1 < |ts| ==> ts[k].addr < ts[k + 1].addr
    ensures StartOf(Cut(ts, k, size), k + 2, brk) == StartOf(ts, k + 1, brk)
    ensures StartOf(Cut(ts, k, size), k + 3, brk) == StartOf(ts, k + 2, brk)
  {
    var l, h := LowPart(ts[k], size), HighPart(ts[k], size);
    CoversTwo(l, h);
    assert k + 1 < |ts| ==> Abut(ts, k);
    SpliceTiled(start, brk, brk, ts, k, k + 1, [l, h], l.addr, End(h));
  }

  /** The row that splitBlock frees its upper part in. */
  lemma CutShape(start: int, brk: int, ts: seq<Tile>, k: int, size: nat)
    requires Tiled(start, brk, ts) && 0 <= k < |ts| && ts[k].size >= size + 2 * SOM
    ensures Tiled(start, brk, Cut(ts, k, size))
    ensures var f := SetFlag(Cut(ts, k, size), k + 1, true); var t := Merged(f, k + 1);
      && !FreeLeft(f, k + 1) && (FreeRight(f, k + 1) <==> FreeRight(ts, k))
      && t.addr == HighPart(ts[k], size).addr && End(t) == StartOf(ts, SplitTo(ts, k), brk)
      && ts[k].addr < t.addr && End(ts[k]) <= End(t)
      && WildAfter(f, k + 1, ts[k].addr) == ts[k].addr
  {
    hide Splice, JoinSize, Tiled;
    CutTiled(start, brk, ts, k, size);
    MergedSpan(start, brk, Cut(ts, k, size), k + 1);
  }

  lemma SplitFrame(m0: Memory, m1: Memory, m2: Memory, o0: seq<int>, o1: seq<int>, start: int, brk: int,
                   ts: seq<Tile>, k: int, size: nat)
    requires Tiled(start, brk, ts) && multiset(o0) == multiset(Addrs(ts))
    requires 0 <= k < |ts| && ts[k].size >= size + 2 * SOM
    requires multiset(o1) == multiset(Addrs(Cut(ts, k, size)))
    requires Frame(m0, m1, ts[k].addr, End(ts[k]), o0)
    requires var t := Merged(SetFlag(Cut(ts, k, size), k + 1, true), k + 1); Frame(m1, m2, t.addr, End(t), o1)
    ensures Frame(m0, m2, ts[k].addr, StartOf(ts, SplitTo(ts, k), brk), o0)
  {
    hide Frame, Tiled, JoinSize, Splice;
    var c := Cut(ts, k, size);
    var t := Merged(SetFlag(c, k + 1, true), k + 1);
    CutShape(start, brk, ts, k, size);
    CutHeaders(o0, o1, ts, k, size);
    FrameTrans(m0, m1, m2, ts[k].addr, End(ts[k]), o0, t.addr, End(t), o1, ts[k].addr,
               StartOf(ts, SplitTo(ts, k), brk), o0);
  }

  lemma CutHeaders(o0: seq<int>, o1: seq<int>, ts: seq<Tile>, k: int, size: nat)
    requires multiset(o0) == multiset(Addrs(ts)) && 0 <= k < |ts| && ts[k].size >= size + 2 * SOM
    requires multiset(o1) == multiset(Addrs(Cut(ts, k, size)))
    ensures forall h :: h in o1 ==> h in o0 || h == HighPart(ts[k], size).addr
  {
    hide Cut, LowPart, HighPart;
    var c := Cut(ts, k, size);
    forall h | h in o1 ensures h in o0 || h == HighPart(ts[k], size).addr {
      var x := HeaderOf(o1, c, h);
      if x != k + 1 {
        CutHeaderAt(ts, k, size, x);
        IsListed(o0, ts, if x <= k then x else x - 1);
      }
    }
  }

  /** A listed header belongs to a block, and the header of a block is listed. */
  lemma HeaderOf(o: seq<int>, ts: seq<Tile>, h: int) returns (x: int)
    requires multiset(o) == multiset(Addrs(ts)) && h in o
    ensures 0 <= x < |ts| && ts[x].addr == h
  {
    InAddrs(o, ts);
    x :| 0 <= x < |ts| && Addrs(ts)[x] == h;
  }

  lemma IsListed(o: seq<int>, ts: seq<Tile>, x: int)
    requires multiset(o) == multiset(Addrs(ts)) && 0 <= x < |ts|
    ensures ts[x].addr in o
  {
    InAddrs(o, ts);
  }

  lemma CutHeaderAt(ts: seq<Tile>, k: int, size: nat, x: int)
    requires 0 <= k < |ts| && ts[k].size >= size + 2 * SOM && 0 <= x <= |ts| && x != k + 1
    ensures Cut(ts, k, size)[x].addr == ts[if x <= k then x else x - 1].addr
  {
    hide Cut;
  }

  /** What splitBlock finds once it has cut block k. */
  lemma CutParts(ts: seq<Tile>, k: int, size: nat)
    requires 0 <= k < |ts| && ts[k].size >= size + 2 * SOM
    ensures var c := Cut(ts, k, size);
      && |c| == |ts| + 1 && !c[k].free && !c[k + 1].free && c[k].addr == ts[k].addr && c[k].size == size
      && c[k + 1] == HighPart(ts[k], size) && c[k + 1].addr + SOM == Payload(c[k + 1])
      && Payload(c[k]) == Payload(ts[k]) && c[k + 1].size == ts[k].size - size - 2 * SOM
  {
  }

  lemma OthersAt(m: Memory, m': Memory, ts: seq<Tile>, mp: seq<Tile>, k: int)
    requires OthersKept(m, m', ts, mp, -1, -1) && 0 <= k < |ts| && !ts[k].free
    ensures BytesKept(m, m', Payload(ts[k]), ts[k].size)
  {
    hide BytesKept;
  }

  /** The cut and the sfree of the upper part, put together. */
  lemma SplitDone(m1: Memory, o1: seq<int>, start: int, brk: int, ts: seq<Tile>, k: int, size: nat, w0: int, s0: Stats,
                  m2: Memory, ts2: seq<Tile>, w2: int, s2: Stats)
    requires Tiled(start, brk, ts) && 0 <= k < |ts| && ts[k].size >= size + 2 * SOM
    requires MergeResult(m1, o1, SetFlag(Cut(ts, k, size), k + 1, true), w0,
                         Plus(s0, Stats(1, -1, -2 * SOM, -(2 * SOM + size + HighPart(ts[k], size).size), 2 * SOM)),
                         m2, ts2, w2, s2, k + 1)
    ensures ts2 == SplitAt(ts, k, size) && s2 == Plus(s0, SplitDelta(ts, k, size))
    ensures SplitWild(ts, k, size, w0) == if ts[k].addr == w2 then HighPart(ts[k], size).addr else w2
    ensures var t := Merged(SetFlag(Cut(ts, k, size), k + 1, true), k + 1); Frame(m1, m2, t.addr, End(t), o1)
  {
    hide Tiled, Frame, BytesKept, LinkIs, MergeDelta, Coalesced, Merged, Cut, JoinSize;
    CutShape(start, brk, ts, k, size);
    CutTiled(start, brk, ts, k, size);
  }

  lemma SplitOthers(m0: Memory, m2: Memory, o0: seq<int>, start: int, brk: int, ts: seq<Tile>, mp: seq<Tile>, k: int)
    requires Tiled(start, brk, ts) && multiset(o0) == multiset(Addrs(ts)) && MappedOK(m0, start, brk, mp)
    requires 0 <= k < |ts|
    requires Frame(m0, m2, ts[k].addr, StartOf(ts, SplitTo(ts, k), brk), o0)
    ensures OthersKept(m0, m2, ts, mp, k, -1) && MappedOK(m2, start, brk, mp)
  {
    hide Frame, BytesKept, MappedOK;
    MappedOutside(m0, start, brk, mp);
    EndsBefore(start, brk, ts, k);
    EndsBefore(start, brk, ts, SplitTo(ts, k));
    OthersOutside(m0, m2, o0, start, brk, ts, mp, k, SplitTo(ts, k), ts[k].addr, StartOf(ts, SplitTo(ts, k), brk), o0);
  }

  lemma CutMapped(m0: Memory, m1: Memory, o0: seq<int>, start: int, brk: int, ts: seq<Tile>, mp: seq<Tile>, k: int)
    requires Tiled(start, brk, ts) && multiset(o0) == multiset(Addrs(ts)) && MappedOK(m0, start, brk, mp)
    requires 0 <= k < |ts|
    requires Frame(m0, m1, ts[k].addr, End(ts[k]), o0)
    ensures MappedOK(m1, start, brk, mp)
  {
    hide Frame, BytesKept;
    EndsBefore(start, brk, ts, k);
    OthersOutside(m0, m1, o0, start, brk, ts, mp, k, k + 1, ts[k].addr, End(ts[k]), o0);
  }

  lemma SplitTotals(start: int, brk: int, ts: seq<Tile>, k: int, size: nat)
    requires Tiled(start, brk, ts) && 0 <= k < |ts| && ts[k].size >= size + 2 * SOM
    ensures Plus(Totals(SetFlag(ts, k, true)), SplitDelta(ts, k, size)) == Totals(SplitAt(ts, k, size))
  {
    hide JoinSize, Merged, Coalesced, Totals, Cut;
    var f, l, h, c := SetFlag(ts, k, true), LowPart(ts[k], size), HighPart(ts[k], size), Cut(ts, k, size);
    assert c == Splice(f, k, k + 1, [l, h]);
    TotalsSplice(f, k, k + 1, [l, h]);
    assert f[k..k + 1] == [f[k]];
    TotalsFew(l, h);
    TotalsFew(f[k], f[k]);
    MergeCounts(SetFlag(c, k + 1, true), k + 1);
    assert SetFlag(SetFlag(c, k + 1, true), k + 1, false) == c;
  }

  lemma CutNoPair(ts: seq<Tile>, k: int, size: nat)
    requires NoFreePair(ts) && 0 <= k < |ts| && ts[k].size >= size + 2 * SOM
    ensures NoFreePair(Cut(ts, k, size))
  {
    hide Cut;
    var c := Cut(ts, k, size);
    forall i {:trigger FreePair(c, i)} | 0 <= i < |c| - 1 ensures !FreePair(c, i) {
      if i < k - 1 {
        assert !FreePair(ts, i);
      } else if i > k + 1 {
        assert !FreePair(ts, i - 1);
      }
    }
  }

  lemma SplitKeepsInvariant(start: int, brk: int, ts: seq<Tile>, k: int, size: nat, w: int)
    requires Tiled(start, brk, ts) && NoFreePair(ts) && WildOK(ts, w)
    requires 0 <= k < |ts| && ts[k].size >= size + 2 * SOM
    ensures NoFreePair(SplitAt(ts, k, size)) && WildOK(SplitAt(ts, k, size), SplitWild(ts, k, size, w))
  {
    hide Cut, Freed, Tiled;
    CutNoPair(ts, k, size);
    CutShape(start, brk, ts, k, size);
    CutWild(start, brk, ts, k, size, w);
    FreeKeepsInvariant(start, brk, Cut(ts, k, size), k + 1, if w == ts[k].addr then HighPart(ts[k], size).addr else w);
  }

  lemma CutWild(start: int, brk: int, ts: seq<Tile>, k: int, size: nat, w: int)
    requires Tiled(start, brk, ts) && WildOK(ts, w) && 0 <= k < |ts| && ts[k].size >= size + 2 * SOM
    ensures var c, w' := Cut(ts, k, size), if w == ts[k].addr then HighPart(ts[k], size).addr else w;
      WildOK(c, w') && WildAfter(SetFlag(c, k + 1, true), k + 1, w') == SplitWild(ts, k, size, w)
  {
  }

  lemma FlagDown(ts: seq<Tile>, k: int, w: int)
    requires 0 <= k < |ts| && ts[k].free && NoFreePair(ts) && WildOK(ts, w)
    ensures NoFreePair(SetFlag(ts, k, false)) && WildOK(SetFlag(ts, k, false), w)
    ensures Plus(Totals(SetFlag(ts, k, false)), Stats(0, 1, 0, ts[k].size, 0)) == Totals(ts)
  {
    var l := SetFlag(ts, k, false);
    SetFlagTotals(l, k);
    assert SetFlag(l, k, true) == ts;
    forall i {:trigger FreePair(l, i)} | 0 <= i < |l| - 1 ensures !FreePair(l, i) { assert !FreePair(ts, i); }
  }
}
