/** The heap seen as a row of blocks in address order, and what allocating, splitting and
    freeing do to that row.  Everything here is pure; the allocator is proved against it. */
module Tiling {
  import opened Memory

  /** A block: header at addr, then size bytes of payload, then the footer. */
  datatype Tile = Tile(addr: int, size: nat, free: bool)

  function Payload(t: Tile): int { t.addr + SOM }

  function Footer(t: Tile): int { t.addr + SOM + t.size }

  function End(t: Tile): int { t.addr + t.size + 2 * SOM }

  lemma PayloadIs(t: Tile)
    ensures Payload(t) == t.addr + SOM
  {
  }

  function Flag(free: bool): int { if free then 1 else 0 }

  ghost predicate Abut(ts: seq<Tile>, i: int)
    requires 0 <= i < |ts| - 1
  {
    End(ts[i]) == ts[i + 1].addr
  }

  /** Each block ends where the next one starts. */
  ghost predicate Contiguous(ts: seq<Tile>) {
    forall i {:trigger Abut(ts, i)} :: 0 <= i < |ts| - 1 ==> Abut(ts, i)
  }

  ghost predicate Ordered(ts: seq<Tile>) {
    forall i, j :: 0 <= i < j < |ts| ==> End(ts[i]) <= ts[j].addr
  }

  /** The blocks fill [start, brk) exactly. */
  ghost predicate Tiled(start: int, brk: int, ts: seq<Tile>) {
    && 0 < start
    && (if ts == [] then brk == start else ts[0].addr == start && End(ts[|ts| - 1]) == brk)
    && Contiguous(ts) && Ordered(ts)
  }

  // Replacing the blocks i .. j-1 by others.

  ghost function Splice(ts: seq<Tile>, i: int, j: int, mid: seq<Tile>): (r: seq<Tile>)
    requires 0 <= i <= j <= |ts|
    ensures |r| == |ts| - (j - i) + |mid|
    ensures forall x {:trigger r[x]} :: 0 <= x < |r| ==>
      r[x] == if x < i then ts[x] else if x < i + |mid| then mid[x - i] else ts[x - |mid| + j - i]
  {
    ts[..i] + mid + ts[j..]
  }

  ghost function StartOf(ts: seq<Tile>, i: int, brk: int): int { if 0 <= i < |ts| then ts[i].addr else brk }

  /** mid covers [lo, hi). */
  ghost predicate Covers(mid: seq<Tile>, lo: int, hi: int) {
    mid != [] && mid[0].addr == lo && End(mid[|mid| - 1]) == hi && Contiguous(mid) && Ordered(mid)
  }

  lemma CoversOne(t: Tile)
    ensures Covers([t], t.addr, End(t))
  {
  }

  lemma CoversTwo(t: Tile, u: Tile)
    requires End(t) == u.addr
    ensures Covers([t, u], t.addr, End(u))
  {
  }

  lemma SpliceTiled(start: int, brk: int, brk': int, ts: seq<Tile>, i: int, j: int, mid: seq<Tile>, lo: int, hi: int)
    requires Tiled(start, brk, ts) && 0 <= i <= j <= |ts|
    requires lo == StartOf(ts, i, brk) && Covers(mid, lo, hi)
    requires if j < |ts| then hi == ts[j].addr && brk' == brk else hi == brk'
    ensures Tiled(start, brk', Splice(ts, i, j, mid))
  {
    var r := Splice(ts, i, j, mid);
    EndsBefore(start, brk, ts, i);
    forall x {:trigger Abut(r, x)} | 0 <= x < |r| - 1 ensures Abut(r, x) {
      if x + 1 < i {
        assert Abut(ts, x);
      } else if x + 1 == i {
      } else if x + 1 < i + |mid| {
        assert Abut(mid, x - i);
      } else if x + 1 > i + |mid| {
        assert Abut(ts, x - |mid| + j - i);
      }
    }
    SpliceOrdered(ts, i, j, mid, lo, hi);
  }

  lemma EndsBefore(start: int, brk: int, ts: seq<Tile>, i: int)
    requires Tiled(start, brk, ts) && 0 <= i <= |ts|
    ensures i > 0 ==> End(ts[i - 1]) == StartOf(ts, i, brk)
    ensures i == 0 ==> StartOf(ts, i, brk) == start
    ensures forall x :: 0 <= x < i ==> End(ts[x]) <= StartOf(ts, i, brk)
    ensures forall x :: i <= x < |ts| ==> StartOf(ts, i, brk) <= ts[x].addr && End(ts[x]) <= brk
    ensures start <= StartOf(ts, i, brk) <= brk
  {
    if 0 < i < |ts| {
      assert Abut(ts, i - 1);
    }
  }

  lemma SpliceOrdered(ts: seq<Tile>, i: int, j: int, mid: seq<Tile>, lo: int, hi: int)
    requires Ordered(ts) && 0 <= i <= j <= |ts| && Covers(mid, lo, hi)
    requires forall x :: 0 <= x < i ==> End(ts[x]) <= lo
    requires forall x :: j <= x < |ts| ==> hi <= ts[x].addr
    ensures Ordered(Splice(ts, i, j, mid))
  {
  }

  // The addresses of the headers.

  ghost function Addrs(ts: seq<Tile>): (r: seq<int>)
    ensures |r| == |ts| && forall i :: 0 <= i < |ts| ==> r[i] == ts[i].addr
  {
    seq(|ts|, i requires 0 <= i < |ts| => ts[i].addr)
  }

  lemma AddrsSplice(ts: seq<Tile>, i: int, j: int, mid: seq<Tile>)
    requires 0 <= i <= j <= |ts|
    ensures multiset(Addrs(Splice(ts, i, j, mid)))
            == multiset(Addrs(ts)) - multiset(Addrs(ts[i..j])) + multiset(Addrs(mid))
  {
    var a, m, z := Addrs(ts[..i]), Addrs(ts[i..j]), Addrs(ts[j..]);
    assert Addrs(ts) == a + m + z;
    assert Addrs(Splice(ts, i, j, mid)) == a + Addrs(mid) + z;
  }

  // The metadata of a block in memory.

  ghost predicate Records(ws: map<int, int>, a: int, t: Tile) {
    a in ws && ws[a] == t.size && a + 8 in ws && ws[a + 8] == Flag(t.free)
  }

  ghost predicate TileCells(ws: map<int, int>, t: Tile) {
    Records(ws, t.addr, t) && Records(ws, Footer(t), t)
  }

  /** Every header and every footer records its block. */
  ghost predicate CellsOK(ws: map<int, int>, ts: seq<Tile>) {
    forall i :: 0 <= i < |ts| ==> TileCells(ws, ts[i])
  }

  /** The bytes [a, a + n) that were defined keep their value. */
  ghost predicate BytesKept(m: Memory, m': Memory, a: int, n: int) {
    forall y :: a <= y < a + n && y in m.bytes ==> y in m'.bytes && m'.bytes[y] == m.bytes[y]
  }

  /** hs are headers of ts, or lie in [lo, hi). */
  ghost predicate HeadersIn(hs: seq<int>, ts: seq<Tile>, lo: int, hi: int) {
    forall h :: h in hs ==> h in Addrs(ts) || (lo <= h && h + SOM <= hi)
  }

  lemma KeepsTile(m: Memory, m': Memory, ts: seq<Tile>, i: int, lo: int, hi: int, hs: seq<int>)
    requires Ordered(ts) && 0 <= i < |ts| && HeadersIn(hs, ts, lo, hi) && Frame(m, m', lo, hi, hs)
    requires End(ts[i]) <= lo || hi <= ts[i].addr
    ensures TileCells(m.words, ts[i]) ==> TileCells(m'.words, ts[i])
    ensures BytesKept(m, m', Payload(ts[i]), ts[i].size)
  {
  }

  lemma SpliceCells(m: Memory, m': Memory, start: int, brk: int, ts: seq<Tile>, i: int, j: int, mid: seq<Tile>,
                    lo: int, hi: int, hs: seq<int>)
    requires Tiled(start, brk, ts) && 0 <= i <= j <= |ts|
    requires lo == StartOf(ts, i, brk) && (j < |ts| ==> hi <= ts[j].addr)
    requires HeadersIn(hs, ts, lo, hi) && Frame(m, m', lo, hi, hs)
    requires CellsOK(m.words, ts[..i]) && CellsOK(m.words, ts[j..]) && CellsOK(m'.words, mid)
    ensures CellsOK(m'.words, Splice(ts, i, j, mid))
  {
    EndsBefore(start, brk, ts, i);
    forall x | 0 <= x < |ts| && (x < i || j <= x) ensures TileCells(m'.words, ts[x]) {
      assert x < i ==> ts[x] == ts[..i][x];
      assert x >= j ==> ts[x] == ts[j..][x - j];
      KeepsTile(m, m', ts, x, lo, hi, hs);
    }
  }

  // The five counters.

  datatype Stats = Stats(allocatedBlocks: int, freeBlocks: int, allocatedBytes: int, freeBytes: int, metadataBytes: int)

  function Plus(a: Stats, b: Stats): Stats {
    Stats(a.allocatedBlocks + b.allocatedBlocks, a.freeBlocks + b.freeBlocks, a.allocatedBytes + b.allocatedBytes,
          a.freeBytes + b.freeBytes, a.metadataBytes + b.metadataBytes)
  }

  ghost function Count(t: Tile): Stats {
    Stats(1, if t.free then 1 else 0, t.size, if t.free then t.size else 0, 2 * SOM)
  }

  const ZERO := Stats(0, 0, 0, 0, 0)

  /** The counters recomputed from scratch. */
  ghost function Totals(ts: seq<Tile>): Stats {
    if ts == [] then ZERO else Plus(Count(ts[0]), Totals(ts[1..]))
  }

  lemma {:induction false} TotalsConcat(a: seq<Tile>, b: seq<Tile>)
    ensures Totals(a + b) == Plus(Totals(a), Totals(b))
  {
    if a == [] {
      assert a + b == b;
    } else {
      var c := a + b;
      assert c != [] && c[0] == a[0] && c[1..] == a[1..] + b;
      TotalsConcat(a[1..], b);
      assert Totals(c) == Plus(Count(a[0]), Totals(c[1..]));
    }
  }

  lemma TotalsFew(t: Tile, u: Tile)
    ensures Totals([t]) == Count(t) && Totals([t, u]) == Plus(Count(t), Count(u))
  {
    assert [u][1..] == [] && [t][1..] == [];
    assert Totals([u]) == Count(u);
    assert [t, u][1..] == [u] && Totals([t, u]) == Plus(Count(t), Totals([t, u][1..]));
  }

  lemma TotalsSplice(ts: seq<Tile>, i: int, j: int, mid: seq<Tile>)
    requires 0 <= i <= j <= |ts|
    ensures Plus(Totals(Splice(ts, i, j, mid)), Totals(ts[i..j])) == Plus(Totals(ts), Totals(mid))
  {
    hide Totals;
    assert ts == ts[..i] + (ts[i..j] + ts[j..]);
    assert Splice(ts, i, j, mid) == ts[..i] + (mid + ts[j..]);
    TotalsConcat(ts[..i], ts[i..j] + ts[j..]);
    TotalsConcat(ts[i..j], ts[j..]);
    TotalsConcat(ts[..i], mid + ts[j..]);
    TotalsConcat(mid, ts[j..]);
  }
}
