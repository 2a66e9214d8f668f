/** The flat process memory the allocator works on.

    `words[a]` is the 8-byte word stored at addresses a .. a+7, and it is present only while
    none of those bytes has been overwritten since; `bytes[a]` is a byte of user data, under
    the same rule.  Reading an absent cell is an error the verifier reports. */
module Memory {

  type Byte = b: int | 0 <= b < 256

  /** sizeof(MallocMetadata) on a 64-bit target: size, is_free (padded), next, prev. */
  const SOM: int := 32

  datatype Memory = Memory(words: map<int, int>, bytes: map<int, Byte>)

  function Punch<T>(m: map<int, T>, lo: int, hi: int): map<int, T> {
    map y | y in m && !(lo <= y < hi) :: m[y]
  }

  /** Stores the word v at a, destroying every cell that overlaps it. */
  function Store(m: Memory, a: int, v: int): (r: Memory)
    ensures a in r.words && r.words[a] == v
    ensures forall y :: y in m.words && (y + 8 <= a || a + 8 <= y) ==> y in r.words && r.words[y] == m.words[y]
    ensures forall y :: y in m.bytes && (y < a || a + 8 <= y) ==> y in r.bytes && r.bytes[y] == m.bytes[y]
  {
    Memory(Punch(m.words, a - 7, a + 8)[a := v], Punch(m.bytes, a, a + 8))
  }

  /** Cell by cell: a store destroys exactly the cells it overlaps. */
  lemma StoredCell(m: Memory, a: int, v: int, y: int)
    ensures var r := Store(m, a, v);
      && (y in r.words <==> y == a || (y in m.words && (y + 8 <= a || a + 8 <= y)))
      && (y in r.words ==> r.words[y] == if y == a then v else m.words[y])
      && (y in r.bytes <==> y in m.bytes && (y < a || a + 8 <= y)) && (y in r.bytes ==> r.bytes[y] == m.bytes[y])
  {
  }

  /** Stores one byte of user data. */
  function StoreByte(m: Memory, a: int, b: Byte): (r: Memory)
    ensures a in r.bytes && r.bytes[a] == b
    ensures forall y :: y in m.words && (y + 8 <= a || a + 1 <= y) ==> y in r.words && r.words[y] == m.words[y]
    ensures forall y :: y in m.bytes && y != a ==> y in r.bytes && r.bytes[y] == m.bytes[y]
  {
    Memory(Punch(m.words, a - 7, a + 1), m.bytes[a := b])
  }

  lemma StoredByteCell(m: Memory, a: int, b: Byte, y: int)
    ensures var r := StoreByte(m, a, b);
      && (y in r.words <==> y in m.words && (y + 8 <= a || a + 1 <= y)) && (y in r.words ==> r.words[y] == m.words[y])
      && (y in r.bytes <==> y == a || y in m.bytes) && (y in r.bytes ==> r.bytes[y] == if y == a then b else m.bytes[y])
  {
  }

  /** Where memmove(dst, src, _) takes the cell at y from. */
  function Origin(y: int, dst: int, src: int): int { y - dst + src }

  /** The cells memmove(dst, src, n) brings to the destination. */
  function Taken<T>(m: map<int, T>, dst: int, src: int, n: nat, w: nat): (r: map<int, T>)
    ensures forall y :: y in r <==> dst <= y < dst + n && y + w <= dst + n && Origin(y, dst, src) in m
    ensures forall y :: y in r ==> r[y] == m[Origin(y, dst, src)]
  {
    map y | dst <= y < dst + n && y + w <= dst + n && Origin(y, dst, src) in m :: m[Origin(y, dst, src)]
  }

  /** memmove on cells of width w: a cell lying wholly in the source appears at the
      destination; whatever the destination range touched before is gone. */
  function MoveCells<T>(m: map<int, T>, dst: int, src: int, n: nat, w: nat): map<int, T>
    requires w > 0
  {
    Punch(m, dst - w + 1, dst + n) + Taken(m, dst, src, n, w)
  }

  /** memmove(dst, src, n) */
  function Move(m: Memory, dst: int, src: int, n: nat): Memory {
    if n == 0 then m else Memory(MoveCells(m.words, dst, src, n, 8), MoveCells(m.bytes, dst, src, n, 1))
  }

  /** Cell by cell: what lies clear of the destination stays, what fits in it comes from the
      source, and a cell that crosses its border is gone. */
  lemma MovedCell<T>(m: map<int, T>, dst: int, src: int, n: nat, w: nat, y: int)
    requires w > 0
    ensures var r := MoveCells(m, dst, src, n, w);
      if y + w <= dst || dst + n <= y then (y in r <==> y in m) && (y in r ==> r[y] == m[y])
      else if dst <= y && y + w <= dst + n
      then (y in r <==> Origin(y, dst, src) in m) && (y in r ==> r[y] == m[Origin(y, dst, src)])
      else y !in r
  {
  }

  lemma MoveIsMoved(m: Memory, dst: int, src: int, n: nat)
    ensures Moved(m, Move(m, dst, src, n), dst, src, n)
  {
    hide MoveCells;
    if n > 0 {
      MovedCells(m.words, dst, src, n, 8);
      MovedCells(m.bytes, dst, src, n, 1);
    }
  }

  lemma MovedCells<T>(m: map<int, T>, dst: int, src: int, n: nat, w: nat)
    requires w > 0
    ensures var r := MoveCells(m, dst, src, n, w);
      && (forall y :: y in m && (y + w <= dst || dst + n <= y) ==> y in r && r[y] == m[y])
      && (forall y {:trigger y in r} {:trigger r[y]} :: dst <= y && y + w <= dst + n && y - dst + src in m ==>
           y in r && r[y] == m[y - dst + src])
  {
  }

  /** The kernel takes the range [lo, hi) out of the address space. */
  function Unmap(m: Memory, lo: int, hi: int): (r: Memory)
    ensures forall y :: y in m.words && (y + 8 <= lo || hi <= y) ==> y in r.words && r.words[y] == m.words[y]
    ensures forall y :: y in m.bytes && (y < lo || hi <= y) ==> y in r.bytes && r.bytes[y] == m.bytes[y]
  {
    Memory(Punch(m.words, lo - 7, hi), Punch(m.bytes, lo, hi))
  }

  /** No cell reaches into [lo, hi). */
  ghost predicate Absent(m: Memory, lo: int, hi: int) {
    && (forall y :: y in m.words ==> y + 8 <= lo || hi <= y) && (forall y :: y in m.bytes ==> y < lo || hi <= y)
  }

  lemma UnmappedIsAbsent(m: Memory, lo: int, hi: int)
    ensures Absent(Unmap(m, lo, hi), lo, hi)
  {
  }

  /** Cell by cell: m' is m with the word v stored at a. */
  ghost predicate Stored(m: Memory, m': Memory, a: int, v: int) {
    && a in m'.words && m'.words[a] == v
    && (forall y :: y in m.words && (y + 8 <= a || a + 8 <= y) ==> y in m'.words && m'.words[y] == m.words[y])
    && (forall y :: y in m.bytes && (y < a || a + 8 <= y) ==> y in m'.bytes && m'.bytes[y] == m.bytes[y])
  }

  /** Cell by cell: m' is m after memmove(dst, src, n). */
  ghost predicate Moved(m: Memory, m': Memory, dst: int, src: int, n: int) {
    && (forall y :: y in m.words && (n <= 0 || y + 8 <= dst || dst + n <= y) ==>
          y in m'.words && m'.words[y] == m.words[y])
    && (forall y :: y in m.bytes && (n <= 0 || y < dst || dst + n <= y) ==> y in m'.bytes && m'.bytes[y] == m.bytes[y])
    && (forall y {:trigger y in m'.words} {:trigger m'.words[y]} ::
          dst <= y && y + 8 <= dst + n && y - dst + src in m.words ==>
            y in m'.words && m'.words[y] == m.words[y - dst + src])
    && (forall y {:trigger y in m'.bytes} {:trigger m'.bytes[y]} ::
          dst <= y < dst + n && y - dst + src in m.bytes ==>
            y in m'.bytes && m'.bytes[y] == m.bytes[y - dst + src])
  }

  /** No word starting at y reaches into [lo, hi) (empty if hi <= lo) or into the link fields of a header in hs. */
  ghost predicate WordClear(y: int, lo: int, hi: int, hs: seq<int>) {
    (hi <= lo || y + 8 <= lo || hi <= y) && forall h :: h in hs ==> y <= h + 8 || h + SOM <= y
  }

  ghost predicate ByteClear(y: int, lo: int, hi: int, hs: seq<int>) {
    (hi <= lo || y < lo || hi <= y) && forall h :: h in hs ==> y < h + 16 || h + SOM <= y
  }

  /** m' differs from m at most in [lo, hi) and in the link fields of the headers hs. */
  ghost predicate Frame(m: Memory, m': Memory, lo: int, hi: int, hs: seq<int>) {
    && (forall y :: y in m.words && WordClear(y, lo, hi, hs) ==> y in m'.words && m'.words[y] == m.words[y])
    && (forall y :: y in m.bytes && ByteClear(y, lo, hi, hs) ==> y in m'.bytes && m'.bytes[y] == m.bytes[y])
  }

  /** The cells that lie wholly in [lo, hi) keep their values. */
  ghost predicate InnerKept(m: Memory, m': Memory, lo: int, hi: int) {
    && (forall y :: lo <= y && y + 8 <= hi && y in m.words ==> y in m'.words && m'.words[y] == m.words[y])
    && (forall y :: lo <= y < hi && y in m.bytes ==> y in m'.bytes && m'.bytes[y] == m.bytes[y])
  }

  lemma InnerTrans(m0: Memory, m1: Memory, m2: Memory, lo: int, hi: int)
    requires InnerKept(m0, m1, lo, hi) && InnerKept(m1, m2, lo, hi)
    ensures InnerKept(m0, m2, lo, hi)
  {
  }

  /** Two changes, one after the other. */
  lemma FrameTrans(m0: Memory, m1: Memory, m2: Memory, lo1: int, hi1: int, hs1: seq<int>,
                   lo2: int, hi2: int, hs2: seq<int>, lo: int, hi: int, hs: seq<int>)
    requires Frame(m0, m1, lo1, hi1, hs1) && Frame(m1, m2, lo2, hi2, hs2)
    requires (hi1 <= lo1 || lo <= lo1 <= hi1 <= hi) && (hi2 <= lo2 || lo <= lo2 <= hi2 <= hi)
    requires forall h :: h in hs1 || h in hs2 ==> h in hs || (lo <= h + 16 && h + SOM <= hi)
    ensures Frame(m0, m2, lo, hi, hs)
  {
  }
}
