/** The size_t arithmetic of the request path. */
module SizeArithmetic {
  import opened Memory

  const TWO64: int := 0x1_0000_0000_0000_0000
  const MIN_SPLIT_SIZE: int := 128
  const MMAP_THRESHOLD: int := 128 * 1024
  const MAX_REQUEST: int := 100_000_000

  /** The three limits of the request path, and the size of the metadata. */
  lemma Limits()
    ensures MAX_REQUEST == 100_000_000 && MMAP_THRESHOLD == 131072 && MIN_SPLIT_SIZE == 128 && SOM == 32
    ensures TWO64 == 18446744073709551616
  {
  }

  /** Subtraction of size_t values, which wraps around. */
  function Minus64(a: int, b: int): int { (a - b) % TWO64 }

  /** Rounds a request up to a multiple of 8. */
  function RoundUp(size: nat): nat { if size % 8 != 0 then size + (8 - size % 8) else size }

  /** Is the rest of a block worth splitting off?  The second conjunct catches wrap-around. */
  predicate SplitTest(blockSize: int, size: int) {
    && Minus64(Minus64(blockSize, size), 2 * SOM) >= MIN_SPLIT_SIZE
    && Minus64(Minus64(blockSize, size), 2 * SOM) < blockSize
  }

  /** The wrapping test means what it says without wrap-around, for every request and metadata
      that fit in the address space. */
  lemma SplitTestExact(blockSize: int, size: int)
    requires 0 <= blockSize < TWO64 && 0 <= size && size + 2 * SOM <= TWO64
    ensures SplitTest(blockSize, size) <==> blockSize >= size + 2 * SOM + MIN_SPLIT_SIZE
  {
  }

  /** Beyond that bound the test is wrong for every size: it would split a 200-byte block. */
  lemma SplitTestFooled(size: int)
    requires TWO64 - 2 * SOM < size < TWO64
    ensures SplitTest(200, size) && !(200 >= size + 2 * SOM + MIN_SPLIT_SIZE)
  {
  }

  lemma RoundUpFacts(size: nat)
    ensures RoundUp(size) % 8 == 0 && size <= RoundUp(size) < size + 8
  {
    var q, r := size / 8, size % 8;
    assert size == 8 * q + r;
    if r != 0 { assert RoundUp(size) == 8 * (q + 1); }
  }

  /** Among the multiples of 8 that hold the request it is the least. */
  lemma RoundUpLeast(size: nat, n: int)
    requires n % 8 == 0 && n >= size
    ensures RoundUp(size) % 8 == 0 && size <= RoundUp(size) <= n
  {
    RoundUpFacts(size);
    var q, r, m := size / 8, size % 8, n / 8;
    assert size == 8 * q + r && n == 8 * m;
    if r != 0 { assert m >= q + 1; }
  }
}
