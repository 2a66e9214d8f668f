/** The request queue: a singly linked list with head, tail and size. */
module QueueModel {

  /** A waiting or running connection: its descriptor and when it arrived. */
  datatype Entry = Entry(fd: int, arrival: int)

  // What the operations do to the queue seen as a sequence.

  function Without<T>(q: seq<T>, i: nat): (r: seq<T>)
    requires i < |q|
    ensures |r| == |q| - 1
  {
    q[..i] + q[i + 1..]
  }

  function Least(a: int, b: int): int { if a < b then a else b }

  /** The position that the answer r of rand() picks among n entries. */
  function Pick(r: nat, n: nat): (i: nat)
    requires n > 0
    ensures i < n
  {
    r % n
  }

  /** num times in a row, the entry at a random position is taken out.  rand(k) is the k-th
      answer of rand(). */
  function Kept<T>(q: seq<T>, num: int, rand: nat -> nat, k: nat): seq<T>
    decreases |q|
  {
    if num <= 0 || q == [] then q else Kept(Without(q, Pick(rand(k), |q|)), num - 1, rand, k + 1)
  }

  /** The entries taken out, in that order. */
  function Discarded<T>(q: seq<T>, num: int, rand: nat -> nat, k: nat): seq<T>
    decreases |q|
  {
    if num <= 0 || q == [] then []
    else [q[Pick(rand(k), |q|)]] + Discarded(Without(q, Pick(rand(k), |q|)), num - 1, rand, k + 1)
  }

  function Fds(q: seq<Entry>): (r: seq<int>)
    ensures |r| == |q| && forall i :: 0 <= i < |q| ==> r[i] == q[i].fd
  {
    seq(|q|, i requires 0 <= i < |q| => q[i].fd)
  }

  lemma DiscardNone(q: seq<Entry>, num: int, rand: nat -> nat, k: nat)
    ensures num <= 0 ==> Kept(q, num, rand, k) == q && Fds(Discarded(q, num, rand, k)) == []
  {
  }

  lemma DiscardNext(q: seq<Entry>, num: int, rand: nat -> nat, k: nat, closed: seq<int>)
    requires 0 < num <= |q|
    ensures var i := Pick(rand(k), |q|);
      && Kept(q, num, rand, k) == Kept(Without(q, i), num - 1, rand, k + 1)
      && closed + Fds(Discarded(q, num, rand, k))
         == closed + [q[i].fd] + Fds(Discarded(Without(q, i), num - 1, rand, k + 1))
  {
  }

  /** A single removal takes out the entry at the random number modulo the length. */
  lemma DiscardOne<T>(q: seq<T>, rand: nat -> nat, k: nat)
    requires q != []
    ensures var i := rand(k) % |q|; Discarded(q, 1, rand, k) == [q[i]] && Kept(q, 1, rand, k) == q[..i] + q[i + 1..]
  {
    var r := Without(q, Pick(rand(k), |q|));
    assert Kept(r, 0, rand, k + 1) == r;
  }

  /** Removal number j takes out what the j-th random number, modulo the number of entries still
      there, points at, and closes the gap. */
  lemma {:induction false} DiscardStep<T>(q: seq<T>, j: nat, rand: nat -> nat, k: nat)
    requires j < |q|
    ensures Kept(q, 0, rand, k) == q && Discarded(q, 0, rand, k) == []
    ensures var left := Kept(q, j, rand, k);
      && |left| == |q| - j && Kept(q, j + 1, rand, k) == left[..rand(k + j) % |left|] + left[rand(k + j) % |left| + 1..]
      && Discarded(q, j + 1, rand, k) == Discarded(q, j, rand, k) + [left[rand(k + j) % |left|]]
    decreases j
  {
    hide Without, Pick;
    if j == 0 {
      DiscardOne(q, rand, k);
    } else {
      DiscardStep(Without(q, Pick(rand(k), |q|)), j - 1, rand, k + 1);
    }
  }

  /** The entries taken out, each found where its random number points in what was left. */
  lemma {:induction false} DiscardedAt<T>(q: seq<T>, num: int, rand: nat -> nat, k: nat, j: nat)
    requires j < num && j < |q|
    ensures var left := Kept(q, j, rand, k);
      && |left| == |q| - j && j < |Discarded(q, num, rand, k)|
      && Discarded(q, num, rand, k)[j] == left[rand(k + j) % (|q| - j)]
    decreases j
  {
    if j > 0 {
      DiscardedAt(Without(q, Pick(rand(k), |q|)), num - 1, rand, k + 1, j - 1);
    }
  }

  /** left becomes next: the entry at the random number r, modulo the number of entries, is taken
      out and the gap closed.  fd is its descriptor. */
  predicate OneTaken(left: seq<Entry>, r: nat, fd: int, next: seq<Entry>) {
    left != [] && var i := r % |left|; fd == left[i].fd && next == left[..i] + left[i + 1..]
  }

  lemma ClosedInTurn(q: seq<Entry>, num: int, rand: nat -> nat, j: nat)
    requires j < num && j < |q|
    ensures j < |Discarded(q, num, rand, 0)|
    ensures OneTaken(Kept(q, j, rand, 0), rand(j), Fds(Discarded(q, num, rand, 0))[j], Kept(q, j + 1, rand, 0))
  {
    hide Kept, Discarded;
    DiscardStep(q, j, rand, 0);
    DiscardedAt(q, num, rand, 0, j);
  }

  lemma {:induction false} CapIsHarmless<T>(q: seq<T>, num: int, rand: nat -> nat, k: nat)
    ensures Kept(q, Least(num, |q|), rand, k) == Kept(q, num, rand, k)
    ensures Discarded(q, Least(num, |q|), rand, k) == Discarded(q, num, rand, k)
    decreases |q|
  {
    if num > 0 && q != [] {
      var r := Without(q, Pick(rand(k), |q|));
      assert Least(num, |q|) - 1 == Least(num - 1, |r|);
      CapIsHarmless(r, num - 1, rand, k + 1);
    }
  }

  /** Exactly min(num, size) entries go. */
  lemma {:induction false} DiscardCount<T>(q: seq<T>, num: int, rand: nat -> nat, k: nat)
    ensures |Discarded(q, num, rand, k)| == if num <= 0 then 0 else Least(num, |q|)
    ensures |Kept(q, num, rand, k)| + |Discarded(q, num, rand, k)| == |q|
    decreases |q|
  {
    hide Without;
    if num > 0 && q != [] {
      DiscardCount(Without(q, Pick(rand(k), |q|)), num - 1, rand, k + 1);
    }
  }

  lemma WithoutAccounts<T>(q: seq<T>, i: nat)
    requires i < |q|
    ensures multiset(q) == multiset{q[i]} + multiset(Without(q, i))
  {
    assert q == q[..i] + [q[i]] + q[i + 1..];
  }

  ghost predicate MadeUpOf<T>(q: seq<T>, gone: seq<T>, kept: seq<T>) {
    multiset(q) == multiset(gone) + multiset(kept)
  }

  lemma OneMoreGone<T>(q: seq<T>, i: nat, gone: seq<T>, kept: seq<T>)
    requires i < |q| && MadeUpOf(Without(q, i), gone, kept)
    ensures MadeUpOf(q, [q[i]] + gone, kept)
  {
    hide Without;
    WithoutAccounts(q, i);
    assert multiset([q[i]] + gone) == multiset{q[i]} + multiset(gone);
  }

  lemma NoneGone<T>(q: seq<T>)
    ensures MadeUpOf(q, [], q)
  {
  }

  lemma {:induction false} DiscardMakesUp<T>(q: seq<T>, num: int, rand: nat -> nat, k: nat)
    ensures MadeUpOf(q, Discarded(q, num, rand, k), Kept(q, num, rand, k))
    decreases |q|
  {
    hide Without, Pick, MadeUpOf;
    if num > 0 && q != [] {
      var i := Pick(rand(k), |q|);
      DiscardMakesUp(Without(q, i), num - 1, rand, k + 1);
      OneMoreGone(q, i, Discarded(Without(q, i), num - 1, rand, k + 1), Kept(Without(q, i), num - 1, rand, k + 1));
    } else {
      NoneGone(q);
    }
  }

  /** No entry is lost or invented. */
  lemma DiscardAccounts<T>(q: seq<T>, num: int, rand: nat -> nat, k: nat)
    ensures multiset(q) == multiset(Discarded(q, num, rand, k)) + multiset(Kept(q, num, rand, k))
  {
    hide Discarded, Kept;
    DiscardMakesUp(q, num, rand, k);
  }

  /** a is b with some entries left out, the others in their old order. */
  ghost predicate Subsequence<T>(a: seq<T>, b: seq<T>)
    decreases |b|
  {
    a == [] || (b != [] && ((a[|a| - 1] == b[|b| - 1] && Subsequence(a[..|a| - 1], b[..|b| - 1]))
                            || Subsequence(a, b[..|b| - 1])))
  }

  /** The entries of a are those of b at the positions f, which ascend. */
  ghost predicate Picks<T>(a: seq<T>, b: seq<T>, f: seq<nat>) {
    && |f| == |a| && (forall i, j :: 0 <= i < j < |f| ==> f[i] < f[j])
    && forall i :: 0 <= i < |f| ==> f[i] < |b| && a[i] == b[f[i]]
  }

  lemma {:induction false} PickedFrom<T>(a: seq<T>, b: seq<T>) returns (f: seq<nat>)
    requires Subsequence(a, b)
    ensures Picks(a, b, f)
    decreases |b|
  {
    f := [];
    if a != [] {
      var a1, b1, n := a[..|a| - 1], b[..|b| - 1], |b| - 1;
      if a[|a| - 1] == b[n] && Subsequence(a1, b1) {
        f := PickedFrom(a1, b1);
        f := f + [n];
      } else {
        f := PickedFrom(a, b1);
      }
    }
  }

  lemma {:induction false} PickedIsSubsequence<T>(a: seq<T>, b: seq<T>, f: seq<nat>)
    requires Picks(a, b, f)
    ensures Subsequence(a, b)
    decreases |b|
  {
    if a != [] {
      var last := f[|f| - 1];
      if last == |b| - 1 {
        PickedIsSubsequence(a[..|a| - 1], b[..|b| - 1], f[..|f| - 1]);
      } else {
        PickedIsSubsequence(a, b[..|b| - 1], f);
      }
    }
  }

  /** A subsequence is one by ascending positions, and no other. */
  lemma SubsequenceExactly<T>(a: seq<T>, b: seq<T>)
    ensures Subsequence(a, b) <==> exists f :: Picks(a, b, f)
  {
    hide Subsequence, Picks;
    if Subsequence(a, b) { var f := PickedFrom(a, b); }
    forall f | Picks(a, b, f) ensures Subsequence(a, b) { PickedIsSubsequence(a, b, f); }
  }

  lemma {:induction false} SubsequenceRefl<T>(a: seq<T>)
    ensures Subsequence(a, a)
  {
    if a != [] { SubsequenceRefl(a[..|a| - 1]); }
  }

  lemma {:induction false} SubsequenceTrans<T>(a: seq<T>, b: seq<T>, c: seq<T>)
    requires Subsequence(a, b) && Subsequence(b, c)
    ensures Subsequence(a, c)
    decreases |c|, |b|
  {
    if a != [] {
      var b1, c1 := b[..|b| - 1], c[..|c| - 1];
      if b[|b| - 1] == c[|c| - 1] && Subsequence(b1, c1) {
        if a[|a| - 1] == b[|b| - 1] && Subsequence(a[..|a| - 1], b1) {
          SubsequenceTrans(a[..|a| - 1], b1, c1);
        } else {
          SubsequenceTrans(a, b1, c1);
        }
      } else {
        SubsequenceTrans(a, b, c1);
      }
    }
  }

  /** Taking one entry out leaves a subsequence. */
  lemma {:induction false} WithoutSubsequence<T>(q: seq<T>, i: nat)
    requires i < |q|
    ensures Subsequence(Without(q, i), q)
    decreases |q|
  {
    var q1 := q[..|q| - 1];
    if i == |q| - 1 {
      assert Without(q, i) == q1;
      SubsequenceRefl(q1);
    } else {
      var r := Without(q, i);
      assert r[..|r| - 1] == Without(q1, i);
      WithoutSubsequence(q1, i);
    }
  }

  /** The rest of the queue keeps its order. */
  lemma {:induction false} DiscardKeepsOrder<T>(q: seq<T>, num: int, rand: nat -> nat, k: nat)
    ensures Subsequence(Kept(q, num, rand, k), q)
    decreases |q|
  {
    if num <= 0 || q == [] {
      SubsequenceRefl(q);
    } else {
      var i := Pick(rand(k), |q|);
      WithoutSubsequence(q, i);
      DiscardKeepsOrder(Without(q, i), num - 1, rand, k + 1);
      SubsequenceTrans(Kept(q, num, rand, k), Without(q, i), q);
    }
  }

  /** The position queueRemoveByIndex takes the entry from, in a queue of n entries. */
  datatype Target = At(i: nat) | NoEntry | NullPointer

  function Removes(n: nat, index: int): Target {
    if index > n then NoEntry
    else if index == 0 then (if n == 0 then NoEntry else At(0))
    else if index < 0 then (if n < 2 then NullPointer else At(1))
    else if index == n then NullPointer
    else At(index)
  }

  class Node {
    const entry: Entry
    var next: Node?

    constructor (e: Entry)
      ensures entry == e && next == null
    {
      entry, next := e, null;
    }
  }

  ghost function NextOf(ns: seq<Node>, i: int): Node? { if 0 <= i + 1 < |ns| then ns[i + 1] else null }

  ghost function Entries(ns: seq<Node>): (s: seq<Entry>)
    ensures |s| == |ns| && forall i :: 0 <= i < |s| ==> s[i] == ns[i].entry
  {
    seq(|ns|, i requires 0 <= i < |ns| => ns[i].entry)
  }

  lemma WithoutEntries(ns: seq<Node>, i: nat)
    requires i < |ns|
    ensures Entries(Without(ns, i)) == Without(Entries(ns), i)
  {
  }

  /** Who is where after entry i + 1 was taken out, and who comes next. */
  lemma Relinked(ns: seq<Node>, i: nat, x: nat)
    requires i + 1 < |ns| && x < |ns| - 1
    ensures var r, y := Without(ns, i + 1), if x <= i then x else x + 1;
      r[x] == ns[y] && NextOf(r, x) == NextOf(ns, if x == i then i + 1 else y)
    ensures NextOf(ns, i) == ns[i + 1] && (NextOf(ns, i + 1) == null <==> i + 2 == |ns|)
  {
  }

  lemma RelinkedDistinct(ns: seq<Node>, i: nat)
    requires i + 1 < |ns| && forall x, y :: 0 <= x < y < |ns| ==> ns[x] != ns[y]
    ensures var r := Without(ns, i + 1); forall x, y :: 0 <= x < y < |r| ==> r[x] != r[y]
  {
  }

  /** The nodes of the list, in order: each links to the next, the last to null. */
  ghost predicate Chained(ns: seq<Node>, repr: set<Node>)
    reads repr
  {
    && (forall i :: 0 <= i < |ns| ==> ns[i] in repr)
    && (forall i :: 0 <= i < |ns| ==> ns[i].next == NextOf(ns, i))
    && (forall i, j :: 0 <= i < j < |ns| ==> ns[i] != ns[j])
  }

  lemma LinkOf(ns: seq<Node>, repr: set<Node>, i: int)
    requires Chained(ns, repr) && 0 <= i < |ns|
    ensures ns[i].next == if i + 1 < |ns| then ns[i + 1] else null
  {
  }

  lemma Popped(ns: seq<Node>, repr: set<Node>)
    requires Chained(ns, repr) && ns != []
    ensures ns[0].next == if |ns| == 1 then null else ns[1]
    ensures Chained(ns[1..], repr)
    ensures Entries(ns) != [] && Entries(ns)[0] == ns[0].entry && Entries(ns[1..]) == Entries(ns)[1..]
  {
    var r := ns[1..];
    forall x | 0 <= x < |r| ensures r[x] == ns[x + 1] && NextOf(r, x) == NextOf(ns, x + 1) {}
  }

  lemma Pushed(ns: seq<Node>, node: Node)
    ensures forall x :: 0 <= x < |ns| ==> NextOf(ns + [node], x) == if x == |ns| - 1 then node else NextOf(ns, x)
    ensures NextOf(ns + [node], |ns|) == null
    ensures Entries(ns + [node]) == Entries(ns) + [node.entry]
    ensures ns == [] <==> Entries(ns) == []
  {
  }

  lemma PickRemoves(n: nat, r: nat)
    requires n > 0
    ensures Removes(n, Pick(r, n)) == At(Pick(r, n))
  {
  }

  class Queue {
    var head: Node?
    var tail: Node?
    var size: int
    ghost var nodes: seq<Node>
    ghost var repr: set<Node>

    /** The list is nodes, in order, without cycles; tail and size agree with it. */
    ghost predicate Valid()
      reads this, repr
    {
      && size == |nodes|
      && head == (if nodes == [] then null else nodes[0])
      && tail == (if nodes == [] then null else nodes[|nodes| - 1])
      && Chained(nodes, repr)
    }

    ghost function Contents(): seq<Entry>
      reads this
    {
      Entries(nodes)
    }

    constructor ()
      ensures Valid() && Contents() == [] && repr == {}
    {
      head, tail, size := null, null, 0;
      nodes, repr := [], {};
    }

    predicate Empty()
      requires Valid()
      reads this, repr
      ensures Empty() <==> Contents() == []
    {
      head == null
    }

    function Size(): (n: int)
      requires Valid()
      reads this, repr
      ensures n == |Contents()|
    {
      size
    }

    /** Memory for the node is assumed to be there. */
    method Push(fd: int, arrival: int)
      requires Valid()
      modifies this, repr
      ensures Valid() && Contents() == old(Contents()) + [Entry(fd, arrival)]
      ensures fresh(repr - old(repr)) && old(repr) <= repr
    {
      hide NextOf, Entries;
      ghost var ns := nodes;
      var node := new Node(Entry(fd, arrival));
      Pushed(ns, node);
      if !Empty() {
        tail.next := node;
        tail := node;
      } else {
        tail := node;
        head := node;
      }
      size := size + 1;
      nodes, repr := nodes + [node], repr + {node};
      forall i | 0 <= i < |nodes| ensures nodes[i] in repr && nodes[i].next == NextOf(nodes, i) {
        assert i < |ns| ==> nodes[i] == ns[i];
      }
    }

    /** Takes the first entry off; an empty queue gives -1 and leaves no arrival time. */
    method Pop() returns (fd: int, arrival: int)
      requires Valid()
      modifies this
      ensures Valid() && repr == old(repr)
      ensures if old(Contents()) == [] then fd == -1 && Contents() == []
              else Entry(fd, arrival) == old(Contents())[0] && Contents() == old(Contents())[1..]
    {
      if Empty() {
        return -1, 0;
      }
      hide Chained, Entries;
      Popped(nodes, repr);
      fd, arrival := head.entry.fd, head.entry.arrival;
      head := head.next;
      size := size - 1;
      nodes := nodes[1..];
      if head == null {
        tail := null;
      }
    }

    /** Takes the entry after node i out. */
    method UnlinkAfter(it: Node, ghost i: nat) returns (fd: int)
      requires Valid() && i + 1 < |nodes| && it == nodes[i]
      modifies this, repr
      ensures Valid() && repr == old(repr)
      ensures fd == old(Contents())[i + 1].fd && Contents() == Without(old(Contents()), i + 1)
    {
      hide Without, NextOf, Entries;
      ghost var ns := nodes;
      assert ns[i].next == NextOf(ns, i) && ns[i + 1].next == NextOf(ns, i + 1);
      Relinked(ns, i, 0);
      Relinked(ns, i, |ns| - 2);
      RelinkedDistinct(ns, i);
      WithoutEntries(ns, i + 1);
      var tmp := it.next;
      it.next := tmp.next;
      fd := tmp.entry.fd;
      if it.next == null {
        tail := it;
      }
      size := size - 1;
      nodes := Without(nodes, i + 1);
      forall x | 0 <= x < |nodes| ensures nodes[x] in repr && nodes[x].next == NextOf(nodes, x) {
        Relinked(ns, i, x);
      }
    }

    /** Takes out the entry at the index.  The C code runs into a null pointer when the index is
        the size, and treats a negative index as 1. */
    method RemoveByIndex(index: int) returns (fd: int, crash: bool)
      requires Valid()
      modifies this, repr
      ensures crash <==> Removes(|old(Contents())|, index) == NullPointer
      ensures repr == old(repr) && (!crash ==> Valid())
      ensures match Removes(|old(Contents())|, index)
        case At(i) => i < |old(Contents())| && fd == old(Contents())[i].fd && Contents() == Without(old(Contents()), i)
        case NoEntry => fd == -1 && Contents() == old(Contents())
        case NullPointer => true
    {
      hide Chained, Entries;
      crash := false;
      if index > size {
        return -1, false;
      }
      if index == 0 {
        var arrival;
        fd, arrival := Pop();
        return;
      }
      var it := head;
      var i := 0;
      while i < index - 1
        invariant 0 <= i <= size && (i < size ==> it == nodes[i]) && (i == size ==> it == null)
        invariant if index < 0 then i == 0 else i <= index - 1
        modifies {}
      {
        LinkOf(nodes, repr, i);
        it := it.next;
        i := i + 1;
      }
      if i < size { LinkOf(nodes, repr, i); }
      if it == null || it.next == null {
        return -1, true;
      }
      fd := UnlinkAfter(it, i);
    }

    /** Takes num random entries out and closes their descriptors. */
    method DiscardX(num: int, rand: nat -> nat) returns (closed: seq<int>)
      requires Valid()
      modifies this, repr
      ensures Valid() && repr == old(repr)
      ensures Contents() == Kept(old(Contents()), num, rand, 0)
      ensures closed == Fds(Discarded(old(Contents()), num, rand, 0))
      ensures |closed| == if num <= 0 then 0 else Least(num, |old(Contents())|)
      ensures forall j :: 0 <= j < |closed| ==>
        OneTaken(Kept(old(Contents()), j, rand, 0), rand(j), closed[j], Kept(old(Contents()), j + 1, rand, 0))
    {
      hide Kept, Discarded, Without, Fds, NextOf, Entries, Removes, Pick;
      var left := if num < Size() then num else Size();
      CapIsHarmless(Contents(), num, rand, 0);
      closed := [];
      var k: nat := 0;
      ghost var q := Contents();
      DiscardNone(q, left, rand, k);
      while left > 0
        invariant Valid() && left <= |Contents()| && repr == old(repr)
        invariant Kept(q, num, rand, 0) == Kept(Contents(), left, rand, k)
        invariant Fds(Discarded(q, num, rand, 0)) == closed + Fds(Discarded(Contents(), left, rand, k))
        decreases left
      {
        DiscardNext(Contents(), left, rand, k, closed);
        PickRemoves(size, rand(k));
        var p, crash := RemoveByIndex(Pick(rand(k), size));
        closed := closed + [p];
        left, k := left - 1, k + 1;
      }
      DiscardNone(Contents(), left, rand, k);
      assert closed + [] == closed;
      DiscardCount(q, num, rand, 0);
      forall j | 0 <= j < |closed|
        ensures OneTaken(Kept(q, j, rand, 0), rand(j), closed[j], Kept(q, j + 1, rand, 0))
      {
        ClosedInTurn(q, num, rand, j);
      }
    }
  }
}
