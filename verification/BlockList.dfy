/** The sorted doubly linked list of all heap blocks, free or not. */
module BlockListModel {
  import opened Memory
  import opened Tiling

  const NULL: int := 0

  /** The order of the list: by payload size, then by address. */
  ghost predicate Before(ws: map<int, int>, a: int, b: int)
    requires a in ws && b in ws
  {
    ws[a] < ws[b] || (ws[a] == ws[b] && a < b)
  }

  /** The block at h is free and has room for size bytes. */
  ghost predicate Fits(ws: map<int, int>, h: int, size: int) {
    h in ws && h + 8 in ws && ws[h + 8] != 0 && ws[h] >= size
  }

  ghost predicate Sized(ws: map<int, int>, o: seq<int>) {
    forall i :: 0 <= i < |o| ==> o[i] in ws
  }

  ghost predicate Sorted(ws: map<int, int>, o: seq<int>) {
    Sized(ws, o) && forall i, j :: 0 <= i < j < |o| ==> Before(ws, o[i], o[j])
  }

  /** Headers occupy disjoint ranges of memory. */
  ghost predicate Apart(o: seq<int>) {
    && (forall i :: 0 <= i < |o| ==> 0 < o[i])
    && forall i, j :: 0 <= i < j < |o| ==> o[i] + SOM <= o[j] || o[j] + SOM <= o[i]
  }

  ghost predicate ApartFrom(a: int, o: seq<int>) {
    0 < a && forall h :: h in o ==> h + SOM <= a || a + SOM <= h
  }

  ghost predicate LinkIs(ws: map<int, int>, field: int, v: int) { field in ws && ws[field] == v }

  ghost function At(o: seq<int>, i: int): int { if 0 <= i < |o| then o[i] else NULL }

  /** The links in memory, started at head, spell out exactly o, in both directions. */
  ghost predicate Linked(ws: map<int, int>, head: int, o: seq<int>) {
    && head == At(o, 0)
    && forall i {:trigger NodeAt(ws, o, i)} :: 0 <= i < |o| ==> NodeAt(ws, o, i)
  }

  ghost predicate NodeAt(ws: map<int, int>, o: seq<int>, i: int)
    requires 0 <= i < |o|
  {
    LinkIs(ws, o[i] + 16, At(o, i + 1)) && LinkIs(ws, o[i] + 24, At(o, i - 1))
  }

  ghost function Inserted(o: seq<int>, k: int, a: int): (r: seq<int>)
    requires 0 <= k <= |o|
    ensures |r| == |o| + 1
    ensures forall i {:trigger r[i]} :: 0 <= i < |r| ==> r[i] == if i < k then o[i] else if i == k then a else o[i - 1]
  {
    o[..k] + [a] + o[k..]
  }

  ghost function Without(o: seq<int>, a: int): seq<int> {
    if o == [] then [] else if o[0] == a then o[1..] else [o[0]] + Without(o[1..], a)
  }

  lemma {:induction false} WithoutMembers(o: seq<int>, a: int)
    ensures multiset(Without(o, a)) == multiset(o) - multiset{a}
  {
    if o != [] {
      ConsMembers(o[0], o[1..]);
      assert o == [o[0]] + o[1..];
      if o[0] != a {
        WithoutMembers(o[1..], a);
        ConsMembers(o[0], Without(o[1..], a));
        TakenFromRest(multiset(o[1..]), o[0], a);
      }
    }
  }

  lemma ConsMembers(x: int, o: seq<int>)
    ensures multiset([x] + o) == multiset{x} + multiset(o)
  {
  }

  lemma TakenFromRest(m: multiset<int>, x: int, a: int)
    requires x != a
    ensures multiset{x} + (m - multiset{a}) == multiset{x} + m - multiset{a}
  {
  }

  lemma {:induction false} WithoutAt(o: seq<int>, k: int, a: int)
    requires 0 <= k < |o| && o[k] == a && forall i :: 0 <= i < k ==> o[i] != a
    ensures Without(o, a) == o[..k] + o[k + 1..]
  {
    if k > 0 {
      WithoutAt(o[1..], k - 1, a);
      assert o[1..][..k - 1] == o[1..k] && o[1..][k..] == o[k + 1..];
    }
  }

  lemma InsertedMembers(o: seq<int>, k: int, a: int)
    requires 0 <= k <= |o|
    ensures multiset(Inserted(o, k, a)) == multiset(o) + multiset{a}
  {
    assert o == o[..k] + o[k..];
  }

  /** The links are right again once a sits between its two neighbours. */
  lemma InsertLinks(ws: map<int, int>, ws': map<int, int>, head: int, o: seq<int>, k: int, a: int)
    requires Linked(ws, head, o) && 0 <= k <= |o|
    requires LinkIs(ws', a + 16, At(o, k)) && LinkIs(ws', a + 24, At(o, k - 1))
    requires k > 0 ==> LinkIs(ws', o[k - 1] + 16, a)
    requires k < |o| ==> LinkIs(ws', o[k] + 24, a)
    requires forall i :: 0 <= i < |o| && i != k - 1 ==> LinkIs(ws', o[i] + 16, At(o, i + 1))
    requires forall i :: 0 <= i < |o| && i != k ==> LinkIs(ws', o[i] + 24, At(o, i - 1))
    ensures Linked(ws', if k == 0 then a else head, Inserted(o, k, a))
  {
    hide Inserted, At, LinkIs;
    var r := Inserted(o, k, a);
    forall i {:trigger NodeAt(ws', r, i)} | 0 <= i < |r| ensures NodeAt(ws', r, i) {
      InsertedAt(o, k, a, i);
      InsertedAt(o, k, a, i - 1);
      InsertedAt(o, k, a, i + 1);
    }
    InsertedAt(o, k, a, 0);
  }

  lemma InsertedAt(o: seq<int>, k: int, a: int, x: int)
    requires 0 <= k <= |o|
    ensures At(Inserted(o, k, a), x) == if x < k then At(o, x) else if x == k then a else At(o, x - 1)
    ensures 0 <= x <= |o| ==> Inserted(o, k, a)[x] == At(Inserted(o, k, a), x)
    ensures 0 <= x < |o| ==> o[x] == At(o, x)
    ensures 0 < x <= |o| ==> o[x - 1] == At(o, x - 1)
  {
    hide Inserted;
  }

  lemma InsertSorted(ws: map<int, int>, o: seq<int>, k: int, a: int)
    requires Sorted(ws, o) && a in ws && 0 <= k <= |o|
    requires k > 0 ==> Before(ws, o[k - 1], a)
    requires k < |o| ==> Before(ws, a, o[k])
    ensures Sorted(ws, Inserted(o, k, a)) && Sized(ws, Inserted(o, k, a))
  {
  }

  lemma RemoveLinks(ws: map<int, int>, ws': map<int, int>, head: int, o: seq<int>, k: int)
    requires Linked(ws, head, o) && 0 <= k < |o|
    requires k > 0 ==> LinkIs(ws', o[k - 1] + 16, At(o, k + 1))
    requires k + 1 < |o| ==> LinkIs(ws', o[k + 1] + 24, At(o, k - 1))
    requires forall i :: 0 <= i < |o| && i != k - 1 && i != k ==> LinkIs(ws', o[i] + 16, At(o, i + 1))
    requires forall i :: 0 <= i < |o| && i != k + 1 && i != k ==> LinkIs(ws', o[i] + 24, At(o, i - 1))
    ensures Linked(ws', if k == 0 then At(o, 1) else head, o[..k] + o[k + 1..])
  {
    hide At, LinkIs;
    var r := o[..k] + o[k + 1..];
    forall i {:trigger NodeAt(ws', r, i)} | 0 <= i < |r| ensures NodeAt(ws', r, i) {
      RemovedAt(o, k, i);
      RemovedAt(o, k, i - 1);
      RemovedAt(o, k, i + 1);
    }
    RemovedAt(o, k, 0);
  }

  lemma RemovedAt(o: seq<int>, k: int, x: int)
    requires 0 <= k < |o|
    ensures At(o[..k] + o[k + 1..], x) == At(o, if x < k then x else x + 1)
    ensures 0 <= x < |o| - 1 ==> (o[..k] + o[k + 1..])[x] == o[if x < k then x else x + 1]
  {
  }

  lemma ApartMember(o: seq<int>, i: int, h: int)
    requires Apart(o) && 0 <= i < |o| && h in o && h != o[i]
    ensures h + SOM <= o[i] || o[i] + SOM <= h
  {
  }

  /** A strictly sorted list is determined by its members. */
  lemma {:induction false} SortedUnique(ws: map<int, int>, o: seq<int>, p: seq<int>)
    requires Sorted(ws, o) && Sorted(ws, p) && multiset(o) == multiset(p)
    ensures o == p
  {
    hide Sorted;
    assert |multiset(o)| == |o| && |multiset(p)| == |p|;
    if o != [] {
      FirstIsFirst(ws, o, p);
      SortedTail(ws, o);
      SortedTail(ws, p);
      SortedUnique(ws, o[1..], p[1..]);
    }
  }

  lemma SortedTail(ws: map<int, int>, o: seq<int>)
    requires Sorted(ws, o) && o != []
    ensures Sorted(ws, o[1..]) && multiset(o[1..]) == multiset(o) - multiset{o[0]} && o == [o[0]] + o[1..]
  {
    assert o == [o[0]] + o[1..];
  }

  lemma FirstIsFirst(ws: map<int, int>, o: seq<int>, p: seq<int>)
    requires Sorted(ws, o) && Sorted(ws, p) && multiset(o) == multiset(p) && o != [] && p != []
    ensures o[0] == p[0]
  {
    assert o[0] in multiset(p) && p[0] in multiset(o);
    var i :| 0 <= i < |p| && p[i] == o[0];
    var j :| 0 <= j < |o| && o[j] == p[0];
  }

  /** m is m0 with a linked between its neighbours p and n (either may be NULL), in whatever
      order the link fields were written. */
  ghost predicate LinkedIn(m0: Memory, m: Memory, a: int, p: int, n: int) {
    && LinkIs(m.words, a + 16, n) && LinkIs(m.words, a + 24, p)
    && (p != NULL ==> LinkIs(m.words, p + 16, a))
    && (n != NULL ==> LinkIs(m.words, n + 24, a))
    && (forall y :: y in m0.words && WordOff(y, a + 16) && WordOff(y, a + 24)
                    && (p == NULL || WordOff(y, p + 16)) && (n == NULL || WordOff(y, n + 24))
                    ==> LinkIs(m.words, y, m0.words[y]))
    && (forall y :: y in m0.bytes && ByteOff(y, a + 16) && ByteOff(y, a + 24)
                    && (p == NULL || ByteOff(y, p + 16)) && (n == NULL || ByteOff(y, n + 24))
                    ==> y in m.bytes && m.bytes[y] == m0.bytes[y])
  }

  ghost predicate WordOff(y: int, field: int) { y + 8 <= field || field + 8 <= y }

  ghost predicate ByteOff(y: int, field: int) { y < field || field + 8 <= y }

  /** Four link writes, the last two skipped at the ends of the list, link a in. */
  lemma ChainLinkedIn(m0: Memory, m1: Memory, m2: Memory, m3: Memory, m4: Memory, a: int, p: int, n: int)
    requires Stored(m0, m1, a + 16, n) && Stored(m1, m2, a + 24, p)
    requires if p == NULL then m3 == m2 else Stored(m2, m3, p + 16, a)
    requires if n == NULL then m4 == m3 else Stored(m3, m4, n + 24, a)
    requires p != NULL ==> p + SOM <= a || a + SOM <= p
    requires n != NULL ==> n + SOM <= a || a + SOM <= n
    requires p != NULL && n != NULL ==> p + SOM <= n || n + SOM <= p
    ensures LinkedIn(m0, m4, a, p, n)
  {
  }

  lemma AddFrame(m0: Memory, m: Memory, o: seq<int>, k: int, a: int)
    requires 0 <= k <= |o| && LinkedIn(m0, m, a, At(o, k - 1), At(o, k))
    ensures Frame(m0, m, 0, 0, Inserted(o, k, a))
  {
    var r := Inserted(o, k, a);
    assert r[k] in r;
    assert k > 0 ==> r[k - 1] in r;
    assert k < |o| ==> r[k + 1] in r;
  }

  lemma AddLinks(m0: Memory, m: Memory, head: int, o: seq<int>, k: int, a: int)
    requires Apart(o) && Linked(m0.words, head, o) && ApartFrom(a, o) && 0 <= k <= |o|
    requires LinkedIn(m0, m, a, At(o, k - 1), At(o, k))
    ensures Linked(m.words, if k == 0 then a else head, Inserted(o, k, a))
  {
    forall i | 0 <= i < |o|
      ensures i != k - 1 ==> LinkIs(m.words, o[i] + 16, At(o, i + 1))
      ensures i != k ==> LinkIs(m.words, o[i] + 24, At(o, i - 1))
    {
      assert o[i] in o && NodeAt(m0.words, o, i);
    }
    InsertLinks(m0.words, m.words, head, o, k, a);
  }

  lemma AddSizes(m0: Memory, m: Memory, o: seq<int>, k: int, a: int)
    requires Apart(o) && Sorted(m0.words, o) && ApartFrom(a, o) && a in m0.words && 0 <= k <= |o|
    requires LinkedIn(m0, m, a, At(o, k - 1), At(o, k))
    requires k > 0 ==> Before(m0.words, o[k - 1], a)
    requires k < |o| ==> Before(m0.words, a, o[k])
    ensures Sorted(m.words, Inserted(o, k, a))
  {
    hide Sorted, LinkedIn, Apart, ApartFrom, Inserted;
    var r := Inserted(o, k, a);
    InsertSorted(m0.words, o, k, a);
    forall i | 0 <= i < |r| ensures LinkIs(m.words, r[i], m0.words[r[i]]) {
      assert i != k ==> r[i] in o;
      SizeStays(m0, m, o, k, a, r[i]);
    }
    SizesKept(m0.words, m.words, r);
  }

  lemma SizeStays(m0: Memory, m: Memory, o: seq<int>, k: int, a: int, h: int)
    requires Apart(o) && ApartFrom(a, o) && 0 <= k <= |o| && LinkedIn(m0, m, a, At(o, k - 1), At(o, k))
    requires (h == a || h in o) && h in m0.words
    ensures LinkIs(m.words, h, m0.words[h])
  {
    assert k > 0 ==> o[k - 1] in o;
    assert k < |o| ==> o[k] in o;
  }

  lemma AddDone(m0: Memory, m: Memory, head: int, o: seq<int>, k: int, a: int, r: seq<int>)
    requires Apart(o) && Linked(m0.words, head, o) && Sorted(m0.words, o)
    requires ApartFrom(a, o) && a in m0.words && 0 <= k <= |o| && r == Inserted(o, k, a)
    requires LinkedIn(m0, m, a, At(o, k - 1), At(o, k))
    requires k > 0 ==> Before(m0.words, o[k - 1], a)
    requires k < |o| ==> Before(m0.words, a, o[k])
    ensures Apart(r) && Linked(m.words, if k == 0 then a else head, r)
    ensures Sorted(m.words, r)
    ensures multiset(r) == multiset(o) + multiset{a}
    ensures Frame(m0, m, 0, 0, r)
  {
    AddFrame(m0, m, o, k, a);
    AddLinks(m0, m, head, o, k, a);
    AddSizes(m0, m, o, k, a);
    ApartInserted(o, k, a);
    InsertedMembers(o, k, a);
  }

  lemma ApartInserted(o: seq<int>, k: int, a: int)
    requires Apart(o) && ApartFrom(a, o) && 0 <= k <= |o|
    ensures Apart(Inserted(o, k, a))
  {
    hide Inserted;
    var r := Inserted(o, k, a);
    forall i | 0 <= i < |r| ensures r[i] == (if i == k then a else r[i]) && (i != k ==> r[i] in o) {
    }
    forall i, j | 0 <= i < j < |r| ensures r[i] + SOM <= r[j] || r[j] + SOM <= r[i] {
      if i != k && j != k { assert r[i] == o[if i < k then i else i - 1] && r[j] == o[if j < k then j else j - 1]; }
    }
  }

  /** m is m0 with the two neighbours p and n (either may be NULL) linked to each other. */
  ghost predicate Unlinked(m0: Memory, m: Memory, p: int, n: int) {
    && (p != NULL ==> LinkIs(m.words, p + 16, n))
    && (n != NULL ==> LinkIs(m.words, n + 24, p))
    && (forall y :: y in m0.words && (p == NULL || WordOff(y, p + 16)) && (n == NULL || WordOff(y, n + 24)) ==>
          LinkIs(m.words, y, m0.words[y]))
    && (forall y :: y in m0.bytes && (p == NULL || ByteOff(y, p + 16)) && (n == NULL || ByteOff(y, n + 24)) ==>
          y in m.bytes && m.bytes[y] == m0.bytes[y])
  }

  lemma RemoveDone(m0: Memory, m: Memory, head: int, o: seq<int>, k: int, r: seq<int>)
    requires Apart(o) && Linked(m0.words, head, o) && 0 <= k < |o| && r == Without(o, o[k])
    requires forall j :: 0 <= j < k ==> o[j] != o[k]
    requires Unlinked(m0, m, At(o, k - 1), At(o, k + 1))
    ensures Apart(r) && Linked(m.words, if k == 0 then At(o, 1) else head, r)
    ensures Frame(m0, m, 0, 0, o)
  {
    hide Without, Linked, Apart, Frame, Unlinked, LinkIs;
    RemoveFrame(m0, m, o, k);
    LinksAround(m0, m, head, o, k);
    RemoveLinks(m0.words, m.words, head, o, k);
    WithoutAt(o, k, o[k]);
    ApartRemoved(o, k);
  }

  lemma LinksAround(m0: Memory, m: Memory, head: int, o: seq<int>, k: int)
    requires Apart(o) && Linked(m0.words, head, o) && 0 <= k < |o|
    requires Unlinked(m0, m, At(o, k - 1), At(o, k + 1))
    ensures k > 0 ==> LinkIs(m.words, o[k - 1] + 16, At(o, k + 1))
    ensures k + 1 < |o| ==> LinkIs(m.words, o[k + 1] + 24, At(o, k - 1))
    ensures forall i :: 0 <= i < |o| && i != k - 1 && i != k ==> LinkIs(m.words, o[i] + 16, At(o, i + 1))
    ensures forall i :: 0 <= i < |o| && i != k + 1 && i != k ==> LinkIs(m.words, o[i] + 24, At(o, i - 1))
  {
    forall i | 0 <= i < |o|
      ensures i != k - 1 && i != k ==> LinkIs(m.words, o[i] + 16, At(o, i + 1))
      ensures i != k + 1 && i != k ==> LinkIs(m.words, o[i] + 24, At(o, i - 1))
    {
      assert NodeAt(m0.words, o, i);
    }
  }

  lemma ApartRemoved(o: seq<int>, k: int)
    requires Apart(o) && 0 <= k < |o|
    ensures Apart(o[..k] + o[k + 1..])
  {
  }

  lemma RemoveFrame(m0: Memory, m: Memory, o: seq<int>, k: int)
    requires 0 <= k < |o| && Unlinked(m0, m, At(o, k - 1), At(o, k + 1))
    ensures Frame(m0, m, 0, 0, o)
  {
    assert k > 0 ==> o[k - 1] in o;
    assert k + 1 < |o| ==> o[k + 1] in o;
  }

  lemma SizesKept(ws: map<int, int>, ws': map<int, int>, o: seq<int>)
    requires Sorted(ws, o)
    requires forall i :: 0 <= i < |o| ==> LinkIs(ws', o[i], ws[o[i]])
    ensures Sorted(ws', o)
  {
  }

  /** The footer of t overlaps no header of o, those in gone apart. */
  ghost predicate RoomBut(o: seq<int>, t: Tile, gone: set<int>) {
    forall h :: h in o && h !in gone ==> h + SOM <= Footer(t) || End(t) <= h
  }

  /** o without the elements in gone is sorted. */
  ghost predicate SortedBut(ws: map<int, int>, o: seq<int>, gone: set<int>) {
    && (forall i :: 0 <= i < |o| && o[i] !in gone ==> o[i] in ws)
    && forall i, j :: 0 <= i < j < |o| && o[i] !in gone && o[j] !in gone ==> Before(ws, o[i], o[j])
  }

  lemma FooterDone(m: Memory, m': Memory, head: int, o: seq<int>, t: Tile)
    requires Apart(o) && Linked(m.words, head, o) && Sorted(m.words, o) && RoomBut(o, t, {})
    requires Records(m.words, t.addr, t) && Moved(m, m', Footer(t), t.addr, SOM)
    ensures Linked(m'.words, head, o) && Sorted(m'.words, o)
    ensures Frame(m, m', Footer(t), End(t), []) && TileCells(m'.words, t)
  {
    forall i | 0 <= i < |o| ensures NodeAt(m'.words, o, i) && LinkIs(m'.words, o[i], m.words[o[i]]) {
      assert NodeAt(m.words, o, i) && o[i] in o;
    }
    SizesKept(m.words, m'.words, o);
  }

  /** List operations leave size and is_free of every header alone. */
  lemma FrameKeepsHeaders(m: Memory, m': Memory, o: seq<int>)
    requires Apart(o) && Frame(m, m', 0, 0, o)
    ensures forall h :: h in o && h in m.words ==> LinkIs(m'.words, h, m.words[h])
    ensures forall h :: h in o && h + 8 in m.words ==> LinkIs(m'.words, h + 8, m.words[h + 8])
  {
  }

  lemma WithoutHas(o: seq<int>, k: int)
    requires Apart(o) && 0 <= k < |o|
    ensures Without(o, o[k]) == o[..k] + o[k + 1..]
    ensures forall h :: h in Without(o, o[k]) <==> h in o && h != o[k]
  {
    hide Without;
    WithoutAt(o, k, o[k]);
    forall h ensures h in o[..k] + o[k + 1..] <==> h in o && h != o[k] { RemovedHas(o, k, h); }
  }

  lemma RemovedHas(o: seq<int>, k: int, h: int)
    requires Apart(o) && 0 <= k < |o|
    ensures h in o[..k] + o[k + 1..] <==> h in o && h != o[k]
  {
    assert o == o[..k] + [o[k]] + o[k + 1..];
  }

  lemma WithoutApart(o: seq<int>, x: int)
    requires Apart(o) && x in o
    ensures multiset(Without(o, x)) == multiset(o) - multiset{x}
    ensures ApartFrom(x, Without(o, x)) && Apart(Without(o, x))
    ensures forall h :: h in Without(o, x) <==> h in o && h != x
  {
    hide Without;
    var k :| 0 <= k < |o| && o[k] == x;
    WithoutMembers(o, x);
    WithoutHas(o, k);
    ApartRemoved(o, k);
    forall h | h in o && h != x ensures h + SOM <= x || x + SOM <= h { ApartMember(o, k, h); }
  }

  /** What the removal of x leaves for the rest of a Rethread to rely on. */
  lemma AfterRemove(m0: Memory, m1: Memory, o0: seq<int>, o1: seq<int>, x: int, gone: set<int>, rest: set<int>,
                    t: Tile, keep: int)
    requires gone == {x} + rest && Apart(o0) && x in o0 && o1 == Without(o0, x) && Frame(m0, m1, 0, 0, o0)
    requires keep == x || keep in rest || ApartFrom(keep, o0)
    requires keep in rest ==> keep in o0
    requires keep == t.addr && Records(m0.words, keep, t)
    requires SortedBut(m0.words, o0, gone) && RoomBut(o0, t, gone)
    ensures keep in rest || ApartFrom(keep, o1)
    ensures Records(m1.words, keep, t)
    ensures SortedBut(m1.words, o1, rest) && RoomBut(o1, t, rest)
    ensures rest == {} ==> Sorted(m1.words, o1)
    ensures forall h :: h in o1 <==> h in o0 && h != x
  {
    hide Without, Apart, ApartFrom, Frame, SortedBut, RoomBut, Records, Sorted;
    WithoutApart(o0, x);
    RecordStays(m0, m1, o0, t);
    var k :| 0 <= k < |o0| && o0[k] == x;
    WithoutHas(o0, k);
    ApartDistinct(o0, k);
    FrameKeepsHeaders(m0, m1, o0);
    SortedButWithout(m0.words, m1.words, o0, k, rest);
    FewerHeaders(m1.words, o0, o1, x, t, rest, keep);
  }

  lemma RecordStays(m0: Memory, m1: Memory, o: seq<int>, t: Tile)
    requires Apart(o) && (t.addr in o || ApartFrom(t.addr, o)) && Frame(m0, m1, 0, 0, o) && Records(m0.words, t.addr, t)
    ensures Records(m1.words, t.addr, t)
  {
    if t.addr in o {
      FrameKeepsHeaders(m0, m1, o);
    } else {
      FrameKeepsApart(m0, m1, o, t);
    }
  }

  lemma ApartDistinct(o: seq<int>, k: int)
    requires Apart(o) && 0 <= k < |o|
    ensures forall i :: 0 <= i < |o| && i != k ==> o[i] != o[k]
  {
  }

  lemma FewerHeaders(ws: map<int, int>, o0: seq<int>, o1: seq<int>, x: int, t: Tile, rest: set<int>, keep: int)
    requires forall h :: h in o1 <==> h in o0 && h != x
    ensures RoomBut(o0, t, {x} + rest) ==> RoomBut(o1, t, rest)
    ensures ApartFrom(keep, o0) ==> ApartFrom(keep, o1)
    ensures SortedBut(ws, o1, {}) ==> Sorted(ws, o1)
  {
  }

  lemma RethreadCounts(a: multiset<int>, b: multiset<int>, c: multiset<int>, x: int, rest: multiset<int>, keep: int)
    requires b == a - multiset{x} && c == b - rest + multiset{keep}
    ensures c == a - (multiset{x} + rest) + multiset{keep}
  {
  }

  lemma RethreadMembers(o0: seq<int>, o1: seq<int>, o: seq<int>, x: int, rest: multiset<int>, keep: int)
    requires multiset(o1) == multiset(o0) - multiset{x}
    requires multiset(o) == multiset(o1) - rest + multiset{keep}
    ensures multiset(o) == multiset(o0) - (multiset{x} + rest) + multiset{keep}
    ensures forall h :: h in o ==> h in o1 + [keep]
    ensures forall h :: h in o1 ==> h in o0
  {
    RethreadCounts(multiset(o0), multiset(o1), multiset(o), x, rest, keep);
    forall h | h in o ensures h in o1 + [keep] { assert h in multiset(o); }
    forall h | h in o1 ensures h in o0 { assert h in multiset(o1); }
  }

  lemma OutAndIn(o0: seq<int>, o1: seq<int>, o2: seq<int>, a: int)
    requires a in o0 && multiset(o1) == multiset(o0) - multiset{a} && multiset(o2) == multiset(o1) + multiset{a}
    ensures multiset(o2) == multiset(o0)
  {
    assert a in multiset(o0);
  }

  lemma OneMore(x: int, y: int, z: int)
    ensures multiset{x} + multiset{y} == multiset{x, y} && multiset{x} + multiset{y, z} == multiset{x, y, z}
  {
  }

  lemma SortedButWithout(ws: map<int, int>, ws': map<int, int>, o: seq<int>, k: int, rest: set<int>)
    requires 0 <= k < |o| && SortedBut(ws, o, {o[k]} + rest)
    requires forall h :: h in o && h in ws ==> LinkIs(ws', h, ws[h])
    requires forall i :: 0 <= i < |o| && i != k ==> o[i] != o[k]
    ensures SortedBut(ws', o[..k] + o[k + 1..], rest)
  {
  }

  /** Writing links and the new footer of a block leaves its payload alone. */
  lemma PayloadUnwritten(m: Memory, m': Memory, o: seq<int>, t: Tile, lo: int, hi: int)
    requires Frame(m, m', lo, hi, o) && (hi <= lo || Footer(t) <= lo)
    requires forall h :: h in o ==> h == t.addr || h + SOM <= t.addr || End(t) <= h
    ensures InnerKept(m, m', Payload(t), Footer(t))
  {
    assert forall y :: Payload(t) <= y && y + 8 <= Footer(t) ==> WordClear(y, lo, hi, o);
    assert forall y :: Payload(t) <= y < Footer(t) ==> ByteClear(y, lo, hi, o);
  }

  /** Writing a header where no listed block reaches. */
  lemma FreshHeader(m0: Memory, m1: Memory, m2: Memory, head: int, o: seq<int>, t: Tile)
    requires Linked(m0.words, head, o) && Sorted(m0.words, o)
    requires Stored(m0, m1, t.addr, t.size) && Stored(m1, m2, t.addr + 8, Flag(t.free))
    requires forall x :: x in o ==> x + SOM <= t.addr || End(t) <= x
    ensures Linked(m2.words, head, o) && Sorted(m2.words, o)
    ensures Records(m2.words, t.addr, t) && Frame(m0, m2, t.addr, End(t), [])
    ensures InnerKept(m0, m2, Payload(t), Footer(t))
  {
    forall i | 0 <= i < |o| ensures NodeAt(m2.words, o, i) && LinkIs(m2.words, o[i], m0.words[o[i]]) {
      assert NodeAt(m0.words, o, i) && o[i] in o;
    }
    SizesKept(m0.words, m2.words, o);
    assert forall y :: WordClear(y, t.addr, End(t), []) ==> y + 8 <= t.addr || End(t) <= y;
    assert forall y :: ByteClear(y, t.addr, End(t), []) ==> y < t.addr || End(t) <= y;
  }

  lemma RemovedSorted(m0: Memory, m1: Memory, o0: seq<int>, o1: seq<int>, x: int)
    requires Apart(o0) && x in o0 && o1 == Without(o0, x) && Frame(m0, m1, 0, 0, o0) && Sorted(m0.words, o0)
    ensures Sorted(m1.words, o1)
  {
    hide Without;
    var k :| 0 <= k < |o0| && o0[k] == x;
    WithoutHas(o0, k);
    FrameKeepsHeaders(m0, m1, o0);
    SortedButWithout(m0.words, m1.words, o0, k, {});
  }

  lemma Grown(o: seq<int>, o': seq<int>, a: int)
    requires multiset(o') == multiset(o) + multiset{a}
    ensures forall h :: h in o' <==> h in o || h == a
  {
    forall h ensures h in o' <==> h in o || h == a {
      assert h in o' <==> h in multiset(o');
      assert h in o <==> h in multiset(o);
    }
  }

  lemma FrameKeepsApart(m: Memory, m': Memory, o: seq<int>, t: Tile)
    requires Frame(m, m', 0, 0, o) && ApartFrom(t.addr, o) && Records(m.words, t.addr, t)
    ensures Records(m'.words, t.addr, t)
  {
  }

  lemma FootKeepsRecord(m: Memory, m': Memory, l: Tile, h: Tile)
    requires Frame(m, m', Footer(h), End(h), []) && End(l) == h.addr && Records(m.words, l.addr, l)
    ensures Records(m'.words, l.addr, l)
  {
  }

  lemma FootKeepsCells(m: Memory, m': Memory, l: Tile, h: Tile)
    requires Frame(m, m', Footer(l), End(l), []) && End(l) == h.addr && TileCells(m.words, h)
    ensures TileCells(m'.words, h)
  {
  }

  /** What a walk that looks for the place of block a finds at listed block i. */
  lemma StepAt(ws: map<int, int>, head: int, o: seq<int>, a: int, i: int)
    requires Apart(o) && Linked(ws, head, o) && Sorted(ws, o) && ApartFrom(a, o) && 0 <= i < |o|
    ensures 0 < o[i] != a && o[i] in ws && LinkIs(ws, o[i] + 16, At(o, i + 1))
    ensures At(o, i + 1) == NULL <==> i + 1 == |o|
    ensures i + 1 < |o| ==> o[i + 1] in ws && Before(ws, o[i], o[i + 1])
  {
    assert NodeAt(ws, o, i) && o[i] in o;
  }

  lemma HeadAt(ws: map<int, int>, head: int, o: seq<int>)
    requires Apart(o) && Linked(ws, head, o)
    ensures head == At(o, 0) && (head == NULL <==> o == [])
  {
  }

  class BlockList {
    var mem: Memory
    var head: int
    var wilderness: int
    var count: int
    ghost var order: seq<int>

    constructor ()
      ensures mem == Memory(map[], map[]) && head == NULL && wilderness == NULL && count == 0 && order == []
    {
      mem := Memory(map[], map[]);
      head, wilderness, count, order := NULL, NULL, 0, [];
    }

    /** Everything about the list except that it is sorted: a block whose size is changed
        while linked is out of place until it is removed. */
    ghost predicate Threaded()
      reads this
    {
      Apart(order) && Linked(mem.words, head, order)
    }

    lemma ThreadedParts()
      ensures Threaded() <==> Apart(order) && Linked(mem.words, head, order)
    {
      hide Apart, Linked;
    }

    method Write(a: int, v: int)
      modifies this`mem
      ensures Stored(old(mem), mem, a, v)
    {
      mem := Store(mem, a, v);
    }

    method SetSize(a: int, v: int)
      modifies this`mem
      ensures Stored(old(mem), mem, a, v)
    {
      Write(a, v);
    }

    method SetFree(a: int, v: int)
      modifies this`mem
      ensures Stored(old(mem), mem, a + 8, v)
    {
      Write(a + 8, v);
    }

    method SetNext(a: int, v: int)
      modifies this`mem
      ensures Stored(old(mem), mem, a + 16, v)
    {
      Write(a + 16, v);
    }

    method SetPrev(a: int, v: int)
      modifies this`mem
      ensures Stored(old(mem), mem, a + 24, v)
    {
      Write(a + 24, v);
    }

    method InsertFront(metadata: int)
      requires Threaded() && ApartFrom(metadata, order)
      modifies this`mem, this`head
      ensures LinkedIn(old(mem), mem, metadata, NULL, At(order, 0)) && head == metadata
    {
      ghost var m0 := mem;
      if head == NULL {
        assert order == [];
        head := metadata;
        SetNext(head, NULL);
        ghost var m1 := mem;
        SetPrev(head, NULL);
        ChainLinkedIn(m0, m1, mem, mem, mem, metadata, NULL, NULL);
      } else {
        assert NodeAt(mem.words, order, 0) && order[0] in order;
        SetNext(metadata, head);
        ghost var m1 := mem;
        SetPrev(metadata, mem.words[head + 24]);
        ghost var m2 := mem;
        SetPrev(mem.words[metadata + 16], metadata);
        ChainLinkedIn(m0, m1, m2, m2, mem, metadata, NULL, head);
        head := metadata;
      }
    }

    method InsertAfter(iter: int, metadata: int, ghost k: int)
      requires Threaded() && ApartFrom(metadata, order)
      requires 0 <= k < |order| && iter == order[k]
      modifies this`mem
      ensures LinkedIn(old(mem), mem, metadata, iter, At(order, k + 1))
    {
      assert NodeAt(mem.words, order, k) && order[k] in order;
      assert k + 1 < |order| ==> order[k + 1] in order;
      ghost var m0, n := mem, At(order, k + 1);
      SetNext(metadata, mem.words[iter + 16]);
      ghost var m1 := mem;
      SetPrev(metadata, iter);
      ghost var m2 := mem;
      SetNext(iter, metadata);
      ghost var m3 := mem;
      if mem.words[metadata + 16] != NULL {
        SetPrev(mem.words[metadata + 16], metadata);
      }
      ChainLinkedIn(m0, m1, m2, m3, mem, metadata, iter, n);
    }

    /** The branch for a block that ties with the second list element is dead, and so is the
        exit of the loop: the walk always finds the place. */
    method FindPlace(metadata: int) returns (iter: int, ghost k: int)
      requires Threaded() && Sorted(mem.words, order) && ApartFrom(metadata, order) && metadata in mem.words
      ensures 0 <= k <= |order| && iter == At(order, k - 1)
      ensures k > 0 ==> Before(mem.words, order[k - 1], metadata)
      ensures k < |order| ==> Before(mem.words, metadata, order[k])
    {
      hide Linked, Apart, Sorted, ApartFrom;
      HeadAt(mem.words, head, order);
      if head == NULL {
        return NULL, 0;
      }
      StepAt(mem.words, head, order, metadata, 0);
      if |order| > 1 { StepAt(mem.words, head, order, metadata, 1); }
      if mem.words[metadata] <= mem.words[head] {
        if mem.words[metadata] < mem.words[head] || (mem.words[metadata] == mem.words[head] && metadata < head) {
          return NULL, 0;
        } else if !(mem.words[head + 16] != NULL && mem.words[mem.words[head + 16]] == mem.words[metadata]
                    && metadata > mem.words[head + 16]) {
          return head, 1;
        }
      }
      iter, k := head, 1;
      while iter != NULL
        invariant 0 < k <= |order| && 0 < iter == order[k - 1] && iter in mem.words && Before(mem.words, iter, metadata)
        decreases |order| - k
      {
        StepAt(mem.words, head, order, metadata, k - 1);
        if k < |order| { StepAt(mem.words, head, order, metadata, k); }
        var next := mem.words[iter + 16];
        if next == NULL {
          return;
        }
        if mem.words[metadata] <= mem.words[next] {
          if mem.words[metadata] < mem.words[next] || (mem.words[metadata] == mem.words[next] && metadata < next) {
            return;
          } else if !(mem.words[head + 16] != NULL && mem.words[next] == mem.words[metadata] && metadata > next) {
            assert false;
          }
        }
        iter, k := next, k + 1;
      }
    }

    method LinkIn(metadata: int) returns (ghost k: int)
      requires Threaded() && Sorted(mem.words, order) && ApartFrom(metadata, order) && metadata in mem.words
      modifies this`mem, this`head
      ensures 0 <= k <= |order|
      ensures k > 0 ==> Before(old(mem.words), order[k - 1], metadata)
      ensures k < |order| ==> Before(old(mem.words), metadata, order[k])
      ensures LinkedIn(old(mem), mem, metadata, At(order, k - 1), At(order, k))
      ensures head == if k == 0 then metadata else old(head)
    {
      var iter;
      iter, k := FindPlace(metadata);
      if iter == NULL {
        InsertFront(metadata);
      } else {
        InsertAfter(iter, metadata, k - 1);
      }
    }

    method AddMetadata(metadata: int)
      requires Threaded() && Sorted(mem.words, order)
      requires ApartFrom(metadata, order) && metadata in mem.words
      modifies this`mem, this`head, this`count, this`order
      ensures Threaded() && Sorted(mem.words, order)
      ensures multiset(order) == multiset(old(order)) + multiset{metadata} && count == old(count) + 1
      ensures Frame(old(mem), mem, 0, 0, order)
    {
      count := count + 1;
      ghost var k := LinkIn(metadata);
      ghost var r := Inserted(order, k, metadata);
      AddDone(old(mem), mem, old(head), order, k, metadata, r);
      order := r;
    }

    method Unlink(iter: int, ghost k: int)
      requires Threaded() && 0 < k < |order| && iter == order[k]
      modifies this`mem
      ensures Unlinked(old(mem), mem, At(order, k - 1), At(order, k + 1))
    {
      assert NodeAt(mem.words, order, k);
      SetNext(mem.words[iter + 24], mem.words[iter + 16]);
      if mem.words[iter + 16] != NULL {
        SetPrev(mem.words[iter + 16], mem.words[iter + 24]);
      }
    }

    method UnlinkFirst()
      requires Threaded() && order != []
      modifies this`mem, this`head
      ensures head == At(order, 1) && Unlinked(old(mem), mem, NULL, At(order, 1))
    {
      assert NodeAt(mem.words, order, 0);
      head := mem.words[head + 16];
      if head != NULL {
        SetPrev(head, NULL);
      }
    }

    method FindLink(metadata: int) returns (iter: int, ghost k: int)
      requires Threaded() && metadata in order && head != metadata
      ensures 0 < k < |order| && iter == order[k] == metadata
      ensures forall j :: 0 <= j < k ==> order[j] != metadata
    {
      assert NodeAt(mem.words, order, 0);
      iter, k := mem.words[head + 16], 1;
      while iter != NULL
        invariant 0 < k <= |order| && iter == At(order, k)
        invariant forall j :: 0 <= j < k ==> order[j] != metadata
        decreases |order| - k
      {
        if iter == metadata {
          return;
        }
        assert NodeAt(mem.words, order, k);
        iter, k := mem.words[iter + 16], k + 1;
      }
      assert false;  // metadata is in the list, so the walk cannot miss it
    }

    method UnlinkFound(metadata: int) returns (ghost k: int)
      requires Threaded() && metadata in order
      modifies this`mem, this`head
      ensures 0 <= k < |order| && order[k] == metadata && forall j :: 0 <= j < k ==> order[j] != metadata
      ensures Unlinked(old(mem), mem, At(order, k - 1), At(order, k + 1))
      ensures head == if k == 0 then At(order, 1) else old(head)
    {
      if head == metadata {
        UnlinkFirst();
        k := 0;
      } else {
        var iter;
        iter, k := FindLink(metadata);
        Unlink(iter, k);
      }
    }

    method RemoveMetadata(metadata: int)
      requires Threaded() && metadata in order
      modifies this`mem, this`head, this`count, this`order
      ensures Threaded() && order == Without(old(order), metadata) && count == old(count) - 1
      ensures Frame(old(mem), mem, 0, 0, old(order))
    {
      count := count - 1;
      ghost var k := UnlinkFound(metadata);
      ghost var r := Without(order, metadata);
      RemoveDone(old(mem), mem, old(head), order, k, r);
      order := r;
    }

    /** memmove(dst, src, n) */
    method CopyCells(dst: int, src: int, n: nat)
      modifies this`mem
      ensures Moved(old(mem), mem, dst, src, n)
    {
      hide Move;
      MoveIsMoved(mem, dst, src, n);
      mem := Move(mem, dst, src, n);
    }

    /** The memmove of SOM bytes that copies a header into the footer of its block. */
    method CopyFoot(ghost t: Tile, p: int)
      requires Threaded() && Sorted(mem.words, order) && RoomBut(order, t, {})
      requires p == t.addr && Records(mem.words, p, t)
      modifies this`mem
      ensures Threaded() && Sorted(mem.words, order)
      ensures TileCells(mem.words, t) && Frame(old(mem), mem, Footer(t), End(t), [])
    {
      hide Linked, Sorted, Apart, Frame, Moved;
      CopyCells(p + mem.words[p] + SOM, p, SOM);
      FooterDone(old(mem), mem, head, order, t);
    }

    /** addMetadata, then the footer copy. */
    method AddAndFoot(ghost t: Tile, p: int)
      requires Threaded() && Sorted(mem.words, order) && ApartFrom(p, order)
      requires p == t.addr && Records(mem.words, p, t) && RoomBut(order, t, {})
      modifies this`mem, this`head, this`count, this`order
      ensures Threaded() && Sorted(mem.words, order) && count == old(count) + 1
      ensures multiset(order) == multiset(old(order)) + multiset{p}
      ensures TileCells(mem.words, t) && Frame(old(mem), mem, Footer(t), End(t), order)
    {
      hide Linked, Sorted, Apart, Frame;
      ghost var o := order;
      AddMetadata(p);
      ghost var m1 := mem;
      assert p in multiset(order);
      forall h | h in order ensures h == p || h in o { assert h in multiset(order); }
      FrameKeepsHeaders(old(mem), mem, order);
      CopyFoot(t, p);
      FrameTrans(old(mem), m1, mem, 0, 0, order, Footer(t), End(t), [], Footer(t), End(t), order);
    }

    /** The end of smalloc's slow path: a fresh live block is written at a. */
    method Emplace(a: int, size: nat, ghost t: Tile)
      requires Threaded() && Sorted(mem.words, order) && ApartFrom(a, order) && t == Tile(a, size, false)
      requires forall x :: x in order ==> x + SOM <= a || End(t) <= x
      modifies this`mem, this`head, this`count, this`order
      ensures Threaded() && Sorted(mem.words, order) && count == old(count) + 1
      ensures multiset(order) == multiset(old(order)) + multiset{a}
      ensures TileCells(mem.words, t) && Frame(old(mem), mem, a, End(t), old(order))
      ensures InnerKept(old(mem), mem, Payload(t), Footer(t))
    {
      hide Linked, Sorted, Apart, Frame, Stored, TileCells, InnerKept;
      ghost var m0, o0 := mem, order;
      SetSize(a, size);
      ghost var m1 := mem;
      SetFree(a, 0);
      ghost var m2 := mem;
      FreshHeader(m0, m1, m2, head, o0, t);
      AddAndFoot(t, a);
      Grown(o0, order, a);
      PayloadUnwritten(m2, mem, order, t, Footer(t), End(t));
      InnerTrans(m0, m2, mem, Payload(t), Footer(t));
      FrameTrans(m0, m2, mem, a, End(t), [], Footer(t), End(t), order, a, End(t), o0);
    }

    /** removeMetadata, then Emplace: the block at a is rewritten with a new size. */
    method Resize(a: int, size: nat, ghost t: Tile)
      requires Threaded() && Sorted(mem.words, order) && a in order && t == Tile(a, size, false)
      requires forall x :: x in order && x != a ==> x + SOM <= a || End(t) <= x
      modifies this`mem, this`head, this`count, this`order
      ensures Threaded() && Sorted(mem.words, order) && count == old(count)
      ensures multiset(order) == multiset(old(order))
      ensures TileCells(mem.words, t) && Frame(old(mem), mem, a, End(t), old(order))
      ensures InnerKept(old(mem), mem, Payload(t), Footer(t))
    {
      hide Linked, Sorted, Apart, ApartFrom, Frame, TileCells, Without, InnerKept;
      ghost var m0, o0 := mem, order;
      WithoutApart(o0, a);
      RemoveMetadata(a);
      ghost var m1, o1 := mem, order;
      RemovedSorted(m0, m1, o0, o1, a);
      Emplace(a, size, t);
      OutAndIn(o0, o1, order, a);
      PayloadUnwritten(m0, m1, o0, t, 0, 0);
      InnerTrans(m0, m1, mem, Payload(t), Footer(t));
      FrameTrans(m0, m1, mem, 0, 0, o0, a, End(t), o1, a, End(t), o0);
    }

    /** The second half of splitBlock: both parts enter the list, then both footers are copied. */
    method AddParts(low: int, high: int, ghost l: Tile, ghost h: Tile)
      requires Threaded() && Sorted(mem.words, order)
      requires ApartFrom(low, order) && ApartFrom(high, order) && End(l) == h.addr
      requires low == l.addr && high == h.addr && Records(mem.words, low, l) && Records(mem.words, high, h)
      requires forall x :: x in order ==> x + SOM <= low || End(h) <= x
      modifies this`mem, this`head, this`count, this`order
      ensures Threaded() && Sorted(mem.words, order) && count == old(count) + 2
      ensures multiset(order) == multiset(old(order)) + multiset{low, high}
      ensures TileCells(mem.words, l) && TileCells(mem.words, h)
      ensures Frame(old(mem), mem, Footer(l), End(h), old(order) + [low])
    {
      hide Linked, Sorted, Apart, Frame;
      ghost var m0, o0 := mem, order;
      AddMetadata(low);
      ghost var m1, o1 := mem, order;
      Grown(o0, o1, low);
      FrameKeepsHeaders(m0, m1, o1);
      assert low in o1 && Records(m1.words, low, l);
      FrameKeepsApart(m0, m1, o1, h);
      AddMetadata(high);
      ghost var m2, o2 := mem, order;
      Grown(o1, o2, high);
      FrameKeepsHeaders(m1, m2, o2);
      assert low in o2 && high in o2 && Records(m2.words, low, l);
      CopyFoot(h, high);
      ghost var m3 := mem;
      FootKeepsRecord(m2, m3, l, h);
      CopyFoot(l, low);
      FootKeepsCells(m3, mem, l, h);
      FrameTrans(m0, m1, m2, 0, 0, o1, 0, 0, o2, Footer(l), End(h), o0 + [low]);
      FrameTrans(m2, m3, mem, Footer(h), End(h), [], Footer(l), End(l), [], Footer(l), End(h), o0 + [low]);
      FrameTrans(m0, m2, mem, Footer(l), End(h), o0 + [low], Footer(l), End(h), o0 + [low], Footer(l), End(h),
                 o0 + [low]);
    }

    /** removeMetadata, then AddAndFoot: the end of growing or resizing a block in place. */
    method Rethread1(x: int, ghost t: Tile, keep: int)
      requires Threaded() && x in order
      requires keep in {x} || ApartFrom(keep, order)
      requires keep == t.addr && Records(mem.words, keep, t)
      requires SortedBut(mem.words, order, {x}) && RoomBut(order, t, {x})
      modifies this`mem, this`head, this`count, this`order
      ensures Threaded() && Sorted(mem.words, order) && count == old(count) - 1 + 1
      ensures multiset(order) == multiset(old(order)) - multiset{x} + multiset{keep}
      ensures TileCells(mem.words, t) && Frame(old(mem), mem, Footer(t), End(t), old(order) + [keep])
    {
      hide Linked, Sorted, Apart, ApartFrom, Frame, Without, SortedBut, RoomBut, Records, TileCells;
      ghost var m0, o0 := mem, order;
      WithoutApart(o0, x);
      RemoveMetadata(x);
      ghost var m1, o1 := mem, order;
      AfterRemove(m0, m1, o0, order, x, {x}, {}, t, keep);
      AddAndFoot(t, keep);
      RethreadMembers(o0, o1, order, x, multiset{}, keep);
      FrameTrans(m0, m1, mem, 0, 0, o0, Footer(t), End(t), order, Footer(t), End(t), o0 + [keep]);
    }

    /** removeMetadata twice, then AddAndFoot: how every two-block merge ends. */
    method Rethread2(x: int, y: int, ghost t: Tile, keep: int)
      requires Threaded() && x in order && y in order && x != y
      requires keep in {x, y} || ApartFrom(keep, order)
      requires keep == t.addr && Records(mem.words, keep, t)
      requires SortedBut(mem.words, order, {x, y}) && RoomBut(order, t, {x, y})
      modifies this`mem, this`head, this`count, this`order
      ensures Threaded() && Sorted(mem.words, order) && count == old(count) - 2 + 1
      ensures multiset(order) == multiset(old(order)) - multiset{x, y} + multiset{keep}
      ensures TileCells(mem.words, t) && Frame(old(mem), mem, Footer(t), End(t), old(order) + [keep])
    {
      hide Linked, Sorted, Apart, ApartFrom, Frame, Without, SortedBut, RoomBut, Records, TileCells;
      ghost var m0, o0 := mem, order;
      WithoutApart(o0, x);
      RemoveMetadata(x);
      ghost var m1, o1 := mem, order;
      AfterRemove(m0, m1, o0, order, x, {x, y}, {y}, t, keep);
      Rethread1(y, t, keep);
      RethreadMembers(o0, o1, order, x, multiset{y}, keep);
      OneMore(x, y, y);
      FrameTrans(m0, m1, mem, 0, 0, o0, Footer(t), End(t), o1 + [keep], Footer(t), End(t), o0 + [keep]);
    }

    /** removeMetadata three times, then AddAndFoot: how every three-block merge ends. */
    method Rethread3(x: int, y: int, z: int, ghost t: Tile, keep: int)
      requires Threaded() && x in order && y in order && z in order && x != y && y != z && x != z
      requires keep in {x, y, z} || ApartFrom(keep, order)
      requires keep == t.addr && Records(mem.words, keep, t)
      requires SortedBut(mem.words, order, {x, y, z}) && RoomBut(order, t, {x, y, z})
      modifies this`mem, this`head, this`count, this`order
      ensures Threaded() && Sorted(mem.words, order) && count == old(count) - 3 + 1
      ensures multiset(order) == multiset(old(order)) - multiset{x, y, z} + multiset{keep}
      ensures TileCells(mem.words, t) && Frame(old(mem), mem, Footer(t), End(t), old(order) + [keep])
    {
      hide Linked, Sorted, Apart, ApartFrom, Frame, Without, SortedBut, RoomBut, Records, TileCells;
      ghost var m0, o0 := mem, order;
      WithoutApart(o0, x);
      RemoveMetadata(x);
      ghost var m1, o1 := mem, order;
      AfterRemove(m0, m1, o0, order, x, {x, y, z}, {y, z}, t, keep);
      Rethread2(y, z, t, keep);
      RethreadMembers(o0, o1, order, x, multiset{y, z}, keep);
      OneMore(x, y, z);
      FrameTrans(m0, m1, mem, 0, 0, o0, Footer(t), End(t), o1 + [keep], Footer(t), End(t), o0 + [keep]);
    }

    /** Is there a block with its header at a? */
    method Contains(a: int) returns (found: bool)
      requires Threaded()
      ensures found <==> a in order
    {
      var iter := head;
      ghost var i := 0;
      while iter != NULL
        invariant 0 <= i <= |order| && iter == At(order, i) && forall j :: 0 <= j < i ==> order[j] != a
        decreases |order| - i
      {
        assert NodeAt(mem.words, order, i);
        if iter == a {
          return true;
        }
        iter, i := mem.words[iter + 16], i + 1;
      }
      return false;
    }

    /** The first adequate free block of the list, or NULL. */
    method SearchFreeBlock(size: int) returns (iter: int)
      requires Threaded() && Sorted(mem.words, order)
      requires forall h :: h in order ==> h + 8 in mem.words
      ensures iter == NULL ==> forall h :: h in order ==> !Fits(mem.words, h, size)
      ensures iter != NULL ==> iter in order && Fits(mem.words, iter, size)
      ensures iter != NULL ==> forall h :: h in order && Fits(mem.words, h, size) && h != iter ==>
        Before(mem.words, iter, h)
    {
      iter := head;
      ghost var i := 0;
      while iter != NULL
        invariant 0 <= i <= |order| && iter == At(order, i)
        invariant forall j :: 0 <= j < i ==> !Fits(mem.words, order[j], size)
        decreases |order| - i
      {
        assert NodeAt(mem.words, order, i) && order[i] in order;
        if mem.words[iter + 8] != 0 && mem.words[iter] >= size {
          return;
        }
        iter, i := mem.words[iter + 16], i + 1;
      }
    }
  }
}
