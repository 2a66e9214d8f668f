/** The buffered reader: an internal buffer in front of read(), which may deliver any number of
    bytes at a time, be interrupted, or fail. */
module ReaderModel {
  import opened Memory

  const BUF_SIZE: nat := 8192
  const NEWLINE: Byte := 10

  function Min(a: nat, b: nat): nat { if a < b then a else b }

  /** How the kernel answers one read() of a non-empty stream: with up to n bytes (and at least
      one), or with -1 and errno set to EINTR or to something else. */
  datatype Event = Chunk(n: nat) | Interrupted | Failed

  /** An open descriptor: the bytes not yet read, and the kernel's answers to come.  Once the
      answers run out, read() delivers all it is asked for. */
  class Stream {
    var rest: seq<Byte>
    var events: seq<Event>

    constructor (content: seq<Byte>, answers: seq<Event>)
      ensures rest == content && events == answers
    {
      rest, events := content, answers;
    }

    /** read(fd, buf, buf.Length) */
    method Read(buf: array<Byte>) returns (cnt: int, interrupted: bool)
      requires buf.Length > 0
      modifies this, buf
      ensures -1 <= cnt <= buf.Length && cnt <= |old(rest)|
      ensures cnt >= 0 ==> buf[..cnt] == old(rest)[..cnt] && rest == old(rest)[cnt..] && (cnt == 0 <==> old(rest) == [])
      ensures cnt < 0 ==>
        rest == old(rest) && old(events) != [] && old(events)[0] == if interrupted then Interrupted else Failed
      ensures cnt >= 0 ==>
        var most := Min(buf.Length, |old(rest)|);
        cnt == if old(events) != [] && old(events)[0].Chunk? then Min(if old(events)[0].n == 0 then 1
                                                                      else old(events)[0].n, most) else most
      ensures old(events) != [] && !old(events)[0].Chunk? ==> cnt < 0
      ensures forall i :: 0 <= cnt <= i < buf.Length ==> buf[i] == old(buf[i])
      ensures events == if old(events) == [] then [] else old(events)[1..]
    {
      var limit := Min(buf.Length, |rest|);
      interrupted := false;
      if events != [] {
        var event := events[0];
        events := events[1..];
        match event
        case Interrupted => return -1, true;
        case Failed => return -1, false;
        case Chunk(n) => limit := if n == 0 then Min(1, limit) else Min(n, limit);
      }
      cnt := limit;
      forall i | 0 <= i < limit { buf[i] := rest[i]; }
      rest := rest[limit..];
    }
  }

  // What a line is.

  /** How many bytes a line read of at most m bytes takes from p: through the first newline, to
      the end of the stream, or m. */
  function LineEnd(p: seq<Byte>, m: nat): nat {
    if m == 0 || p == [] then 0 else if p[0] == NEWLINE then 1 else 1 + LineEnd(p[1..], m - 1)
  }

  lemma {:induction false} LineEndBounds(p: seq<Byte>, m: nat)
    ensures LineEnd(p, m) <= m && LineEnd(p, m) <= |p|
    ensures forall i :: 0 <= i < LineEnd(p, m) - 1 ==> p[i] != NEWLINE
    ensures LineEnd(p, m) == m || LineEnd(p, m) == |p| || (LineEnd(p, m) > 0 && p[LineEnd(p, m) - 1] == NEWLINE)
  {
    if m > 0 && p != [] && p[0] != NEWLINE {
      LineEndBounds(p[1..], m - 1);
      assert forall i :: 1 <= i < LineEnd(p, m) - 1 ==> p[i] == p[1..][i - 1];
    }
  }

  /** Those bounds say exactly where the line ends. */
  lemma LineEndExact(p: seq<Byte>, m: nat, x: nat)
    ensures x == LineEnd(p, m) <==>
      && x <= m && x <= |p| && (forall i :: 0 <= i < x - 1 ==> p[i] != 10)
      && (x == m || x == |p| || (x > 0 && p[x - 1] == 10))
  {
    LineEndBounds(p, m);
  }

  /** The bytes a line read with the given buffer size stores. */
  function LineLength(p: seq<Byte>, maxlen: nat): nat { if maxlen <= 1 then 0 else LineEnd(p, maxlen - 1) }

  /** The value it returns: the number of bytes stored if they end in a newline, and one more
      otherwise, except that nothing stored because the stream is at its end gives 0. */
  function LineCount(p: seq<Byte>, maxlen: nat): nat
    requires LineLength(p, maxlen) <= |p|
  {
    var n := LineLength(p, maxlen);
    if maxlen > 1 && n == 0 then 0 else if n > 0 && p[n - 1] == NEWLINE then n else n + 1
  }

  /** There is no newline among the first k bytes. */
  ghost predicate NoNewline(p: seq<Byte>, k: int)
    requires k <= |p|
  {
    forall i :: 0 <= i < k ==> p[i] != NEWLINE
  }

  /** The count and the number of bytes stored are the same exactly when the line ends in byte 10
      or the stream is at its end; otherwise the count is one higher. */
  lemma CountExact(p: seq<Byte>, maxlen: nat)
    ensures LineLength(p, maxlen) == LineEnd(p, if maxlen == 0 then 0 else maxlen - 1) <= |p|
    ensures var n := LineLength(p, maxlen);
      LineCount(p, maxlen) == if (n > 0 && p[n - 1] == 10) || (p == [] && maxlen > 1) then n else n + 1
  {
    if maxlen > 1 { LineEndBounds(p, maxlen - 1); }
  }

  lemma NoLineYet(p: seq<Byte>)
    ensures NoNewline(p, 0) && NoNewline(p, -1)
  {
  }

  lemma LineSoFar(p: seq<Byte>, k: nat)
    requires k < |p| && NoNewline(p, k)
    ensures p[k] != NEWLINE ==> NoNewline(p, k + 1)
  {
  }

  /** Bytes without a newline do not end the line. */
  lemma LineGoesOn(p: seq<Byte>, maxlen: nat, k: nat)
    requires k < maxlen && k <= |p| && NoNewline(p, k)
    ensures k <= LineLength(p, maxlen)
  {
    LineEndBounds(p, maxlen - 1);
  }

  lemma ShortLine(p: seq<Byte>, maxlen: nat)
    ensures LineLength(p, maxlen) <= |p|
    ensures maxlen <= 1 ==> LineLength(p, maxlen) == 0 && LineCount(p, maxlen) == 1
  {
    if maxlen > 1 { LineEndBounds(p, maxlen - 1); }
  }

  /** Where the line ends, the count is settled. */
  lemma LineEnds(p: seq<Byte>, maxlen: nat, k: nat)
    requires k < maxlen && k <= |p| && NoNewline(p, k - 1)
    requires k == maxlen - 1 || k == |p| || (k > 0 && p[k - 1] == NEWLINE)
    ensures LineLength(p, maxlen) == k
    ensures maxlen > 1 ==> LineCount(p, maxlen) == if k == 0 then 0 else if p[k - 1] == NEWLINE then k else k + 1
  {
    if maxlen > 1 { LineEndExact(p, maxlen - 1, k); }
  }

  lemma TakenFront(s: seq<Byte>, lo: nat, hi: nat, rest: seq<Byte>, k: nat)
    requires lo + k <= hi <= |s|
    ensures (s[lo..hi] + rest)[k..] == (if lo + k < hi then s[lo + k..hi] else []) + rest
    ensures forall i :: 0 <= i < k ==> (s[lo..hi] + rest)[i] == s[lo + i]
  {
  }

  lemma SplitBack(s: seq<Byte>, k: int)
    ensures 0 <= k <= |s| ==> s[..k] + s[k..] == s
  {
  }

  lemma NextByte(p: seq<Byte>, i: nat)
    requires i <= |p|
    ensures p[i..] == [] <==> i == |p|
    ensures i < |p| ==> p[i..][0] == p[i] && p[i..][1..] == p[i + 1..]
  {
  }

  /** The count rio_readlineb has reached when its loop ends. */
  lemma LineDone(p: seq<Byte>, maxlen: nat, n: nat, k: nat)
    requires k <= |p| && (k < maxlen || k == 0) && LineLength(p, maxlen) <= |p|
    requires || (0 < k == n < maxlen && p[k - 1] == NEWLINE && NoNewline(p, k - 1))
             || (n == k + 1 && NoNewline(p, k) && (n == 1 >= maxlen || n == maxlen || (k == |p| && k > 0)))
    ensures n == LineCount(p, maxlen) && k == LineLength(p, maxlen)
  {
    if maxlen > 1 { LineEnds(p, maxlen, k); } else { ShortLine(p, maxlen); }
  }

  /** The first n bytes of p are in the buffer. */
  ghost predicate Filled(usr: array<Byte>, p: seq<Byte>, n: nat)
    reads usr
  {
    n <= |p| && n <= usr.Length && forall i :: 0 <= i < n ==> usr[i] == p[i]
  }

  lemma FilledSlice(usr: array<Byte>, p: seq<Byte>, n: nat)
    ensures Filled(usr, p, n) ==> n <= |p| && n <= usr.Length && usr[..n] == p[..n]
    ensures Filled(usr, p, 0)
  {
  }

  lemma DropTwice(p: seq<Byte>, i: nat, k: nat)
    requires i + k <= |p|
    ensures p[i..][k..] == p[i + k..]
    ensures forall j :: i <= j < i + k ==> p[i..][j - i] == p[j]
  {
  }

  class Reader {
    var fd: Stream
    var cnt: int
    var bufptr: nat
    const buf: array<Byte>

    ghost predicate Valid()
      reads this
    {
      buf.Length == BUF_SIZE && -1 <= cnt && (cnt > 0 ==> bufptr + cnt <= BUF_SIZE)
    }

    /** The bytes still to be delivered: those in the buffer, then those in the stream. */
    ghost function Pending(): seq<Byte>
      requires Valid()
      reads this, fd, buf
    {
      (if cnt > 0 then buf[bufptr..bufptr + cnt] else []) + fd.rest
    }

    /** rio_readinitb */
    constructor (stream: Stream)
      ensures Valid() && fd == stream && fresh(buf) && Pending() == stream.rest && buf.Length == 8192
    {
      fd, cnt, bufptr := stream, 0, 0;
      buf := new Byte[BUF_SIZE](i => 0);
    }

    /** Fills the empty buffer.  Interruptions are absorbed here. */
    method Refill() returns (r: int, interrupted: bool)
      requires Valid()
      modifies this`cnt, this`bufptr, buf, fd
      ensures Valid() && Pending() == old(Pending())
      ensures r == 1 ==> cnt > 0
      ensures r == 0 ==> Pending() == []
      ensures r == -1 ==> Failed in old(fd.events)
      ensures (r == 1 || r == 0 || r == -1) && (r == -1 ==> !interrupted)
      ensures old(cnt) > 0 ==> r == 1 && cnt == old(cnt) && fd.rest == old(fd.rest) && fd.events == old(fd.events)
      ensures Failed in fd.events ==> Failed in old(fd.events)
    {
      interrupted := false;
      while cnt <= 0
        invariant Valid() && Pending() == old(Pending())
        invariant Failed in fd.events ==> Failed in old(fd.events)
        invariant old(cnt) > 0 ==> cnt == old(cnt) && fd.rest == old(fd.rest) && fd.events == old(fd.events)
        decreases |fd.events|, if cnt <= 0 then 1 else 0
      {
        ghost var s := fd.rest;
        cnt, interrupted := fd.Read(buf);
        SplitBack(s, cnt);
        if cnt < 0 {
          if !interrupted {
            return -1, false;
          }
        } else if cnt == 0 {
          return 0, false;
        } else {
          bufptr := 0;
        }
      }
      r := 1;
    }

    /** Copies k of the buffered bytes out. */
    method Deliver(usr: array<Byte>, off: nat, k: nat)
      requires Valid() && usr != buf && off + k <= usr.Length && 0 < cnt && k <= cnt
      modifies this`cnt, this`bufptr, usr
      ensures Valid() && k <= |old(Pending())| && Pending() == old(Pending())[k..] && cnt == old(cnt) - k
      ensures forall i :: 0 <= i < k ==> usr[off + i] == old(Pending())[i]
      ensures forall i :: 0 <= i < usr.Length && !(off <= i < off + k) ==> usr[i] == old(usr[i])
    {
      ghost var s, lo, hi := buf[..], bufptr, bufptr + cnt;
      forall i | 0 <= i < k { usr[off + i] := buf[bufptr + i]; }
      bufptr := bufptr + k;
      cnt := cnt - k;
      assert buf[..] == s;
      TakenFront(s, lo, hi, fd.rest, k);
    }

    /** rio_read: up to n bytes into usr at off, out of the buffer.  interrupted tells whether
        errno is EINTR. */
    method Read(usr: array<Byte>, off: nat, n: nat) returns (r: int, interrupted: bool)
      requires Valid() && usr != buf && off + n <= usr.Length
      modifies this`cnt, this`bufptr, buf, fd, usr
      ensures Valid() && -1 <= r <= n
      ensures r > 0 ==> r <= |old(Pending())| && Pending() == old(Pending())[r..]
      ensures forall i :: 0 <= i < r ==> usr[off + i] == old(Pending())[i]
      ensures r <= 0 ==> Pending() == old(Pending())
      ensures r == 0 ==> n == 0 || Pending() == []
      ensures r > 0 ==> cnt >= 0 && r == Min(n, r + cnt)
      ensures old(cnt) > 0 ==> r == Min(n, old(cnt)) && fd.rest == old(fd.rest) && fd.events == old(fd.events)
      ensures r == -1 ==> Failed in old(fd.events) && !interrupted
      ensures forall i :: 0 <= i < usr.Length && !(off <= i < off + r) ==> usr[i] == old(usr[i])
      ensures Failed in fd.events ==> Failed in old(fd.events)
    {
      hide Pending, Valid;
      r, interrupted := Refill();
      if r != 1 {
        return;
      }
      var k: nat := n;
      if cnt < n {
        k := cnt;
      }
      Deliver(usr, off, k);
      r := k;
    }

    /** The next call of Read, in terms of the bytes p pending at the start. */
    method ReadMore(usr: array<Byte>, at: nat, left: nat, ghost p: seq<Byte>) returns (r: int, interrupted: bool)
      requires Valid() && usr != buf && at + left <= usr.Length && Filled(usr, p, at) && Pending() == p[at..]
      modifies this`cnt, this`bufptr, buf, fd, usr
      ensures Valid() && -1 <= r <= left && Filled(usr, p, at + if r > 0 then r else 0)
      ensures Pending() == p[at + if r > 0 then r else 0..]
      ensures forall i :: at + (if r > 0 then r else 0) <= i < usr.Length ==> usr[i] == old(usr[i])
      ensures r == 0 ==> left == 0 || at == |p|
      ensures r == -1 ==> Failed in old(fd.events) && !interrupted
      ensures Failed in fd.events ==> Failed in old(fd.events)
    {
      hide Pending, Valid;
      r, interrupted := Read(usr, at, left);
      if r > 0 {
        DropTwice(p, at, r);
        forall i | at <= i < at + r ensures usr[i] == p[i] { assert usr[at + (i - at)] == p[at..][i - at]; }
      }
    }

    /** rio_readnb: n bytes, or all there are.  An error loses count of what was delivered.  The
        retry after an interruption is never taken: Read absorbs interruptions itself. */
    method ReadNB(usr: array<Byte>, n: nat) returns (r: int, ghost done: nat)
      requires Valid() && usr != buf && n <= usr.Length
      modifies this`cnt, this`bufptr, buf, fd, usr
      ensures Valid() && done <= n && done <= |old(Pending())|
      ensures usr[..done] == old(Pending())[..done] && Pending() == old(Pending())[done..]
      ensures forall i :: done <= i < usr.Length ==> usr[i] == old(usr[i])
      ensures r == -1 || (r == done && done == Min(n, |old(Pending())|))
      ensures r == -1 ==> Failed in old(fd.events)
      ensures Failed in fd.events ==> Failed in old(fd.events)
    {
      hide Pending, Filled, Valid;
      var left: nat := n;
      var at: nat := 0;
      ghost var p := Pending();
      FilledSlice(usr, p, 0);
      while left > 0
        invariant Valid() && at + left == n && at <= |p| && Filled(usr, p, at) && Pending() == p[at..]
        invariant forall i :: at <= i < usr.Length ==> usr[i] == old(usr[i])
        invariant Failed in fd.events ==> Failed in old(fd.events)
        decreases left
      {
        var k, interrupted := ReadMore(usr, at, left, p);
        FilledSlice(usr, p, at + if k > 0 then k else 0);
        if k < 0 {
          if interrupted {
            k := 0;
          } else {
            return -1, at;
          }
        } else if k == 0 {
          break;
        }
        left := left - k;
        at := at + k;
      }
      FilledSlice(usr, p, at);
      return n - left, at;
    }

    /** One byte, into a variable. */
    method ReadByte() returns (rc: int, c: Byte)
      requires Valid()
      modifies this`cnt, this`bufptr, buf, fd
      ensures Valid() && -1 <= rc <= 1
      ensures rc == 1 ==> old(Pending()) != [] && c == old(Pending())[0] && Pending() == old(Pending())[1..]
      ensures rc <= 0 ==> Pending() == old(Pending())
      ensures rc == 0 ==> Pending() == []
      ensures rc == -1 ==> Failed in old(fd.events)
      ensures Failed in fd.events ==> Failed in old(fd.events)
    {
      hide Pending;
      var cell := new Byte[1](i => 0);
      var interrupted;
      rc, interrupted := Read(cell, 0, 1);
      c := cell[0];
      assert rc == 1 ==> cell[0 + 0] == c;
    }

    /** Stores one byte more of p. */
    method Put(usr: array<Byte>, at: nat, c: Byte, ghost p: seq<Byte>)
      requires Filled(usr, p, at) && at < usr.Length && at < |p| && c == p[at]
      modifies usr
      ensures Filled(usr, p, at + 1)
      ensures forall i :: at + 1 <= i < usr.Length ==> usr[i] == old(usr[i])
    {
      usr[at] := c;
    }

    /** Writes the terminator behind what is stored. */
    method Terminate(usr: array<Byte>, at: nat, ghost p: seq<Byte>)
      requires Filled(usr, p, at) && at < usr.Length
      modifies usr
      ensures at <= |p| && usr[..at] == p[..at] && usr[at] == 0
      ensures forall i :: at + 1 <= i < usr.Length ==> usr[i] == old(usr[i])
    {
      usr[at] := 0;
    }

    /** rio_readlineb: a line of fewer than maxlen bytes and a terminator.  The terminator is
        written even when maxlen is 0. */
    method ReadLineB(usr: array<Byte>, maxlen: nat) returns (r: int, ghost done: nat)
      requires Valid() && usr != buf && maxlen <= usr.Length && 1 <= usr.Length
      modifies this`cnt, this`bufptr, buf, fd, usr
      ensures Valid() && done <= LineLength(old(Pending()), maxlen) <= |old(Pending())| && done < usr.Length
      ensures usr[..done] == old(Pending())[..done] && Pending() == old(Pending())[done..]
      ensures r == -1 || (r == LineCount(old(Pending()), maxlen) && done == LineLength(old(Pending()), maxlen))
      ensures r > 0 ==> usr[done] == 0
      ensures forall i :: done + (if r > 0 then 1 else 0) <= i < usr.Length ==> usr[i] == old(usr[i])
      ensures r == -1 ==> Failed in old(fd.events)
      ensures Failed in fd.events ==> Failed in old(fd.events)
    {
      hide Pending, LineLength, LineCount, Filled, Valid, NoNewline;
      ghost var p := Pending();
      ShortLine(p, maxlen);
      FilledSlice(usr, p, 0);
      NoLineYet(p);
      var n: nat := 1;
      var at: nat := 0;
      while n < maxlen
        invariant Valid() && at == n - 1 && at <= |p| && (n <= maxlen || n == 1)
        invariant Pending() == p[at..] && Filled(usr, p, at) && NoNewline(p, at)
        invariant forall i :: at <= i < usr.Length ==> usr[i] == old(usr[i])
        invariant Failed in fd.events ==> Failed in old(fd.events)
        decreases maxlen - n
      {
        NextByte(p, at);
        var rc, c := ReadByte();
        if rc == 1 {
          LineSoFar(p, at);
          Put(usr, at, c, p);
          at := at + 1;
          if c == NEWLINE {
            break;
          }
        } else if rc == 0 {
          if n == 1 {
            LineEnds(p, maxlen, 0);
            return 0, 0;
          }
          break;
        } else {
          LineGoesOn(p, maxlen, at);
          FilledSlice(usr, p, at);
          return -1, at;
        }
        n := n + 1;
      }
      LineDone(p, maxlen, n, at);
      FilledSlice(usr, p, at);
      Terminate(usr, at, p);
      return n, at;
    }
  }

  // Any mix of calls.

  datatype Call = Bytes(n: nat) | Line(maxlen: nat)

  /** What a call returns and stores. */
  datatype Answer = Answer(count: int, data: seq<Byte>)

  /** How many bytes a call takes from p. */
  function Takes(p: seq<Byte>, c: Call): (n: nat)
    ensures n <= |p|
  {
    match c
    case Bytes(n) => Min(n, |p|)
    case Line(maxlen) =>
      ShortLine(p, maxlen);
      LineLength(p, maxlen)
  }

  function AnswerTo(p: seq<Byte>, c: Call): Answer {
    var n := Takes(p, c);
    match c
    case Bytes(_) => Answer(n, p[..n])
    case Line(maxlen) => Answer(LineCount(p, maxlen), p[..n])
  }

  /** The answers of the plain byte stream p, read without any buffer. */
  function Answers(p: seq<Byte>, calls: seq<Call>): seq<Answer>
    decreases |calls|
  {
    if calls == [] then [] else [AnswerTo(p, calls[0])] + Answers(p[Takes(p, calls[0])..], calls[1..])
  }

  function Remainder(p: seq<Byte>, calls: seq<Call>): seq<Byte>
    decreases |calls|
  {
    if calls == [] then p else Remainder(p[Takes(p, calls[0])..], calls[1..])
  }

  function Joined(answers: seq<Answer>): seq<Byte> {
    if answers == [] then [] else answers[0].data + Joined(answers[1..])
  }

  /** Nothing is lost between the calls: their data and what remains make up the stream. */
  lemma {:induction false} AnswersMakeUpStream(p: seq<Byte>, calls: seq<Call>)
    ensures Joined(Answers(p, calls)) + Remainder(p, calls) == p
    decreases |calls|
  {
    if calls != [] {
      var n := Takes(p, calls[0]);
      AnswersMakeUpStream(p[n..], calls[1..]);
      assert Answers(p, calls)[1..] == Answers(p[n..], calls[1..]);
      assert p[..n] + p[n..] == p;
    }
  }

  /** One call with a user buffer of its own. */
  method Perform(reader: Reader, c: Call) returns (answer: Answer, failed: bool, ghost done: nat)
    requires reader.Valid()
    modifies reader`cnt, reader`bufptr, reader.buf, reader.fd
    ensures reader.Valid() && done <= Takes(old(reader.Pending()), c)
    ensures reader.Pending() == old(reader.Pending())[done..]
    ensures !failed ==> answer == AnswerTo(old(reader.Pending()), c) && done == Takes(old(reader.Pending()), c)
    ensures failed ==> Failed in old(reader.fd.events) && answer == Answer(-1, [])
    ensures Failed in reader.fd.events ==> Failed in old(reader.fd.events)
  {
    hide LineLength, Reader.Valid, Reader.Pending;
    ghost var p := reader.Pending();
    match c
    case Bytes(n) =>
      var usr := new Byte[n](i => 0);
      var r;
      r, done := reader.ReadNB(usr, n);
      failed := r == -1;
      answer := Answer(r, if r < 0 then [] else usr[..r]);
    case Line(maxlen) =>
      ShortLine(p, maxlen);
      var usr := new Byte[maxlen + 1](i => 0);
      var r;
      r, done := reader.ReadLineB(usr, maxlen);
      failed := r == -1;
      answer := Answer(r, if r <= 0 then [] else if usr[r - 1] == NEWLINE then usr[..r] else usr[..r - 1]);
  }

  /** What the caller of one call gets: an answer, or -1. */
  datatype Reply = Replied(answer: Answer) | Error

  /** Call c, made when q was pending, took gone and left q2: all that the plain stream would
      answer with, or, if it failed, no more than that. */
  ghost predicate Serves(c: Call, q: seq<Byte>, reply: Reply, gone: seq<Byte>, q2: seq<Byte>) {
    && q == gone + q2
    && match reply
       case Replied(answer) => answer == AnswerTo(q, c) && gone == answer.data
       case Error => |gone| <= Takes(q, c)
  }

  /** pending[i] are the bytes that call i found and gone[i] those it took. */
  ghost predicate Log(calls: seq<Call>, replies: seq<Reply>, gone: seq<seq<Byte>>, pending: seq<seq<Byte>>) {
    && |gone| == |replies| <= |calls| && |pending| == |replies| + 1
    && forall i :: 0 <= i < |replies| ==> Serves(calls[i], pending[i], replies[i], gone[i], pending[i + 1])
  }

  function Concat(pieces: seq<seq<Byte>>): seq<Byte> {
    if pieces == [] then [] else Concat(pieces[..|pieces| - 1]) + pieces[|pieces| - 1]
  }

  /** The first n calls got the answers of the plain stream. */
  ghost predicate AsPlain(p: seq<Byte>, calls: seq<Call>, replies: seq<Reply>, n: nat)
    requires n <= |calls| && n <= |replies|
  {
    && |Answers(p, calls[..n])| == n
    && forall i :: 0 <= i < n ==> replies[i] == Replied(Answers(p, calls[..n])[i])
  }

  ghost predicate NoErrors(replies: seq<Reply>, n: nat)
    requires n <= |replies|
  {
    forall i :: 0 <= i < n ==> replies[i].Replied?
  }

  /** Any mix of calls on one reader, some of which may fail.  However the kernel cuts the stream
      into pieces, each call answers from what the calls before it left; what they took, the lost
      pieces of failed calls included, and what is pending make up the stream.  Up to the first
      failure the answers are those of the plain stream, and without read errors there is none. */
  method Session(reader: Reader, calls: seq<Call>)
      returns (replies: seq<Reply>, ghost gone: seq<seq<Byte>>, ghost pending: seq<seq<Byte>>)
    requires reader.Valid()
    modifies reader`cnt, reader`bufptr, reader.buf, reader.fd
    ensures reader.Valid() && |replies| == |calls| && Log(calls, replies, gone, pending)
    ensures pending[0] == old(reader.Pending()) && pending[|calls|] == reader.Pending()
    ensures Concat(gone) + reader.Pending() == old(reader.Pending())
    ensures forall n: nat :: n <= |calls| && NoErrors(replies, n) ==>
      AsPlain(old(reader.Pending()), calls, replies, n) && pending[n] == Remainder(old(reader.Pending()), calls[..n])
    ensures Failed !in old(reader.fd.events) ==> NoErrors(replies, |calls|)
  {
    hide *;
    ghost var p := reader.Pending();
    replies, gone, pending := [], [], [p];
    LogStart(calls, p);
    while |replies| < |calls|
      invariant reader.Valid() && Log(calls, replies, gone, pending)
      invariant |gone| == |replies| <= |calls| && |pending| == |replies| + 1
      invariant pending[0] == p && pending[|replies|] == reader.Pending() && Concat(gone) + reader.Pending() == p
      invariant Failed in reader.fd.events ==> Failed in old(reader.fd.events)
      invariant Failed !in old(reader.fd.events) ==> NoErrors(replies, |replies|)
      decreases |calls| - |replies|
    {
      ghost var q, c := reader.Pending(), calls[|replies|];
      var answer, failed;
      ghost var done;
      answer, failed, done := Perform(reader, calls[|replies|]);
      var reply := if failed then Error else Replied(answer);
      CallServes(c, q, answer, failed, done);
      LogNext(calls, replies, gone, pending, reply, q[..done], q[done..]);
      OnePieceMore(gone, q, done);
      replies, gone, pending := replies + [reply], gone + [q[..done]], pending + [q[done..]];
    }
    forall n: nat | n <= |calls| && NoErrors(replies, n)
      ensures AsPlain(p, calls, replies, n) && pending[n] == Remainder(p, calls[..n])
    {
      PlainUntilFailure(calls, replies, gone, pending, n);
    }
  }

  lemma CallServes(c: Call, q: seq<Byte>, answer: Answer, failed: bool, done: nat)
    requires done <= Takes(q, c) && (!failed ==> answer == AnswerTo(q, c) && done == Takes(q, c))
    ensures Serves(c, q, if failed then Error else Replied(answer), q[..done], q[done..]) && done <= |q|
  {
    hide Takes;
    assert q == q[..done] + q[done..];
  }

  lemma LogStart(calls: seq<Call>, p: seq<Byte>)
    ensures Log(calls, [], [], [p]) && NoErrors([], 0) && Concat([]) + p == p
  {
  }

  lemma LogNext(calls: seq<Call>, replies: seq<Reply>, gone: seq<seq<Byte>>, pending: seq<seq<Byte>>,
                reply: Reply, piece: seq<Byte>, left: seq<Byte>)
    requires Log(calls, replies, gone, pending) && |replies| < |calls|
    requires Serves(calls[|replies|], pending[|replies|], reply, piece, left)
    ensures Log(calls, replies + [reply], gone + [piece], pending + [left])
    ensures NoErrors(replies, |replies|) && reply.Replied? ==> NoErrors(replies + [reply], |replies| + 1)
  {
    hide Serves;
  }

  lemma OnePieceMore(gone: seq<seq<Byte>>, q: seq<Byte>, done: nat)
    requires done <= |q|
    ensures Concat(gone + [q[..done]]) + q[done..] == Concat(gone) + q
  {
    var pieces := gone + [q[..done]];
    assert pieces[..|pieces| - 1] == gone;
    assert q == q[..done] + q[done..];
  }

  /** As long as no call fails, the log is that of the plain stream. */
  lemma {:induction false} PlainUntilFailure(calls: seq<Call>, replies: seq<Reply>, gone: seq<seq<Byte>>,
                                             pending: seq<seq<Byte>>, n: nat)
    requires Log(calls, replies, gone, pending) && n <= |replies| && NoErrors(replies, n)
    ensures AsPlain(pending[0], calls, replies, n) && pending[n] == Remainder(pending[0], calls[..n])
  {
    hide Takes, AnswerTo;
    if n == 0 {
      NoCalls(pending[0], calls);
    } else {
      var m := n - 1;
      PlainUntilFailure(calls, replies, gone, pending, m);
      assert Serves(calls[m], pending[m], replies[m], gone[m], pending[m + 1]);
      AnswerTakes(pending[m], calls[m]);
      OneMoreCall(pending[0], calls[..m], calls[m]);
      assert calls[..m] + [calls[m]] == calls[..n];
    }
  }

  lemma AnswerTakes(q: seq<Byte>, c: Call)
    ensures AnswerTo(q, c).data == q[..Takes(q, c)]
  {
  }

  lemma NoCalls(p: seq<Byte>, calls: seq<Call>)
    ensures Answers(p, calls[..0]) == [] && Remainder(p, calls[..0]) == p
  {
  }

  lemma {:induction false} OneMoreCall(p: seq<Byte>, calls: seq<Call>, c: Call)
    ensures var q := Remainder(p, calls);
      && Answers(p, calls + [c]) == Answers(p, calls) + [AnswerTo(q, c)]
      && Remainder(p, calls + [c]) == q[Takes(q, c)..]
    decreases |calls|
  {
    hide Takes, AnswerTo;
    var all := calls + [c];
    if calls == [] {
      assert all == [c] && all[1..] == [];
    } else {
      assert all[1..] == calls[1..] + [c] && all[0] == calls[0];
      OneMoreCall(p[Takes(p, calls[0])..], calls[1..], c);
    }
  }
}
