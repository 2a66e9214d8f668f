/** The bounded request server as a transition system.  One acceptor and a fixed set of workers
    share two queues, a mutex and a condition variable; a step is a region executed under the
    mutex, or an event outside it.  Connections are numbered in the order they are accepted. */
module ServerModel {
  import opened QueueModel

  datatype Policy = Block | DropTail | DropRand | DropHead

  datatype Config = Config(policy: Policy, capacity: int)

  /** Ready: awake, without a request, on the way to the mutex.  Asleep: in pthread_cond_wait.
      Busy: handling a connection it owns.  Finishing: the connection is closed, but its place
      in the running queue not yet given back. */
  datatype Worker = Ready | Asleep | Busy(conn: int) | Finishing

  datatype Acceptor = Accepting | Holding(conn: int) | Blocked(conn: int)

  /** arrived counts accepted connections; dispatched and admitted log the connections in the
      order they left, or entered, the waiting queue for good; closed logs the closed ones. */
  datatype State = State(workers: seq<Worker>, acceptor: Acceptor, waiting: seq<int>, running: seq<int>,
                         arrived: nat, admitted: seq<int>, dispatched: seq<int>, closed: seq<int>)

  function Start(n: nat): State {
    State(seq(n, i => Ready), Accepting, [], [], 0, [], [], [])
  }

  // The acceptor's region.

  predicate Full(capacity: int, waiting: int, running: int) { capacity <= waiting + running }

  datatype Admission = Admission(waiting: seq<int>, closed: seq<int>, admitted: bool)

  /** What the accept loop does with a connection under each policy.  Under Block the region is
      entered only when there is room. */
  function Admitted(c: Config, waiting: seq<int>, running: int, conn: int, num: int, rand: nat -> nat): Admission {
    var full := Full(c.capacity, |waiting|, running);
    match c.policy
    case Block => Admission(waiting + [conn], [], true)
    case DropTail => if full then Admission(waiting, [conn], false) else Admission(waiting + [conn], [], true)
    case DropRand =>
      if !full then Admission(waiting + [conn], [], true)
      else
        var left, gone := Kept(waiting, num, rand, 0), Discarded(waiting, num, rand, 0);
        if Full(c.capacity, |left|, running) then Admission(left, gone + [conn], false)
          else Admission(left + [conn], gone, true)
    case DropHead =>
      if !full then Admission(waiting + [conn], [], true)
      else if waiting == [] then Admission([], [conn], false)
      else Admission(waiting[1..] + [conn], [waiting[0]], true)
  }

  /** What ceil(0.3 * w) can be. */
  predicate DiscardNumber(num: int, w: nat) { if w == 0 then num == 0 else 1 <= num <= w }

  /** Rounding up f * w for any factor f up to 1, as the server does with 0.3f, gives such a number. */
  lemma CeilingDiscards(f: real, w: nat, num: int)
    requires 0.0 < f <= 1.0 && (num - 1) as real < f * w as real <= num as real
    ensures DiscardNumber(num, w)
  {
    assert f * w as real <= 1.0 * w as real;
  }

  // Waking up.

  function Woken(w: Worker): Worker { if w.Asleep? then Ready else w }

  /** The workers at the given positions are woken, if they sleep. */
  ghost function Wake(ws: seq<Worker>, who: set<int>): (r: seq<Worker>)
    ensures |r| == |ws| && forall i :: 0 <= i < |ws| ==> r[i] == if i in who then Woken(ws[i]) else ws[i]
  {
    seq(|ws|, i requires 0 <= i < |ws| => if i in who then Woken(ws[i]) else ws[i])
  }

  /** pthread_cond_broadcast */
  ghost function WakeAll(ws: seq<Worker>): (r: seq<Worker>)
    ensures |r| == |ws| && forall i :: 0 <= i < |ws| ==> r[i] == Woken(ws[i])
  {
    seq(|ws|, i requires 0 <= i < |ws| => Woken(ws[i]))
  }

  function WokenAcceptor(a: Acceptor): Acceptor { if a.Blocked? then Holding(a.conn) else a }

  /** pthread_cond_signal wakes at least one sleeper, if there is one. */
  ghost predicate Signals(ws: seq<Worker>, who: set<int>) {
    (exists i :: 0 <= i < |ws| && ws[i].Asleep?) ==> exists i :: 0 <= i < |ws| && i in who && ws[i].Asleep?
  }

  // Steps.

  datatype Step =
    | Accept
    | Admit(who: set<int>, num: int, rand: nat -> nat)
    | WakeAcceptor
    | Sleep(i: int)
    | Take(i: int)
    | CloseOwn(i: int)
    | Finish(i: int)
    | WakeWorker(i: int)

  predicate Of(s: State, i: int) { 0 <= i < |s.workers| }

  ghost predicate Enabled(c: Config, s: State, step: Step) {
    match step
    case Accept => s.acceptor.Accepting?
    case Admit(who, num, rand) => s.acceptor.Holding? && Signals(s.workers, who) && DiscardNumber(num, |s.waiting|)
    case WakeAcceptor => s.acceptor.Blocked?
    case Sleep(i) => Of(s, i) && s.workers[i].Ready? && s.waiting == []
    case Take(i) => Of(s, i) && s.workers[i].Ready? && s.waiting != []
    case CloseOwn(i) => Of(s, i) && s.workers[i].Busy?
    case Finish(i) => Of(s, i) && s.workers[i].Finishing?
    case WakeWorker(i) => Of(s, i) && s.workers[i].Asleep?
  }

  /** Nobody is ever held up by more than the code waits for: an idle worker sleeps or takes, as the
      waiting queue says, a busy one can close, a finishing one finish, a sleeping one wake; the
      acceptor accepts, decides with any number the 30 percent may round to, or wakes. */
  lemma StepsPossible(c: Config, s: State, i: int)
    ensures Of(s, i) ==>
      match s.workers[i]
      case Ready => if s.waiting == [] then Enabled(c, s, Sleep(i)) else Enabled(c, s, Take(i))
      case Asleep => Enabled(c, s, WakeWorker(i))
      case Busy(_) => Enabled(c, s, CloseOwn(i))
      case Finishing => Enabled(c, s, Finish(i))
    ensures match s.acceptor
      case Accepting => Enabled(c, s, Accept)
      case Blocked(_) => Enabled(c, s, WakeAcceptor)
      case Holding(_) =>
        forall who, num, rand ::
          Signals(s.workers, who) && (if s.waiting == [] then num == 0 else 1 <= num <= |s.waiting|) ==>
            Enabled(c, s, Admit(who, num, rand))
  {
  }

  ghost function Apply(c: Config, s: State, step: Step): State
    requires Enabled(c, s, step)
  {
    match step
    case Accept => s.(acceptor := Holding(s.arrived), arrived := s.arrived + 1)
    case Admit(who, num, rand) => Admitting(c, s, who, num, rand)
    case WakeAcceptor => s.(acceptor := WokenAcceptor(s.acceptor))
    case Sleep(i) => s.(workers := s.workers[i := Asleep])
    case Take(i) =>
      s.(waiting := s.waiting[1..], running := s.running + [s.waiting[0]], dispatched := s.dispatched + [s.waiting[0]],
         workers := WakeAll(s.workers[i := Busy(s.waiting[0])]), acceptor := WokenAcceptor(s.acceptor))
    case CloseOwn(i) => s.(closed := s.closed + [s.workers[i].conn], workers := s.workers[i := Finishing])
    case Finish(i) =>
      s.(running := if s.running == [] then [] else s.running[1..],
         workers := WakeAll(s.workers[i := Ready]), acceptor := WokenAcceptor(s.acceptor))
    case WakeWorker(i) => s.(workers := s.workers[i := Ready])
  }

  ghost function Admitting(c: Config, s: State, who: set<int>, num: int, rand: nat -> nat): State
    requires s.acceptor.Holding?
  {
    var conn := s.acceptor.conn;
    if c.policy.Block? && Full(c.capacity, |s.waiting|, |s.running|) then s.(acceptor := Blocked(conn))
    else
      var a := Admitted(c, s.waiting, |s.running|, conn, num, rand);
      s.(waiting := a.waiting, closed := s.closed + a.closed, acceptor := Accepting,
         admitted := if a.admitted then s.admitted + [conn] else s.admitted,
         workers := if a.admitted then Wake(s.workers, who) else s.workers)
  }

  datatype Option<T> = None | Some(value: T)

  /** The state a sequence of steps leads to, if each of them is possible when it comes. */
  ghost function Run(c: Config, s: State, steps: seq<Step>): Option<State>
    decreases |steps|
  {
    if steps == [] then Some(s)
    else
      var n := |steps| - 1;
      var before := Run(c, s, steps[..n]);
      if before.None? || !Enabled(c, before.value, steps[n]) then None else Some(Apply(c, before.value, steps[n]))
  }

  // Counting workers.

  datatype Phase = IsReady | IsAsleep | IsBusy | IsFinishing

  function PhaseOf(w: Worker): Phase {
    match w case Ready => IsReady case Asleep => IsAsleep case Busy(_) => IsBusy case Finishing => IsFinishing
  }

  function One(w: Worker, p: Phase): nat { if PhaseOf(w) == p then 1 else 0 }

  function Number(ws: seq<Worker>, p: Phase): nat {
    if ws == [] then 0 else Number(ws[..|ws| - 1], p) + One(ws[|ws| - 1], p)
  }

  function Owns(w: Worker, x: int): nat { if w == Busy(x) then 1 else 0 }

  /** How many workers own connection x. */
  function Owners(ws: seq<Worker>, x: int): nat {
    if ws == [] then 0 else Owners(ws[..|ws| - 1], x) + Owns(ws[|ws| - 1], x)
  }

  lemma {:induction false} NumberChanges(ws: seq<Worker>, i: int, w: Worker, p: Phase)
    requires 0 <= i < |ws|
    ensures Number(ws[i := w], p) + One(ws[i], p) == Number(ws, p) + One(w, p)
  {
    var n := |ws| - 1;
    if i < n {
      assert ws[i := w][..n] == ws[..n][i := w];
      NumberChanges(ws[..n], i, w, p);
    } else {
      assert ws[i := w][..n] == ws[..n];
    }
  }

  lemma {:induction false} Present(ws: seq<Worker>, p: Phase)
    ensures Number(ws, p) > 0 <==> exists i :: 0 <= i < |ws| && PhaseOf(ws[i]) == p
  {
    if ws != [] {
      var n := |ws| - 1;
      Present(ws[..n], p);
      assert forall i :: 0 <= i < n ==> ws[..n][i] == ws[i];
    }
  }

  lemma {:induction false} OwnersChange(ws: seq<Worker>, i: int, w: Worker, x: int)
    requires 0 <= i < |ws|
    ensures Owners(ws[i := w], x) + Owns(ws[i], x) == Owners(ws, x) + Owns(w, x)
  {
    var n := |ws| - 1;
    if i < n {
      assert ws[i := w][..n] == ws[..n][i := w];
      OwnersChange(ws[..n], i, w, x);
    } else {
      assert ws[i := w][..n] == ws[..n];
    }
  }

  /** r is ws with some sleepers woken. */
  ghost predicate SomeWoken(ws: seq<Worker>, r: seq<Worker>) {
    |r| == |ws| && forall i :: 0 <= i < |ws| ==> r[i] == ws[i] || r[i] == Woken(ws[i])
  }

  lemma {:induction false} WakingOwners(ws: seq<Worker>, r: seq<Worker>, x: int)
    requires SomeWoken(ws, r)
    ensures Owners(r, x) == Owners(ws, x)
  {
    if ws != [] {
      WakingOwners(ws[..|ws| - 1], r[..|ws| - 1], x);
    }
  }

  /** Waking workers makes sleepers ready and changes nothing else. */
  lemma {:induction false} Waking(ws: seq<Worker>, r: seq<Worker>)
    requires SomeWoken(ws, r)
    ensures Number(r, IsBusy) == Number(ws, IsBusy) && Number(r, IsFinishing) == Number(ws, IsFinishing)
    ensures Number(r, IsReady) + Number(r, IsAsleep) == Number(ws, IsReady) + Number(ws, IsAsleep)
    ensures Number(r, IsReady) >= Number(ws, IsReady)
  {
    if ws != [] {
      Waking(ws[..|ws| - 1], r[..|ws| - 1]);
    }
  }

  lemma WakingOne(ws: seq<Worker>, r: seq<Worker>, i: int)
    requires SomeWoken(ws, r) && 0 <= i < |ws| && ws[i].Asleep? && r[i].Ready?
    ensures Number(r, IsReady) > Number(ws, IsReady)
  {
    NumberChanges(ws, i, Ready, IsReady);
    Waking(ws[i := Ready], r);
  }

  lemma WakingAll(ws: seq<Worker>)
    ensures Number(WakeAll(ws), IsAsleep) == 0
  {
    Present(WakeAll(ws), IsAsleep);
  }

  lemma {:induction false} AllCounted(ws: seq<Worker>)
    ensures Number(ws, IsReady) + Number(ws, IsAsleep) + Number(ws, IsBusy) + Number(ws, IsFinishing) == |ws|
  {
    if ws != [] { AllCounted(ws[..|ws| - 1]); }
  }

  lemma {:induction false} OwnersAreBusy(ws: seq<Worker>, x: int)
    ensures Owners(ws, x) <= Number(ws, IsBusy)
    ensures Owners(ws, x) > 0 <==> exists i :: 0 <= i < |ws| && ws[i] == Busy(x)
    ensures Owners(ws, x) <= 1 ==> forall i, j :: 0 <= i < j < |ws| && ws[i] == Busy(x) ==> ws[j] != Busy(x)
  {
    if ws != [] {
      var n := |ws| - 1;
      OwnersAreBusy(ws[..n], x);
      assert forall i :: 0 <= i < n ==> ws[..n][i] == ws[i];
    }
  }

  // The invariant.

  function Ids(n: nat): (r: seq<int>)
    ensures |r| == n && forall i :: 0 <= i < n ==> r[i] == i
  {
    seq(n, i => i)
  }

  function Holds(a: Acceptor, x: int): nat { if !a.Accepting? && a.conn == x then 1 else 0 }

  function Times(q: seq<int>, x: int): nat { multiset(q)[x] }

  lemma TimesAdd(a: seq<int>, b: seq<int>, x: int)
    ensures Times(a + b, x) == Times(a, x) + Times(b, x)
    ensures Times([x], x) == 1 && forall y :: y != x ==> Times([y], x) == 0
    ensures Times([], x) == 0
  {
  }

  /** In how many places connection x is: held by the acceptor, waiting, owned by a worker, closed. */
  function Places(s: State, x: int): nat {
    Holds(s.acceptor, x) + Times(s.waiting, x) + Owners(s.workers, x) + Times(s.closed, x)
  }

  /** Every accepted connection is in exactly one place, and no other connection is anywhere. */
  ghost predicate Accounted(s: State) {
    forall x :: Places(s, x) == if 0 <= x < s.arrived then 1 else 0
  }

  ghost predicate WithinCapacity(c: Config, s: State) {
    |s.waiting| + |s.running| <= if c.capacity < 0 then 0 else c.capacity
  }

  /** The running queue is as long as there are workers between take and finish, and holds the
      connections dispatched last. */
  ghost predicate Paired(s: State) {
    && |s.running| == Number(s.workers, IsBusy) + Number(s.workers, IsFinishing)
    && |s.running| <= |s.dispatched| && s.running == s.dispatched[|s.dispatched| - |s.running|..]
  }

  /** No wake-up is lost: while a worker sleeps, each waiting connection has an awake idle
      worker to itself; and the acceptor sleeps only while there is no room. */
  ghost predicate Alert(c: Config, s: State) {
    && (Number(s.workers, IsAsleep) > 0 ==> |s.waiting| <= Number(s.workers, IsReady))
    && (s.acceptor.Blocked? ==> c.policy.Block? && Full(c.capacity, |s.waiting|, |s.running|))
  }

  /** The number of connections whose admission has been decided. */
  function Decided(s: State): int { if s.acceptor.Accepting? then s.arrived else s.arrived - 1 }

  ghost predicate Orderly(c: Config, s: State) {
    && Decided(s) >= 0 && (!s.acceptor.Accepting? ==> s.acceptor.conn == Decided(s))
    && Subsequence(s.admitted, Ids(Decided(s)))
    && Subsequence(s.dispatched + s.waiting, s.admitted)
    && (c.policy.Block? || c.policy.DropTail? ==> s.dispatched + s.waiting == s.admitted)
  }

  ghost predicate Inv(c: Config, s: State) {
    Accounted(s) && WithinCapacity(c, s) && Paired(s) && Alert(c, s) && Orderly(c, s)
  }

  lemma {:induction false} StartCounts(n: nat)
    ensures forall x :: Owners(Start(n).workers, x) == 0
    ensures forall p :: Number(Start(n).workers, p) == if p == IsReady then n else 0
  {
    if n > 0 {
      assert Start(n).workers[..n - 1] == Start(n - 1).workers;
      StartCounts(n - 1);
    }
  }

  lemma StartOK(c: Config, n: nat)
    ensures Inv(c, Start(n))
  {
    hide Number, Owners, Times, Subsequence;
    StartCounts(n);
    forall x ensures Places(Start(n), x) == 0 { TimesAdd([], [], x); }
    SubsequenceRefl<int>([]);
    assert Ids(0) == [] && Start(n).dispatched + Start(n).waiting == [];
  }

  // What a step does to the workers.

  lemma TakeWorkers(ws: seq<Worker>, i: int, x: int)
    requires 0 <= i < |ws| && ws[i].Ready?
    ensures var r := WakeAll(ws[i := Busy(x)]);
      && Number(r, IsAsleep) == 0 && Number(r, IsBusy) == Number(ws, IsBusy) + 1
      && Number(r, IsFinishing) == Number(ws, IsFinishing)
  {
    hide Number;
    var w := ws[i := Busy(x)];
    NumberChanges(ws, i, Busy(x), IsBusy);
    NumberChanges(ws, i, Busy(x), IsFinishing);
    Waking(w, WakeAll(w));
    WakingAll(w);
  }

  lemma FinishWorkers(ws: seq<Worker>, i: int)
    requires 0 <= i < |ws| && ws[i].Finishing?
    ensures var r := WakeAll(ws[i := Ready]);
      && Number(r, IsAsleep) == 0 && Number(r, IsBusy) == Number(ws, IsBusy)
      && Number(r, IsFinishing) == Number(ws, IsFinishing) - 1
  {
    hide Number;
    var w := ws[i := Ready];
    NumberChanges(ws, i, Ready, IsBusy);
    NumberChanges(ws, i, Ready, IsFinishing);
    Waking(w, WakeAll(w));
    WakingAll(w);
  }

  /** A worker that goes to sleep, is woken, or closes its connection. */
  lemma OneWorker(ws: seq<Worker>, i: int, w: Worker)
    requires 0 <= i < |ws|
    ensures forall p :: Number(ws[i := w], p) + One(ws[i], p) == Number(ws, p) + One(w, p)
  {
    hide Number, One;
    forall p { NumberChanges(ws, i, w, p); }
  }

  lemma SignalWorkers(ws: seq<Worker>, who: set<int>)
    requires Signals(ws, who)
    ensures var r := Wake(ws, who);
      && Number(r, IsBusy) == Number(ws, IsBusy) && Number(r, IsFinishing) == Number(ws, IsFinishing)
      && Number(r, IsReady) >= Number(ws, IsReady) + (if Number(ws, IsAsleep) > 0 then 1 else 0)
      && (Number(ws, IsAsleep) == 0 ==> Number(r, IsAsleep) == 0)
  {
    hide Number;
    var r := Wake(ws, who);
    Waking(ws, r);
    Present(ws, IsAsleep);
    if Number(ws, IsAsleep) > 0 {
      var i :| 0 <= i < |ws| && PhaseOf(ws[i]) == IsAsleep;
      var j :| 0 <= j < |ws| && j in who && ws[j].Asleep?;
      WakingOne(ws, r, j);
    }
  }

  // What the policies do to the waiting queue.

  /** The waiting queue without the newcomer. */
  function Remaining<T>(c: Config, waiting: seq<T>, running: int, num: int, rand: nat -> nat): seq<T> {
    if !Full(c.capacity, |waiting|, running) then waiting
    else match c.policy
      case Block => waiting
      case DropTail => waiting
      case DropRand => Kept(waiting, num, rand, 0)
      case DropHead => if waiting == [] then [] else waiting[1..]
  }

  lemma AdmittedShape(c: Config, waiting: seq<int>, running: nat, conn: int, num: int, rand: nat -> nat)
    requires DiscardNumber(num, |waiting|)
    requires |waiting| + running <= (if c.capacity < 0 then 0 else c.capacity)
    requires !(c.policy.Block? && Full(c.capacity, |waiting|, running))
    ensures var a, left := Admitted(c, waiting, running, conn, num, rand), Remaining(c, waiting, running, num, rand);
      && a.waiting == left + (if a.admitted then [conn] else [])
      && |left| <= |waiting| && |a.waiting| <= |waiting| + 1 && (!a.admitted ==> |a.waiting| <= |waiting|)
      && |a.waiting| + running <= (if c.capacity < 0 then 0 else c.capacity)
      && (c.policy.Block? || c.policy.DropTail? ==> left == waiting)
  {
    hide Kept, Discarded;
    DiscardCount(waiting, num, rand, 0);
  }

  /** How many connections a newcomer costs: none while there is room.  When full, DROP_HEAD closes
      the oldest waiting one, DROP_RAND num of the waiting ones, or all if there are fewer, and a
      newcomer that is not admitted is closed itself. */
  lemma ClosedCount(c: Config, waiting: seq<int>, running: nat, conn: int, num: int, rand: nat -> nat)
    ensures var a, full := Admitted(c, waiting, running, conn, num, rand), c.capacity <= |waiting| + running;
      var dropped := if !full || c.policy.Block? || c.policy.DropTail? || waiting == [] then 0
                     else if c.policy.DropHead? then 1
                     else if num <= 0 then 0 else if num < |waiting| then num else |waiting|;
      && |a.closed| == dropped + (if a.admitted then 0 else 1)
      && |a.waiting| == |waiting| - dropped + (if a.admitted then 1 else 0)
      && (a.admitted <==> c.policy.Block? || !full || (c.policy.DropHead? && waiting != [])
                          || (c.policy.DropRand? && c.capacity > |waiting| - dropped + running))
  {
    hide Kept, Discarded;
    DiscardCount(waiting, num, rand, 0);
  }

  lemma RemainingInOrder(c: Config, waiting: seq<int>, running: nat, num: int, rand: nat -> nat)
    ensures Subsequence(Remaining(c, waiting, running, num, rand), waiting)
  {
    hide Kept, Subsequence;
    SubsequenceRefl(waiting);
    DiscardKeepsOrder(waiting, num, rand, 0);
    if waiting != [] {
      assert Without(waiting, 0) == waiting[1..];
      WithoutSubsequence(waiting, 0);
    }
  }

  /** The newcomer and the connections that waited are now waiting or closed. */
  lemma AdmittedAccounts(c: Config, waiting: seq<int>, running: nat, conn: int, num: int, rand: nat -> nat, x: int)
    ensures var a := Admitted(c, waiting, running, conn, num, rand);
      Times(a.waiting, x) + Times(a.closed, x) == Times(waiting, x) + Times([conn], x)
  {
    hide Kept, Discarded, Times;
    match c.policy
    case Block => TimesAdd(waiting, [conn], x);
    case DropTail => TimesAdd(waiting, [conn], x);
    case DropRand =>
      TimesAdd(waiting, [conn], x);
      RandAccounts(waiting, conn, num, rand, x);
    case DropHead =>
      TimesAdd(waiting, [conn], x);
      HeadAccounts(waiting, conn, x);
  }

  lemma RandAccounts(waiting: seq<int>, conn: int, num: int, rand: nat -> nat, x: int)
    ensures var left, gone := Kept(waiting, num, rand, 0), Discarded(waiting, num, rand, 0);
      && Times(left, x) + Times(gone + [conn], x) == Times(waiting, x) + Times([conn], x)
      && Times(left + [conn], x) + Times(gone, x) == Times(waiting, x) + Times([conn], x)
  {
    var left, gone := Kept(waiting, num, rand, 0), Discarded(waiting, num, rand, 0);
    assert Times(left, x) + Times(gone, x) == Times(waiting, x) by { DiscardAccounts(waiting, num, rand, 0); }
    hide Kept, Discarded, Times;
    TimesAdd(left, [conn], x);
    TimesAdd(gone, [conn], x);
  }

  lemma HeadAccounts(waiting: seq<int>, conn: int, x: int)
    ensures waiting != [] ==>
      Times(waiting[1..] + [conn], x) + Times([waiting[0]], x) == Times(waiting, x) + Times([conn], x)
    ensures Times([], x) == 0
  {
    hide Times;
    TimesAdd([], [conn], x);
    if waiting != [] {
      assert waiting == [waiting[0]] + waiting[1..];
      TimesAdd([waiting[0]], waiting[1..], x);
      TimesAdd(waiting[1..], [conn], x);
    }
  }

  // Every step keeps the invariant.

  lemma KeepsCapacity(c: Config, s: State, step: Step)
    requires Inv(c, s) && Enabled(c, s, step)
    ensures WithinCapacity(c, Apply(c, s, step))
  {
    if step.Admit? && !(c.policy.Block? && Full(c.capacity, |s.waiting|, |s.running|)) {
      AdmittedShape(c, s.waiting, |s.running|, s.acceptor.conn, step.num, step.rand);
    }
  }

  lemma KeepsPaired(c: Config, s: State, step: Step)
    requires Inv(c, s) && Enabled(c, s, step)
    ensures Paired(Apply(c, s, step))
  {
    hide Number, Owners, Admitted, Accounted, Alert, Orderly, Kept, Discarded, Signals, DiscardNumber, Full;
    match step
    case Accept =>
    case Admit(who, num, rand) => SignalWorkers(s.workers, who);
    case WakeAcceptor =>
    case Sleep(i) => OneWorker(s.workers, i, Asleep);
    case Take(i) => TakePaired(c, s, i);
    case CloseOwn(i) => OneWorker(s.workers, i, Finishing);
    case Finish(i) => FinishPaired(c, s, i);
    case WakeWorker(i) => OneWorker(s.workers, i, Ready);
  }

  lemma TakePaired(c: Config, s: State, i: int)
    requires Paired(s) && Enabled(c, s, Take(i))
    ensures Paired(Apply(c, s, Take(i)))
  {
    hide Number;
    TakeWorkers(s.workers, i, s.waiting[0]);
    TailGrows(s.dispatched, s.running, s.waiting[0]);
  }

  lemma FinishPaired(c: Config, s: State, i: int)
    requires Paired(s) && Enabled(c, s, Finish(i))
    ensures Paired(Apply(c, s, Finish(i)))
  {
    hide Number;
    FinishWorkers(s.workers, i);
    NumberOf(s.workers, i);
    TailShrinks(s.dispatched, s.running);
  }

  lemma TailGrows(d: seq<int>, r: seq<int>, x: int)
    requires |r| <= |d| && r == d[|d| - |r|..]
    ensures r + [x] == (d + [x])[|d| - |r|..]
  {
  }

  lemma TailShrinks(d: seq<int>, r: seq<int>)
    requires |r| <= |d| && r == d[|d| - |r|..]
    ensures r != [] ==> r[1..] == d[|d| - |r| + 1..]
  {
  }

  lemma NumberOf(ws: seq<Worker>, i: int)
    requires 0 <= i < |ws|
    ensures Number(ws, PhaseOf(ws[i])) > 0
  {
  }

  lemma KeepsAlert(c: Config, s: State, step: Step)
    requires Inv(c, s) && Enabled(c, s, step)
    ensures Alert(c, Apply(c, s, step))
  {
    hide Number, Owners, Admitted, Accounted, Paired, Orderly, Kept, Discarded;
    match step
    case Accept =>
    case Admit(who, num, rand) =>
      SignalWorkers(s.workers, who);
      if !(c.policy.Block? && Full(c.capacity, |s.waiting|, |s.running|)) {
        AdmittedShape(c, s.waiting, |s.running|, s.acceptor.conn, num, rand);
      }
    case WakeAcceptor =>
    case Sleep(i) => OneWorker(s.workers, i, Asleep);
    case Take(i) => TakeWorkers(s.workers, i, s.waiting[0]);
    case CloseOwn(i) => OneWorker(s.workers, i, Finishing);
    case Finish(i) => FinishWorkers(s.workers, i);
    case WakeWorker(i) => OneWorker(s.workers, i, Ready);
  }

  lemma TakeAccounts(c: Config, s: State, i: int, x: int)
    requires Enabled(c, s, Take(i))
    ensures Places(Apply(c, s, Take(i)), x) == Places(s, x)
  {
    hide Owners, Times;
    var w := s.workers[i := Busy(s.waiting[0])];
    OwnersChange(s.workers, i, Busy(s.waiting[0]), x);
    WakingOwners(w, WakeAll(w), x);
    assert s.waiting == [s.waiting[0]] + s.waiting[1..];
    TimesAdd([s.waiting[0]], s.waiting[1..], x);
  }

  lemma CloseAccounts(c: Config, s: State, i: int, x: int)
    requires Enabled(c, s, CloseOwn(i))
    ensures Places(Apply(c, s, CloseOwn(i)), x) == Places(s, x)
  {
    hide Owners, Times;
    OwnersChange(s.workers, i, Finishing, x);
    TimesAdd(s.closed, [s.workers[i].conn], x);
  }

  lemma AdmitAccounts(c: Config, s: State, who: set<int>, num: int, rand: nat -> nat, x: int)
    requires Enabled(c, s, Admit(who, num, rand))
    ensures Places(Apply(c, s, Admit(who, num, rand)), x) == Places(s, x)
  {
    hide Owners, Times, Admitted;
    WakingOwners(s.workers, Wake(s.workers, who), x);
    AdmittedAccounts(c, s.waiting, |s.running|, s.acceptor.conn, num, rand, x);
    TimesAdd(s.closed, Admitted(c, s.waiting, |s.running|, s.acceptor.conn, num, rand).closed, x);
    TimesAdd([], [s.acceptor.conn], x);
  }

  /** No step but Accept changes in how many places a connection is. */
  lemma PlacesStay(c: Config, s: State, step: Step, x: int)
    requires Enabled(c, s, step)
    ensures Places(Apply(c, s, step), x) == Places(s, x) + if step.Accept? && x == s.arrived then 1 else 0
  {
    hide Owners, Times, Admitted;
    match step
    case Accept =>
    case Admit(who, num, rand) => AdmitAccounts(c, s, who, num, rand, x);
    case WakeAcceptor =>
    case Sleep(i) => OwnersChange(s.workers, i, Asleep, x);
    case Take(i) => TakeAccounts(c, s, i, x);
    case CloseOwn(i) => CloseAccounts(c, s, i, x);
    case Finish(i) =>
      OwnersChange(s.workers, i, Ready, x);
      WakingOwners(s.workers[i := Ready], WakeAll(s.workers[i := Ready]), x);
    case WakeWorker(i) => OwnersChange(s.workers, i, Ready, x);
  }

  lemma KeepsAccounted(c: Config, s: State, step: Step)
    requires Inv(c, s) && Enabled(c, s, step)
    ensures Accounted(Apply(c, s, step))
  {
    forall x { PlacesStay(c, s, step, x); }
    hide Places;
    assert Apply(c, s, step).arrived == s.arrived + if step.Accept? then 1 else 0;
  }

  lemma SubsequenceGrows(a: seq<int>, b: seq<int>, x: int)
    requires Subsequence(a, b)
    ensures Subsequence(a + [x], b + [x]) && Subsequence(a, b + [x])
  {
  }

  lemma {:induction false} SubsequenceAfter(d: seq<int>, a: seq<int>, b: seq<int>)
    requires Subsequence(a, b)
    ensures Subsequence(d + a, d + b)
    decreases |b|
  {
    if b == [] {
      SubsequenceRefl(d);
      assert d + a == d && d + b == d;
    } else {
      var n := |b| - 1;
      assert d + b == (d + b[..n]) + [b[n]];
      if a == [] {
        SubsequenceAfter(d, a, b[..n]);
        SubsequenceGrows(d + a, d + b[..n], b[n]);
      } else if a[|a| - 1] == b[n] && Subsequence(a[..|a| - 1], b[..n]) {
        SubsequenceAfter(d, a[..|a| - 1], b[..n]);
        SubsequenceGrows(d + a[..|a| - 1], d + b[..n], b[n]);
        assert d + a == (d + a[..|a| - 1]) + [b[n]];
      } else {
        SubsequenceAfter(d, a, b[..n]);
        SubsequenceGrows(d + a, d + b[..n], b[n]);
      }
    }
  }

  lemma KeepsOrderly(c: Config, s: State, step: Step)
    requires Inv(c, s) && Enabled(c, s, step)
    ensures Orderly(c, Apply(c, s, step))
  {
    match step
    case Admit(who, num, rand) =>
      if !(c.policy.Block? && Full(c.capacity, |s.waiting|, |s.running|)) {
        AdmitKeepsOrder(c, s, who, num, rand);
      }
    case Take(i) =>
      assert s.dispatched + [s.waiting[0]] + s.waiting[1..] == s.dispatched + s.waiting;
    case _ =>
  }

  lemma AdmitKeepsOrder(c: Config, s: State, who: set<int>, num: int, rand: nat -> nat)
    requires Inv(c, s) && Enabled(c, s, Admit(who, num, rand))
    requires !(c.policy.Block? && Full(c.capacity, |s.waiting|, |s.running|))
    ensures Orderly(c, Admitting(c, s, who, num, rand))
  {
    hide Subsequence, Admitted, Remaining, Accounted, Paired, Alert;
    var conn, left := s.acceptor.conn, Remaining(c, s.waiting, |s.running|, num, rand);
    AdmittedShape(c, s.waiting, |s.running|, conn, num, rand);
    RemainingInOrder(c, s.waiting, |s.running|, num, rand);
    OrderAfter(s.dispatched, left, s.waiting, s.admitted, conn);
    IdsGrow(s.admitted, conn);
  }

  lemma IdsGrow(a: seq<int>, n: nat)
    requires Subsequence(a, Ids(n))
    ensures Subsequence(a, Ids(n + 1)) && Subsequence(a + [n], Ids(n + 1))
  {
    hide Subsequence, Ids;
    SubsequenceGrows(a, Ids(n), n);
    NextId(n);
  }

  lemma NextId(n: nat)
    ensures Ids(n + 1) == Ids(n) + [n]
  {
    hide Ids;
  }

  lemma OrderAfter(d: seq<int>, left: seq<int>, w: seq<int>, admitted: seq<int>, conn: int)
    requires Subsequence(left, w) && Subsequence(d + w, admitted)
    ensures Subsequence(d + (left + []), admitted) && Subsequence(d + (left + [conn]), admitted + [conn])
    ensures left == w && d + w == admitted ==> d + (left + [conn]) == admitted + [conn] && d + (left + []) == admitted
  {
    hide Subsequence;
    SubsequenceAfter(d, left, w);
    SubsequenceTrans(d + left, d + w, admitted);
    SubsequenceGrows(d + left, admitted, conn);
    assert d + (left + [conn]) == d + left + [conn] && left + [] == left;
  }

  lemma StepOK(c: Config, s: State, step: Step)
    requires Inv(c, s) && Enabled(c, s, step)
    ensures Inv(c, Apply(c, s, step))
  {
    KeepsCapacity(c, s, step);
    KeepsPaired(c, s, step);
    KeepsAlert(c, s, step);
    KeepsAccounted(c, s, step);
    KeepsOrderly(c, s, step);
  }

  /** The invariant holds after every run, for any number of workers. */
  lemma {:induction false} RunOK(c: Config, n: nat, steps: seq<Step>)
    requires Run(c, Start(n), steps).Some?
    ensures Inv(c, Run(c, Start(n), steps).value) && |Run(c, Start(n), steps).value.workers| == n
    decreases |steps|
  {
    hide Inv;
    if steps == [] {
      StartOK(c, n);
    } else {
      var m := |steps| - 1;
      RunOK(c, n, steps[..m]);
      StepOK(c, Run(c, Start(n), steps[..m]).value, steps[m]);
    }
  }

  // What follows, after every run.

  lemma TimesIsIn(q: seq<int>, x: int)
    ensures Times(q, x) > 0 <==> x in q
    ensures Times(q, x) <= 1 ==> forall i, j :: 0 <= i < j < |q| && q[i] == x ==> q[j] != x
  {
    forall i, j | 0 <= i < j < |q| && q[i] == x && q[j] == x ensures Times(q, x) > 1 {
      assert q == q[..j] + q[j..];
      assert x in q[..j] && x in q[j..];
    }
  }

  ghost predicate OwnedBySome(s: State, x: int) { exists i :: 0 <= i < |s.workers| && s.workers[i] == Busy(x) }

  /** Each accepted connection is held by the acceptor, waits, is owned by one worker, or is
      closed: one of these, once, and closed only once. */
  lemma Conservation(c: Config, n: nat, steps: seq<Step>, x: int)
    requires Run(c, Start(n), steps).Some?
    ensures var s := Run(c, Start(n), steps).value;
      var held, waits, owned, closed := Holds(s.acceptor, x) == 1, x in s.waiting, OwnedBySome(s, x), x in s.closed;
      && (0 <= x < s.arrived <==> held || waits || owned || closed)
      && !(held && waits) && !(held && owned) && !(held && closed) && !(waits && owned) && !(waits && closed)
      && !(owned && closed)
      && (forall i, j :: 0 <= i < j < |s.waiting| && s.waiting[i] == x ==> s.waiting[j] != x)
      && (forall i, j :: 0 <= i < j < |s.closed| && s.closed[i] == x ==> s.closed[j] != x)
      && (forall i, j :: 0 <= i < j < |s.workers| && s.workers[i] == Busy(x) ==> s.workers[j] != Busy(x))
  {
    RunOK(c, n, steps);
    var s := Run(c, Start(n), steps).value;
    assert Places(s, x) == if 0 <= x < s.arrived then 1 else 0;
    hide Run, Owners, Times;
    TimesIsIn(s.waiting, x);
    TimesIsIn(s.closed, x);
    OwnersAreBusy(s.workers, x);
  }

  /** Waiting and running connections together never exceed the queue size, and a worker that
      finishes never pops an empty running queue, though it pops the head and not its own. */
  lemma Capacity(c: Config, n: nat, steps: seq<Step>)
    requires Run(c, Start(n), steps).Some?
    ensures var s := Run(c, Start(n), steps).value;
      && |s.waiting| + |s.running| <= (if c.capacity < 0 then 0 else c.capacity)
      && |s.running| == Number(s.workers, IsBusy) + Number(s.workers, IsFinishing) <= n
      && forall i :: Enabled(c, s, Finish(i)) ==> s.running != []
  {
    RunOK(c, n, steps);
    var s := Run(c, Start(n), steps).value;
    hide Run, Accounted, Orderly, Number;
    AllCounted(s.workers);
    forall i | Enabled(c, s, Finish(i)) ensures s.running != [] { FinishFinds(c, s, i); }
  }

  lemma FinishFinds(c: Config, s: State, i: int)
    requires Paired(s) && Enabled(c, s, Finish(i))
    ensures s.running != []
  {
    NumberOf(s.workers, i);
  }

  /** When a newcomer is turned away: under Block never; under DropTail when the server is full;
      under DropHead and DropRand only when the running connections alone fill it. */
  lemma Refusal(c: Config, n: nat, steps: seq<Step>, num: int, rand: nat -> nat)
    requires Run(c, Start(n), steps).Some?
    requires var s := Run(c, Start(n), steps).value; s.acceptor.Holding? && DiscardNumber(num, |s.waiting|)
    ensures var s := Run(c, Start(n), steps).value;
      !Admitted(c, s.waiting, |s.running|, s.acceptor.conn, num, rand).admitted <==>
        match c.policy
        case Block => false
        case DropTail => c.capacity <= |s.waiting| + |s.running|
        case DropRand => c.capacity <= |s.running|
        case DropHead => c.capacity <= |s.running|
  {
    RunOK(c, n, steps);
    var s := Run(c, Start(n), steps).value;
    assert WithinCapacity(c, s);
    hide Kept, Discarded, Run, Inv;
    DiscardCount(s.waiting, num, rand, 0);
  }

  /** Connections are dispatched in the order they arrived, whatever is dropped in between; when
      nothing that was admitted is dropped later, in exactly the order of admission. */
  lemma Order(c: Config, n: nat, steps: seq<Step>)
    requires Run(c, Start(n), steps).Some?
    ensures var s := Run(c, Start(n), steps).value;
      && Subsequence(s.dispatched + s.waiting, Ids(s.arrived))
      && (c.policy.Block? || c.policy.DropTail? ==> s.dispatched + s.waiting == s.admitted)
      && |s.running| <= |s.dispatched| && s.running == s.dispatched[|s.dispatched| - |s.running|..]
  {
    RunOK(c, n, steps);
    hide Run, Orderly, Paired;
    InOrder(c, Run(c, Start(n), steps).value);
  }

  lemma InOrder(c: Config, s: State)
    requires Orderly(c, s) && Paired(s)
    ensures Subsequence(s.dispatched + s.waiting, Ids(s.arrived))
    ensures c.policy.Block? || c.policy.DropTail? ==> s.dispatched + s.waiting == s.admitted
    ensures |s.running| <= |s.dispatched| && s.running == s.dispatched[|s.dispatched| - |s.running|..]
  {
    hide Subsequence, Number;
    var d := Decided(s);
    if d < s.arrived { IdsGrow(s.admitted, d); }
    SubsequenceTrans(s.dispatched + s.waiting, s.admitted, Ids(s.arrived));
  }

  /** While a worker sleeps, the waiting connections are no more than the awake idle workers; and
      while the acceptor sleeps, the server is full. */
  lemma NoLostWakeup(c: Config, n: nat, steps: seq<Step>)
    requires Run(c, Start(n), steps).Some?
    ensures var s := Run(c, Start(n), steps).value;
      && ((exists i :: 0 <= i < |s.workers| && s.workers[i].Asleep?) ==> |s.waiting| <= Number(s.workers, IsReady))
      && (s.acceptor.Blocked? ==> c.capacity <= |s.waiting| + |s.running|)
  {
    RunOK(c, n, steps);
    Present(Run(c, Start(n), steps).value.workers, IsAsleep);
  }

  // Progress.

  /** What a worker does by itself: not a spurious wake-up. */
  predicate WorkerStep(step: Step) { step.Sleep? || step.Take? || step.CloseOwn? || step.Finish? }

  ghost predicate WorkersStuck(c: Config, s: State) {
    forall i :: !Enabled(c, s, Sleep(i)) && !Enabled(c, s, Take(i)) && !Enabled(c, s, CloseOwn(i))
      && !Enabled(c, s, Finish(i))
  }

  /** With a worker and some capacity, a blocked acceptor or a waiting connection always leaves
      some worker able to move. */
  lemma SomeoneCanMove(c: Config, s: State)
    requires Inv(c, s) && s.workers != []
    requires (s.acceptor.Blocked? && c.capacity >= 1) || s.waiting != []
    ensures exists i :: Enabled(c, s, Take(i)) || Enabled(c, s, CloseOwn(i)) || Enabled(c, s, Finish(i))
  {
    AllCounted(s.workers);
    Present(s.workers, IsReady);
    Present(s.workers, IsBusy);
    Present(s.workers, IsFinishing);
    hide Number;
    var p :| p != IsAsleep && Number(s.workers, p) > 0 && (p == IsReady ==> s.waiting != []);
    var i :| 0 <= i < |s.workers| && PhaseOf(s.workers[i]) == p;
    assert Enabled(c, s, Take(i)) || Enabled(c, s, CloseOwn(i)) || Enabled(c, s, Finish(i));
  }

  ghost predicate Descends(s: State, t: State) {
    || |t.waiting| < |s.waiting|
    || (|t.waiting| == |s.waiting|
        && (|| Number(t.workers, IsBusy) < Number(s.workers, IsBusy)
            || (Number(t.workers, IsBusy) == Number(s.workers, IsBusy)
                && (|| Number(t.workers, IsFinishing) < Number(s.workers, IsFinishing)
                    || (Number(t.workers, IsFinishing) == Number(s.workers, IsFinishing)
                        && Number(t.workers, IsReady) < Number(s.workers, IsReady))))))
  }

  /** Worker steps cannot go on for ever: each descends in a well-founded order, however many
      sleepers a broadcast wakes in vain. */
  lemma WorkerStepDescends(c: Config, s: State, step: Step)
    requires Inv(c, s) && Enabled(c, s, step) && WorkerStep(step)
    ensures Descends(s, Apply(c, s, step))
  {
    hide Number;
    match step
    case Sleep(i) => OneWorker(s.workers, i, Asleep);
    case Take(i) =>
    case CloseOwn(i) => OneWorker(s.workers, i, Finishing);
    case Finish(i) => FinishWorkers(s.workers, i);
  }

  /** And they stop only when all the work is done. */
  lemma StuckMeansIdle(c: Config, s: State)
    requires Inv(c, s) && s.workers != [] && c.capacity >= 1 && WorkersStuck(c, s)
    ensures s.waiting == [] && s.running == [] && !s.acceptor.Blocked?
    ensures forall i :: 0 <= i < |s.workers| ==> s.workers[i].Asleep?
    ensures forall x :: 0 <= x < s.arrived && Holds(s.acceptor, x) == 0 ==> x in s.closed
  {
    if s.acceptor.Blocked? || s.waiting != [] {
      SomeoneCanMove(c, s);
      assert false;
    }
    forall i | 0 <= i < |s.workers| ensures s.workers[i].Asleep? {
      assert !Enabled(c, s, Sleep(i)) && !Enabled(c, s, CloseOwn(i)) && !Enabled(c, s, Finish(i));
    }
    Present(s.workers, IsBusy);
    Present(s.workers, IsFinishing);
    hide Number, Owners, Times;
    forall x | 0 <= x < s.arrived && Holds(s.acceptor, x) == 0 ensures x in s.closed {
      assert Places(s, x) == 1;
      OwnersAreBusy(s.workers, x);
      TimesIsIn(s.waiting, x);
      TimesIsIn(s.closed, x);
    }
  }

  lemma {:induction false} RunPrepend(c: Config, s: State, step: Step, rest: seq<Step>)
    requires Enabled(c, s, step)
    ensures Run(c, s, [step] + rest) == Run(c, Apply(c, s, step), rest)
    decreases |rest|
  {
    hide Enabled, Apply;
    var all := [step] + rest;
    if rest == [] {
      assert all == [step] && all[..0] == [];
      assert Run(c, s, all[..0]) == Some(s);
    } else {
      var n := |rest| - 1;
      assert all[..|all| - 1] == [step] + rest[..n];
      RunPrepend(c, s, step, rest[..n]);
    }
  }

  /** From every reachable state the workers can finish by themselves: then every accepted
      connection but one the acceptor may be holding is closed. */
  lemma {:induction false} WorkDrains(c: Config, s: State) returns (steps: seq<Step>)
    requires Inv(c, s) && s.workers != [] && c.capacity >= 1
    ensures (forall k :: 0 <= k < |steps| ==> WorkerStep(steps[k])) && Run(c, s, steps).Some?
    ensures var t := Run(c, s, steps).value;
      && t.waiting == [] && t.running == [] && !t.acceptor.Blocked? && t.arrived == s.arrived
      && forall x :: 0 <= x < t.arrived && Holds(t.acceptor, x) == 0 ==> x in t.closed
    decreases |s.waiting|, Number(s.workers, IsBusy), Number(s.workers, IsFinishing), Number(s.workers, IsReady)
  {
    hide Inv, Number, Run;
    if WorkersStuck(c, s) {
      StuckMeansIdle(c, s);
      steps := [];
      EmptyRun(c, s);
    } else {
      var step := FindWorkerStep(c, s);
      StepOK(c, s, step);
      WorkerStepDescends(c, s, step);
      var t := Apply(c, s, step);
      var rest := WorkDrains(c, t);
      steps := [step] + rest;
      RunPrepend(c, s, step, rest);
    }
  }

  lemma EmptyRun(c: Config, s: State)
    ensures Run(c, s, []) == Some(s)
  {
  }

  lemma FindWorkerStep(c: Config, s: State) returns (step: Step)
    requires !WorkersStuck(c, s)
    ensures WorkerStep(step) && Enabled(c, s, step)
  {
    var i :| Enabled(c, s, Sleep(i)) || Enabled(c, s, Take(i)) || Enabled(c, s, CloseOwn(i))
      || Enabled(c, s, Finish(i));
    step := if Enabled(c, s, Sleep(i)) then Sleep(i) else if Enabled(c, s, Take(i)) then Take(i)
            else if Enabled(c, s, CloseOwn(i)) then CloseOwn(i) else Finish(i);
  }

  lemma Next(c: Config, n: nat, steps: seq<Step>, s: State, step: Step) returns (steps2: seq<Step>, t: State)
    requires Run(c, Start(n), steps) == Some(s) && Enabled(c, s, step)
    ensures steps2 == steps + [step] && t == Apply(c, s, step) && Run(c, Start(n), steps2) == Some(t)
  {
    steps2, t := steps + [step], Apply(c, s, step);
    assert steps2[..|steps|] == steps;
  }

  lemma OneWaiting() returns (c: Config, steps: seq<Step>, s: State)
    ensures Run(c, Start(2), steps) == Some(s) && c == Config(Block, 2) && s.acceptor == Accepting && s.arrived == 1
    ensures s.workers == [Ready, Ready] && s.waiting == [0] && s.running == []
  {
    hide Run, Kept, Discarded;
    c := Config(Block, 2);
    EmptyRun(c, Start(2));
    steps, s := Next(c, 2, [], Start(2), Accept);
    steps, s := Next(c, 2, steps, s, Admit({}, 0, k => 0));
  }

  lemma TwoWaiting() returns (c: Config, steps: seq<Step>, s: State)
    ensures Run(c, Start(2), steps) == Some(s) && s.workers == [Ready, Ready] && s.waiting == [0, 1] && s.running == []
  {
    hide Run, Kept, Discarded;
    c, steps, s := OneWaiting();
    steps, s := Next(c, 2, steps, s, Accept);
    steps, s := Next(c, 2, steps, s, Admit({}, 1, k => 0));
    assert s.workers == [Ready, Ready] && s.waiting == [0, 1];
  }

  /** The running queue does not name the connections being handled: of two workers the second
      one finishes first, and the entry it pops is the other one's. */
  lemma RunningMisnames() returns (c: Config, steps: seq<Step>)
    ensures Run(c, Start(2), steps).Some? && |Run(c, Start(2), steps).value.workers| == 2
    ensures var s := Run(c, Start(2), steps).value; s.running == [1] && 1 in s.closed && s.workers[0] == Busy(0)
  {
    hide Run, Kept, Discarded;
    var s;
    c, steps, s := TwoWaiting();
    steps, s := Next(c, 2, steps, s, Take(0));
    assert s.workers == [Busy(0), Ready] && s.waiting == [1];
    steps, s := Next(c, 2, steps, s, Take(1));
    assert s.workers == [Busy(0), Busy(1)] && s.running == [0, 1];
    steps, s := Next(c, 2, steps, s, CloseOwn(1));
    steps, s := Next(c, 2, steps, s, Finish(1));
  }

  // The regions as the server executes them, on its two queues.

  lemma FdsOf(q: seq<Entry>)
    ensures q != [] ==> Fds(q)[0] == q[0].fd && Fds(q[1..]) == Fds(q)[1..]
    ensures forall e :: Fds(q + [e]) == Fds(q) + [e.fd]
  {
  }

  /** Discarding commutes with forgetting the arrival times. */
  lemma {:induction false} FdsDiscard(q: seq<Entry>, num: int, rand: nat -> nat, k: nat)
    ensures Fds(Kept(q, num, rand, k)) == Kept(Fds(q), num, rand, k)
    ensures Fds(Discarded(q, num, rand, k)) == Discarded(Fds(q), num, rand, k)
    decreases |q|
  {
    hide Fds, Without, Pick;
    if num > 0 && q != [] {
      var i := Pick(rand(k), |q|);
      FdsWithout(q, i);
      FdsDiscard(Without(q, i), num - 1, rand, k + 1);
      FdsCons(q[i], Discarded(Without(q, i), num - 1, rand, k + 1));
    } else {
      NoFds(q);
    }
  }

  lemma FdsWithout(q: seq<Entry>, i: nat)
    requires i < |q|
    ensures Fds(Without(q, i)) == Without(Fds(q), i)
  {
  }

  lemma FdsCons(e: Entry, q: seq<Entry>)
    ensures Fds([e] + q) == [e.fd] + Fds(q)
  {
  }

  lemma NoFds(q: seq<Entry>)
    ensures Fds(q) == [] <==> q == []
    ensures Fds([]) == []
  {
  }

  lemma StepQueues(c: Config, s: State, step: Step)
    requires Enabled(c, s, step)
    ensures step.Take? ==> s.waiting != [] && Apply(c, s, step).waiting == s.waiting[1..]
                           && Apply(c, s, step).running == s.running + [s.waiting[0]]
    ensures step.Finish? ==> Apply(c, s, step).waiting == s.waiting
                             && Apply(c, s, step).running == if s.running == [] then [] else s.running[1..]
  {
  }

  predicate Descriptors(q: seq<Entry>) { forall e :: e in q ==> e.fd >= 0 }

  lemma DescriptorsKept(q: seq<Entry>, num: int, rand: nat -> nat, e: Entry)
    requires Descriptors(q)
    ensures Descriptors(Kept(q, num, rand, 0)) && (q != [] ==> Descriptors(q[1..]))
    ensures e.fd >= 0 ==> Descriptors(q + [e])
  {
    DiscardAccounts(q, num, rand, 0);
    hide Kept, Discarded;
    forall d | d in Kept(q, num, rand, 0) ensures d.fd >= 0 {
      assert d in multiset(Kept(q, num, rand, 0)) && d in multiset(q);
    }
  }

  class RequestServer {
    const config: Config
    const waiting: Queue
    const running: Queue

    ghost predicate Valid()
      reads this, waiting, waiting.repr, running, running.repr
    {
      && waiting != running && waiting.repr !! running.repr
      && waiting.Valid() && running.Valid() && Descriptors(waiting.Contents())
    }

    ghost function Waiting(): seq<int>
      reads this, waiting
    {
      Fds(waiting.Contents())
    }

    ghost function Running(): seq<int>
      reads this, running
    {
      Fds(running.Contents())
    }

    constructor (c: Config)
      ensures Valid() && config == c && Waiting() == [] && Running() == []
      ensures fresh(waiting) && fresh(running) && waiting.repr == running.repr == {}
    {
      config := c;
      waiting := new Queue();
      running := new Queue();
    }

    /** The queues are those of a state of the transition system. */
    ghost predicate Matches(s: State)
      reads this, waiting, running
    {
      Waiting() == s.waiting && Running() == s.running
    }

    /** A worker takes the first waiting request, with its arrival time.  The time it records for
        the running queue was never set. */
    method TakeRequest(unset: int) returns (fd: int, arrival: int)
      requires Valid() && Waiting() != []
      modifies waiting, running, running.repr
      ensures Valid() && fd == old(Waiting())[0]
      ensures Waiting() == old(Waiting())[1..] && Running() == old(Running()) + [fd]
      ensures Entry(fd, arrival) == old(waiting.Contents())[0] && waiting.Contents() == old(waiting.Contents())[1..]
      ensures running.Contents() == old(running.Contents()) + [Entry(fd, unset)]
      ensures fresh(running.repr - old(running.repr)) && waiting.repr == old(waiting.repr)
      ensures forall s, i :: old(Matches(s)) && Enabled(config, s, Take(i)) ==> Matches(Apply(config, s, Take(i)))
    {
      hide Apply, Enabled, Fds, NextOf, Entries, Chained;
      FdsOf(waiting.Contents());
      FdsOf(running.Contents());
      NoFds(waiting.Contents());
      fd, arrival := waiting.Pop();
      running.Push(fd, unset);
      forall s, i | old(Matches(s)) && Enabled(config, s, Take(i)) ensures Matches(Apply(config, s, Take(i))) {
        StepQueues(config, s, Take(i));
      }
    }

    /** A worker gives its place back. */
    method FinishRequest()
      requires Valid()
      modifies running
      ensures Valid() && Waiting() == old(Waiting())
      ensures Running() == if old(Running()) == [] then [] else old(Running())[1..]
      ensures running.Contents() == if old(running.Contents()) == [] then [] else old(running.Contents())[1..]
      ensures waiting.Contents() == old(waiting.Contents()) && running.repr == old(running.repr)
      ensures forall s, i :: old(Matches(s)) && Enabled(config, s, Finish(i)) ==> Matches(Apply(config, s, Finish(i)))
    {
      hide Apply, Enabled, Fds, NextOf, Entries, Chained;
      ghost var q := running.Contents();
      FdsOf(q);
      NoFds(q);
      var fd, arrival := running.Pop();
      forall s, i | old(Matches(s)) && Enabled(config, s, Finish(i)) ensures Matches(Apply(config, s, Finish(i))) {
        StepQueues(config, s, Finish(i));
      }
    }

    method Enqueue(conn: int, arrival: int)
      requires Valid() && conn >= 0
      modifies waiting, waiting.repr
      ensures Valid() && Waiting() == old(Waiting()) + [conn]
      ensures waiting.Contents() == old(waiting.Contents()) + [Entry(conn, arrival)]
      ensures fresh(waiting.repr - old(waiting.repr))
    {
      FdsOf(waiting.Contents());
      DescriptorsKept(waiting.Contents(), 0, k => 0, Entry(conn, arrival));
      waiting.Push(conn, arrival);
    }

    /** What the accept loop does with a new connection, once it has the mutex.  If it must wait,
        nothing has happened yet. */
    method Decide(conn: int, arrival: int, num: int, rand: nat -> nat)
        returns (mustWait: bool, closed: seq<int>, admitted: bool)
      requires Valid() && conn >= 0
      modifies waiting, waiting.repr
      ensures Valid() && Running() == old(Running())
      ensures mustWait <==> config.policy.Block? && Full(config.capacity, |old(Waiting())|, |Running()|)
      ensures mustWait ==> Waiting() == old(Waiting()) && waiting.Contents() == old(waiting.Contents())
      ensures !mustWait ==>
        Admission(Waiting(), closed, admitted) == Admitted(config, old(Waiting()), |Running()|, conn, num, rand)
      ensures !mustWait ==>
        waiting.Contents() == Remaining(config, old(waiting.Contents()), |Running()|, num, rand)
                              + (if admitted then [Entry(conn, arrival)] else [])
      ensures fresh(waiting.repr - old(waiting.repr))
    {
      hide Kept, Discarded, Fds, NextOf, Entries, Chained, Descriptors;
      mustWait, closed, admitted := false, [], true;
      var full := config.capacity <= waiting.Size() + running.Size();
      match config.policy
      case Block =>
        if full {
          return true, [], false;
        }
        Enqueue(conn, arrival);
      case DropTail =>
        if full {
          return false, [conn], false;
        }
        Enqueue(conn, arrival);
      case DropRand =>
        if full {
          closed := DropSome(num, rand);
        }
        if config.capacity > waiting.Size() + running.Size() {
          Enqueue(conn, arrival);
        } else {
          closed, admitted := closed + [conn], false;
        }
      case DropHead =>
        if full {
          closed, admitted := ReplaceHead(conn, arrival);
        } else {
          Enqueue(conn, arrival);
        }
    }

    method DropSome(num: int, rand: nat -> nat) returns (closed: seq<int>)
      requires Valid()
      modifies waiting, waiting.repr
      ensures Valid() && waiting.repr == old(waiting.repr)
      ensures Waiting() == Kept(old(Waiting()), num, rand, 0) && closed == Discarded(old(Waiting()), num, rand, 0)
      ensures waiting.Contents() == Kept(old(waiting.Contents()), num, rand, 0)
    {
      FdsDiscard(waiting.Contents(), num, rand, 0);
      DescriptorsKept(waiting.Contents(), num, rand, Entry(0, 0));
      closed := waiting.DiscardX(num, rand);
    }

    /** The oldest waiting request makes way for the new one, if there is one. */
    method ReplaceHead(conn: int, arrival: int) returns (closed: seq<int>, admitted: bool)
      requires Valid() && conn >= 0
      modifies waiting, waiting.repr
      ensures Valid()
      ensures admitted <==> old(Waiting()) != []
      ensures if admitted then Waiting() == old(Waiting())[1..] + [conn] && closed == [old(Waiting())[0]]
              else Waiting() == [] && closed == [conn]
      ensures waiting.Contents() == if admitted then old(waiting.Contents())[1..] + [Entry(conn, arrival)] else []
      ensures fresh(waiting.repr - old(waiting.repr))
    {
      hide Kept, NextOf, Entries, Chained;
      FdsOf(waiting.Contents());
      DescriptorsKept(waiting.Contents(), 0, k => 0, Entry(0, 0));
      var head, at := waiting.Pop();
      if head != -1 {
        Enqueue(conn, arrival);
        return [head], true;
      }
      return [conn], false;
    }
  }

  /** A decision of the accept loop is a step of the transition system. */
  lemma DecisionIsStep(c: Config, s: State, who: set<int>, num: int, rand: nat -> nat, mustWait: bool,
                       waiting: seq<int>,
                       closed: seq<int>, admitted: bool)
    requires Enabled(c, s, Admit(who, num, rand))
    requires mustWait <==> c.policy.Block? && Full(c.capacity, |s.waiting|, |s.running|)
    requires mustWait ==> waiting == s.waiting
    requires !mustWait ==>
      Admission(waiting, closed, admitted) == Admitted(c, s.waiting, |s.running|, s.acceptor.conn, num, rand)
    ensures var t := Apply(c, s, Admit(who, num, rand));
      && t.waiting == waiting && t.running == s.running
      && (mustWait ==> t.acceptor == Blocked(s.acceptor.conn) && t.closed == s.closed)
      && (!mustWait ==> t.acceptor == Accepting && t.closed == s.closed + closed
                        && t.admitted == s.admitted + (if admitted then [s.acceptor.conn] else []))
  {
  }
}
