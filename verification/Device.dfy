/** The blocking device calls of the driver core as a state machine.

    Any number of tasks read, write, open and close one device during one open period, while interrupt handlers
    change the counts and notify. A step of a task is one semaphore operation, one test, or driver code; the change
    of a count and the notification in an interrupt handler are one step. */
module Device {
  import opened Sums
  import opened Wrappers

  datatype Direction = Rx | Tx

  datatype Call = OpenClose | Transfer(d: Direction)

  /** Where a task stands in a call. The names tell what it does next, or what it waits for. */
  datatype Phase =
    | Idle
    | Entering(call: Call)        // at the first wait for `dev->sem`
    | Checking(d: Direction)      // at the condition of the wait loop
    | Releasing(d: Direction)     // the condition was true; gives `dev->sem` back
    | Waiting(d: Direction)       // at the wait for `rx_sem` or `tx_sem`
    | Woken(d: Direction)         // took a token; at the wait for `dev->sem` inside the loop
    | Working(call: Call)         // in the driver's read, write, init or deinit
    | Rechecking(d: Direction)    // at the test before waking another task
    | Posting(d: Direction)       // the test was true; posts `rx_sem` or `tx_sem`
    | Exiting                     // gives `dev->sem` back and returns

  type Positive = n: nat | n > 0 witness 1

  /** `count` and `size` are the device's rx or tx fields, `tokens` is the value of its rx or tx semaphore and `limit`
      the largest value of that semaphore: a post beyond it is refused. */
  datatype Channel = Channel(count: int, size: int, tokens: nat, limit: Positive)

  datatype Core = Core(sem: nat, rx: Channel, tx: Channel)

  datatype State = State(dev: Core, tasks: seq<Phase>)

  datatype Event =
    | Enter(i: nat, call: Call)
    | Task(i: nat)
    | Timeout(i: nat)
    | Work(i: nat, count: int)                 // driver code inside a read or write sets its count
    | Nonblock(d: Direction, count: int)       // driver code inside a nonblocking call
    | Interrupt(d: Direction, count: int)      // a count change with `os_device_recv_notify` or `os_device_send_notify`

  function Chan(v: Core, d: Direction): Channel { if d.Rx? then v.rx else v.tx }

  function WithChan(v: Core, d: Direction, c: Channel): Core { if d.Rx? then v.(rx := c) else v.(tx := c) }

  /** Data to read, or room to write */
  predicate Available(d: Direction, c: Channel) { if d.Rx? then c.count != 0 else c.count != c.size }

  predicate MustWait(d: Direction, c: Channel) { c.size != 0 && !Available(d, c) }

  function Posted(c: Channel): Channel { if c.tokens < c.limit then c.(tokens := c.tokens + 1) else c }

  /** `os_sem_post(&dev->sem)`: that semaphore has the maximum 1. */
  function Release(v: Core): Core { if v.sem < 1 then v.(sem := v.sem + 1) else v }

  /** A task's next instruction, if it is not blocked: the device and the task's phase afterwards */
  function Advance(v: Core, p: Phase): Option<(Core, Phase)> {
    match p
    case Idle => None
    case Entering(call) =>
      if v.sem == 0 then None
      else Some((v.(sem := v.sem - 1), if call.OpenClose? then Working(call) else Checking(call.d)))
    case Checking(d) => Some((v, if MustWait(d, Chan(v, d)) then Releasing(d) else Working(Transfer(d))))
    case Releasing(d) => Some((Release(v), Waiting(d)))
    case Waiting(d) =>
      var c := Chan(v, d);
      if c.tokens == 0 then None else Some((WithChan(v, d, c.(tokens := c.tokens - 1)), Woken(d)))
    case Woken(d) => if v.sem == 0 then None else Some((v.(sem := v.sem - 1), Checking(d)))
    case Working(call) => Some((v, if call.OpenClose? then Exiting else Rechecking(call.d)))
    case Rechecking(d) => Some((v, if Available(d, Chan(v, d)) then Posting(d) else Exiting))
    case Posting(d) => Some((WithChan(v, d, Posted(Chan(v, d))), Exiting))
    case Exiting => Some((Release(v), Idle))
  }

  function TaskStep(s: State, i: nat): Option<State>
    requires i < |s.tasks|
  {
    match Advance(s.dev, s.tasks[i])
    case None => None
    case Some((v, p)) => Some(State(v, s.tasks[i := p]))
  }

  function Step(s: State, e: Event): Option<State> {
    match e
    case Enter(i, call) =>
      if i < |s.tasks| && s.tasks[i] == Idle then Some(s.(tasks := s.tasks[i := Entering(call)])) else None
    case Task(i) => if i < |s.tasks| then TaskStep(s, i) else None
    case Timeout(i) =>
      if i < |s.tasks| && s.tasks[i].Waiting? then Some(s.(tasks := s.tasks[i := Idle])) else None
    case Work(i, n) =>
      if i < |s.tasks| && s.tasks[i].Working? && s.tasks[i].call.Transfer? then
        var d := s.tasks[i].call.d;
        Some(s.(dev := WithChan(s.dev, d, Chan(s.dev, d).(count := n))))
      else None
    case Nonblock(d, n) =>
      // A nonblocking call only takes data out, or only puts data in.
      var c := Chan(s.dev, d).(count := n);
      if Available(d, c) && !Available(d, Chan(s.dev, d)) then None else Some(s.(dev := WithChan(s.dev, d, c)))
    case Interrupt(d, n) => Some(s.(dev := WithChan(s.dev, d, Posted(Chan(s.dev, d).(count := n)))))
  }

  function Run(s: State, es: seq<Event>): Option<State>
    decreases |es|
  {
    if es == [] then Some(s)
    else match Step(s, es[0])
      case None => None
      case Some(s') => Run(s', es[1..])
  }

  // ----- What the steps do -----

  /** The transfer need not wait: the device has no buffer for the direction, or there is data to read or room to write. */
  predicate Ready(d: Direction, c: Channel) {
    match d
    case Rx => c.size == 0 || c.count != 0
    case Tx => c.size == 0 || c.count != c.size
  }

  /** The test of the wait loop: a task goes on to the driver exactly if the transfer need not wait, and otherwise gives
      `dev->sem` back to wait; and it reaches the driver in no other way. */
  lemma TransferGuarded(s: State, e: Event, s': State, i: nat, d: Direction)
    requires Step(s, e) == Some(s') && i < |s.tasks|
    ensures s.tasks[i] == Checking(d) && e == Task(i) ==>
      s'.dev == s.dev && s'.tasks[i] == if Ready(d, Chan(s.dev, d)) then Working(Transfer(d)) else Releasing(d)
    ensures s'.tasks[i] == Working(Transfer(d)) && s.tasks[i] != Working(Transfer(d)) ==>
      s.tasks[i] == Checking(d) && e == Task(i)
  {
  }

  /** The way through a call: which phases come before a phase. A call ends by giving `dev->sem` back, or by a timeout of its
      wait. */
  predicate Follows(p: Phase, q: Phase) {
    match q
    case Idle => p.Exiting? || p.Waiting?
    case Entering(_) => p.Idle?
    case Checking(d) => p == Entering(Transfer(d)) || p == Woken(d)
    case Releasing(d) => p == Checking(d)
    case Waiting(d) => p == Releasing(d)
    case Woken(d) => p == Waiting(d)
    case Working(OpenClose) => p == Entering(OpenClose)
    case Working(Transfer(d)) => p == Checking(d)
    case Rechecking(d) => p == Working(Transfer(d))
    case Posting(d) => p == Rechecking(d)
    case Exiting => p.Posting? || p.Rechecking? || p == Working(OpenClose)
  }

  /** A step moves no task or one task along that way. A task that waits goes on only with a token, or leaves at a timeout,
      which changes nothing in the device. */
  lemma OneMoves(s: State, e: Event, s': State, i: nat)
    requires Step(s, e) == Some(s') && i < |s.tasks|
    ensures |s'.tasks| == |s.tasks|
    ensures s'.tasks[i] != s.tasks[i] ==>
      && (e.Enter? || e.Task? || e.Timeout?) && e.i == i && Follows(s.tasks[i], s'.tasks[i])
      && (s.tasks[i].Waiting? ==> (e.Timeout? && s'.tasks[i] == Idle) || Takes(s, e, s.tasks[i].d))
    ensures e.Timeout? || e.Enter? ==> s'.dev == s.dev
  {
  }

  /** After a transfer another task is woken exactly if something is left to read or room to write. */
  lemma WakesOthers(s: State, s': State, i: nat, d: Direction)
    requires i < |s.tasks| && TaskStep(s, i) == Some(s') && s.tasks[i] == Rechecking(d)
    ensures var c := Chan(s.dev, d);
      && s'.dev == s.dev
      && s'.tasks[i] == if (d.Rx? && c.count != 0) || (d.Tx? && c.count != c.size) then Posting(d) else Exiting
  {
  }

  /** The step posts the token semaphore of the direction: an interrupt, or a task waking another */
  predicate Posts(s: State, e: Event, d: Direction) {
    (e.Interrupt? && e.d == d) || (e.Task? && e.i < |s.tasks| && s.tasks[e.i] == Posting(d))
  }

  /** The step takes a token: a task that waits for one */
  predicate Takes(s: State, e: Event, d: Direction) { e.Task? && e.i < |s.tasks| && s.tasks[e.i] == Waiting(d) }

  /** Tokens are only made by posts, up to the limit, and only taken by waits, which they end. */
  lemma TokensChange(s: State, e: Event, s': State, d: Direction)
    requires Step(s, e) == Some(s')
    ensures var c, c' := Chan(s.dev, d), Chan(s'.dev, d);
      && c'.size == c.size && c'.limit == c.limit
      && c'.tokens ==
           if Posts(s, e, d) && c.tokens < c.limit then c.tokens + 1
           else if Takes(s, e, d) then c.tokens - 1
           else c.tokens
    ensures Takes(s, e, d) ==> Chan(s.dev, d).tokens > 0 && s'.tasks[e.i] == Woken(d)
  {
  }

  /** Only driver code and interrupts change a count. */
  lemma CountsChange(s: State, e: Event, s': State, d: Direction)
    requires Step(s, e) == Some(s')
    ensures Chan(s'.dev, d).count ==
      match e
      case Work(i, n) => if s.tasks[i] == Working(Transfer(d)) then n else Chan(s.dev, d).count
      case Nonblock(x, n) => if x == d then n else Chan(s.dev, d).count
      case Interrupt(x, n) => if x == d then n else Chan(s.dev, d).count
      case _ => Chan(s.dev, d).count
  {
  }

  lemma {:induction false} RunSnoc(s: State, es: seq<Event>)
    requires es != [] && Run(s, es).Some?
    ensures Run(s, es[..|es| - 1]).Some? && Step(Run(s, es[..|es| - 1]).value, es[|es| - 1]) == Run(s, es)
    decreases |es|
  {
    if |es| > 1 {
      var m := Step(s, es[0]).value;
      RunSnoc(m, es[1..]);
      assert es[1..][..|es| - 2] == es[..|es| - 1][1..];
    } else {
      assert es[1..] == [] && es[..0] == [];
    }
  }

  /** The k-th event of the run is the test that lets the task go on to the driver. */
  ghost predicate TestedAt(s: State, es: seq<Event>, k: nat, i: nat, d: Direction) {
    && k < |es| && es[k] == Task(i)
    && Run(s, es[..k]).Some?
    && var m := Run(s, es[..k]).value;
       i < |m.tasks| && m.tasks[i] == Checking(d) && Ready(d, Chan(m.dev, d))
  }

  /** Since the k-th event the task has been in the driver. */
  ghost predicate BusySince(s: State, es: seq<Event>, k: nat, i: nat, d: Direction) {
    forall j :: k < j <= |es| ==>
      Run(s, es[..j]).Some? && i < |Run(s, es[..j]).value.tasks| && Run(s, es[..j]).value.tasks[i] == Working(Transfer(d))
  }

  /** In every run, a task that is in the driver's read or write got there by a test at which the transfer need not wait,
      and has been there since. */
  lemma {:induction false} TestedBefore(s: State, es: seq<Event>, s': State, i: nat, d: Direction) returns (k: nat)
    requires Initial(s) && Run(s, es) == Some(s') && i < |s'.tasks| && s'.tasks[i] == Working(Transfer(d))
    ensures TestedAt(s, es, k, i, d) && BusySince(s, es, k, i, d)
    decreases |es|
  {
    k := 0;
    if es != [] {
      var n := |es| - 1;
      RunSnoc(s, es);
      var m := Run(s, es[..n]).value;
      assert es[..|es|] == es;
      TransferGuarded(m, es[n], s', i, d);
      if m.tasks[i] == Working(Transfer(d)) {
        k := TestedBefore(s, es[..n], m, i, d);
        assert forall j :: 0 <= j <= n ==> es[..n][..j] == es[..j];
      } else {
        k := n;
      }
    }
  }

  // ----- Counting tasks -----

  /** 1 for the phases in which a task has `dev->sem` */
  function Holds(p: Phase): nat {
    match p
    case Idle | Entering(_) | Waiting(_) | Woken(_) => 0
    case _ => 1
  }

  /** The task has a token or `dev->sem` and will still look at the count of its direction. */
  predicate Attends(p: Phase, d: Direction) {
    p in {Woken(d), Checking(d), Working(Transfer(d)), Rechecking(d), Posting(d)}
  }

  /** The task is blocked on the token semaphore, or goes there next. */
  predicate Blocked(p: Phase, d: Direction) { p == Waiting(d) || p == Releasing(d) }

  // ----- The invariant -----

  predicate Attended(s: State, d: Direction) {
    exists i :: 0 <= i < |s.tasks| && Attends(s.tasks[i], d)
  }

  predicate SomeBlocked(s: State, d: Direction) {
    exists i :: 0 <= i < |s.tasks| && Blocked(s.tasks[i], d)
  }

  /** No task stays blocked on an empty token semaphore while its transfer could proceed, unless another task is
      about to look at the count. */
  predicate Served(s: State, d: Direction) {
    var c := Chan(s.dev, d);
    && (SomeBlocked(s, d) ==> c.size != 0)
    && (SomeBlocked(s, d) && Available(d, c) ==> c.tokens > 0 || Attended(s, d))
  }

  /** `dev->sem` is either free or has exactly one holder. */
  predicate Exclusive(s: State) { s.dev.sem + Total(s.tasks, Holds) == 1 }

  predicate Inv(s: State) { Exclusive(s) && Served(s, Rx) && Served(s, Tx) }

  /** No call is under way; the counts and tokens may be whatever an earlier period left. */
  predicate Initial(s: State) { s.dev.sem == 1 && forall i :: 0 <= i < |s.tasks| ==> s.tasks[i] == Idle }

  lemma InitialInv(s: State)
    requires Initial(s)
    ensures Inv(s)
  {
    TotalZero(s.tasks, Holds);
  }

  lemma AdvanceHolds(v: Core, p: Phase, v': Core, p': Phase)
    requires v.sem + Holds(p) <= 1 && Advance(v, p) == Some((v', p'))
    ensures v'.sem + Holds(p') == v.sem + Holds(p)
  {
  }

  lemma ExclusiveKept(s: State, e: Event, s': State)
    requires Exclusive(s) && Step(s, e) == Some(s')
    ensures Exclusive(s')
  {
    if e.Enter? || e.Task? || e.Timeout? {
      var p, p' := s.tasks[e.i], s'.tasks[e.i];
      assert s'.tasks == s.tasks[e.i := p'];
      TotalUpdated(s.tasks, Holds, e.i, p');
      TotalAtLeast(s.tasks, Holds, e.i);
      if e.Task? { AdvanceHolds(s.dev, p, s'.dev, p'); }
    }
  }

  /** A task stops attending only when nothing is available or a token is left, and blocks only when nothing is
      available. */
  lemma AdvanceServes(v: Core, p: Phase, v': Core, p': Phase, d: Direction)
    requires Advance(v, p) == Some((v', p'))
    ensures var c, c' := Chan(v, d), Chan(v', d);
      && c'.count == c.count && c'.size == c.size
      && (Blocked(p', d) && !Blocked(p, d) ==> MustWait(d, c))
      && (Attends(p, d) && !Attends(p', d) && Available(d, c') ==> c'.tokens > 0)
      && (c.tokens > 0 && c'.tokens == 0 ==> Attends(p', d))
  {
  }

  lemma ServedKeptByTask(s: State, i: nat, s': State, d: Direction)
    requires i < |s.tasks| && TaskStep(s, i) == Some(s') && Served(s, d)
    ensures Served(s', d)
  {
    var p, p' := s.tasks[i], s'.tasks[i];
    AdvanceServes(s.dev, p, s'.dev, p', d);
    assert forall k :: 0 <= k < |s.tasks| && k != i ==> s'.tasks[k] == s.tasks[k];
    if SomeBlocked(s', d) {
      var k :| 0 <= k < |s'.tasks| && Blocked(s'.tasks[k], d);
      assert k != i ==> Blocked(s.tasks[k], d);
    }
    if Attended(s, d) && !Attended(s', d) {
      var k :| 0 <= k < |s.tasks| && Attends(s.tasks[k], d);
      assert k != i ==> Attends(s'.tasks[k], d);
    }
  }

  lemma ServedKept(s: State, e: Event, s': State, d: Direction)
    requires Served(s, d) && Step(s, e) == Some(s')
    ensures Served(s', d)
  {
    match e {
      case Task(i) => { ServedKeptByTask(s, i, s', d); }
      case Enter(i, _) => { OthersKept(s, i, s', d); }
      case Timeout(i) => { OthersKept(s, i, s', d); }
      case Work(i, _) => {
        if s.tasks[i].call.d == d { assert Attends(s'.tasks[i], d); }
      }
      case Nonblock(_, _) => {}
      case Interrupt(_, _) => {}
    }
  }

  lemma OthersKept(s: State, i: nat, s': State, d: Direction)
    requires i < |s.tasks| == |s'.tasks| && Served(s, d) && s' == State(s.dev, s.tasks[i := s'.tasks[i]])
    requires !Attends(s.tasks[i], d) && !Blocked(s'.tasks[i], d)
    ensures Served(s', d)
  {
    if Attended(s, d) {
      var k :| 0 <= k < |s.tasks| && Attends(s.tasks[k], d);
      assert Attends(s'.tasks[k], d);
    }
    if SomeBlocked(s', d) {
      var k :| 0 <= k < |s.tasks| && Blocked(s'.tasks[k], d);
      assert Blocked(s.tasks[k], d);
    }
  }

  lemma InvStep(s: State, e: Event, s': State)
    requires Inv(s) && Step(s, e) == Some(s')
    ensures Inv(s')
  {
    ExclusiveKept(s, e, s');
    ServedKept(s, e, s', Rx);
    ServedKept(s, e, s', Tx);
  }

  /** The invariant holds after every run of tasks and interrupts. */
  lemma {:induction false} InvRun(s: State, es: seq<Event>, s': State)
    requires Inv(s) && Run(s, es) == Some(s')
    ensures Inv(s')
    decreases |es|
  {
    if es != [] {
      var m := Step(s, es[0]).value;
      InvStep(s, es[0], m);
      InvRun(m, es[1..], s');
    }
  }

  /** At most one task has `dev->sem`. */
  lemma OneHolder(s: State, i: nat, j: nat)
    requires Exclusive(s) && i < |s.tasks| && j < |s.tasks| && Holds(s.tasks[i]) == Holds(s.tasks[j]) == 1
    ensures i == j
  {
    if i != j {
      TotalUpdated(s.tasks, Holds, i, Idle);
      TotalAtLeast(s.tasks[i := Idle], Holds, j);
    }
  }

  // ----- Progress -----

  /** How much a task can still do by itself: a token is worth four. */
  function Rank(p: Phase): nat {
    match p
    case Idle => 0
    case Exiting => 1
    case Posting(_) => 6
    case Rechecking(_) => 7
    case Working(_) => 8
    case Waiting(_) => 7
    case Releasing(_) => 8
    case Checking(_) => 9
    case Woken(_) => 10
    case Entering(_) => 10
  }

  function Weight(s: State): nat { Total(s.tasks, Rank) + 4 * (s.dev.rx.tokens + s.dev.tx.tokens) }

  lemma TaskDecreases(s: State, i: nat, s': State)
    requires i < |s.tasks| && TaskStep(s, i) == Some(s')
    ensures Weight(s') < Weight(s)
  {
    var p, p' := s.tasks[i], s'.tasks[i];
    assert s'.tasks == s.tasks[i := p'];
    TotalUpdated(s.tasks, Rank, i, p');
    AdvanceDecreases(s.dev, p, s'.dev, p');
  }

  lemma AdvanceDecreases(v: Core, p: Phase, v': Core, p': Phase)
    requires Advance(v, p) == Some((v', p'))
    ensures Rank(p') + 4 * (v'.rx.tokens + v'.tx.tokens) < Rank(p) + 4 * (v.rx.tokens + v.tx.tokens)
  {
  }

  /** No task can go on by itself. */
  predicate Stuck(s: State) { forall i :: 0 <= i < |s.tasks| ==> TaskStep(s, i) == None }

  /** `dev->sem` is free, and whoever is still in a call waits for a token with nothing to transfer. */
  predicate Settled(s: State) {
    && s.dev.sem == 1
    && forall i :: 0 <= i < |s.tasks| ==>
      || s.tasks[i] == Idle
      || (s.tasks[i].Waiting? && MustWait(s.tasks[i].d, Chan(s.dev, s.tasks[i].d)))
  }

  /** There is no deadlock and no lost wake-up. */
  lemma StuckIsSettled(s: State)
    requires Inv(s) && Stuck(s)
    ensures Settled(s)
  {
    if s.dev.sem == 0 {
      var _ := HolderMoves(s);
    }
    forall i | 0 <= i < |s.tasks|
      ensures s.tasks[i] == Idle || (s.tasks[i].Waiting? && MustWait(s.tasks[i].d, Chan(s.dev, s.tasks[i].d)))
    {
      assert TaskStep(s, i) == None;
      if s.tasks[i].Waiting? {
        assert Blocked(s.tasks[i], s.tasks[i].d);
        NoneAttends(s, s.tasks[i].d);
      }
    }
  }

  /** Whoever has `dev->sem` can always go on. */
  lemma HolderMoves(s: State) returns (h: nat)
    requires Exclusive(s) && s.dev.sem == 0
    ensures h < |s.tasks| && TaskStep(s, h).Some?
  {
    h := TotalPositive(s.tasks, Holds);
  }

  lemma NoneAttends(s: State, d: Direction)
    requires Stuck(s) && s.dev.sem == 1
    ensures !Attended(s, d)
  {
    forall k | 0 <= k < |s.tasks| ensures !Attends(s.tasks[k], d) {
      assert TaskStep(s, k) == None;
    }
  }

  function Tasks(order: seq<nat>): (es: seq<Event>)
    ensures |es| == |order|
  {
    if order == [] then [] else [Task(order[0])] + Tasks(order[1..])
  }

  /** Left alone by interrupts and new calls, the tasks come to rest: every schedule is finite, with a bound that
      does not depend on it, and where it cannot be continued the state is settled. */
  lemma {:induction false} ComesToRest(s: State, order: seq<nat>, s': State)
    requires Inv(s) && Run(s, Tasks(order)) == Some(s')
    ensures |order| + Weight(s') <= Weight(s)
    ensures Stuck(s') ==> Settled(s')
    decreases |order|
  {
    if order == [] {
      if Stuck(s) { StuckIsSettled(s); }
    } else {
      var m := Step(s, Task(order[0])).value;
      TaskDecreases(s, order[0], m);
      InvStep(s, Task(order[0]), m);
      assert Tasks(order)[1..] == Tasks(order[1..]);
      ComesToRest(m, order[1..], s');
    }
  }

  /** Such a state is reached from everywhere. */
  lemma {:induction false} RestReached(s: State) returns (order: seq<nat>, s': State)
    requires Inv(s)
    ensures Run(s, Tasks(order)) == Some(s') && Settled(s')
    decreases Weight(s)
  {
    if Stuck(s) {
      StuckIsSettled(s);
      order, s' := [], s;
    } else {
      var i: nat :| i < |s.tasks| && TaskStep(s, i) != None;
      var m := TaskStep(s, i).value;
      TaskDecreases(s, i, m);
      InvStep(s, Task(i), m);
      var rest;
      rest, s' := RestReached(m);
      order := [i] + rest;
      assert Tasks(order)[1..] == Tasks(rest);
    }
  }

  /** Over whole runs: after any run from the start of an open period, at most one task has `dev->sem`, no task is
      overlooked, and the tasks come to rest by themselves. */
  lemma EveryRun(s: State, es: seq<Event>, m: State, order: seq<nat>, s': State)
    requires Initial(s) && Run(s, es) == Some(m) && Run(m, Tasks(order)) == Some(s')
    ensures Inv(m) && |order| <= Weight(m) && (Stuck(s') ==> Settled(s'))
  {
    InitialInv(s);
    InvRun(s, es, m);
    ComesToRest(m, order, s');
  }
}
