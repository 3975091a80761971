/** The circular queue of waiting clients in MIDTERM PROJECT/biboServer.c, filled by a signal
    handler and emptied by the dispatch loop of `main`. */
module ClientQueue {
  import opened RingBuffer

  const MAX_CLIENTS := 10
  const NO_CLIENT := -1

  /** `enqueue`: the client is refused when the queue is full. */
  function Enqueued(r: Ring<int>, pid: int): Ring<int>
    requires WellFormed(r)
  {
    if r.count == |r.slots| then r
    else
      var stored := AdvanceIn(StoreSlot(r, pid));
      stored.(count := stored.count + 1)
  }

  /** `dequeue`: the queue afterwards and the client, or -1. */
  function Dequeued(r: Ring<int>): (Ring<int>, int)
    requires WellFormed(r)
  {
    if r.count == 0 then (r, NO_CLIENT)
    else (AdvanceOut(r).(count := r.count - 1), r.slots[r.out])
  }

  /** On the queue the array stands for, `enqueue` appends unless ten clients wait. */
  lemma EnqueuedContents(r: Ring<int>, q: seq<int>, pid: int)
    requires Represents(r, q)
    ensures Represents(Enqueued(r, pid), if |q| == |r.slots| then q else q + [pid])
  {
    if |q| < |r.slots| {
      StoreKeeps(r, q, pid);
      AdvanceInKeeps(StoreSlot(r, pid), q, pid);
      CountUpKeeps(AdvanceIn(StoreSlot(r, pid)), q, pid);
    }
  }

  /** On the queue the array stands for, `dequeue` takes the oldest client. */
  lemma DequeuedContents(r: Ring<int>, q: seq<int>)
    requires Represents(r, q)
    ensures var (r', pid) := Dequeued(r);
            if q == [] then r' == r && pid == -1 else Represents(r', q[1..]) && pid == q[0]
  {
    if q != [] {
      assert r.slots[Index(r.out, 0 + 0, |r.slots|)] == q[0];
      DropKeeps(r, q);
      AdvanceOutKeeps(r, q[1..]);
      CountDownKeeps(AdvanceOut(r), q[1..]);
    }
  }

  /** The queue part of the shared memory segment; fresh shared memory is zeroed. */
  class Segment {
    const queue: array<int>
    var front: nat
    var rear: nat
    var count: nat

    function View(): Ring<int>
      reads this, queue
    {
      Ring(rear, front, count, false, queue[..])
    }

    ghost predicate Valid()
      reads this, queue
    {
      && queue.Length == MAX_CLIENTS && WellFormed(View()) && count <= MAX_CLIENTS
      && rear == (front + count) % MAX_CLIENTS
    }

    /** The waiting clients, oldest first. */
    function Waiting(): seq<int>
      reads this, queue
      requires Valid()
    {
      Contents(View())
    }

    lemma Abstraction(q: seq<int>)
      requires WellFormed(View()) && queue.Length == MAX_CLIENTS
      ensures Represents(View(), q) <==> Valid() && Waiting() == q
    {
      RepresentsIsContents(View(), q);
    }

    constructor ()
      ensures Valid() && Waiting() == [] && fresh(queue)
    {
      queue := new int[MAX_CLIENTS](_ => 0);
      front, rear, count := 0, 0, 0;
    }

    predicate IsEmpty()
      reads this
    {
      count == 0
    }

    predicate IsFull()
      reads this
    {
      count == MAX_CLIENTS
    }

    /** `accepted` is false when the client is sent SIGUSR2. */
    method Enqueue(pid: int) returns (accepted: bool)
      requires Valid()
      modifies this`rear, this`count, queue
      ensures Valid() && accepted == (|old(Waiting())| < 10)
      ensures Waiting() == if accepted then old(Waiting()) + [pid] else old(Waiting())
      ensures View() == Enqueued(old(View()), pid)
    {
      ghost var q := Waiting();
      Abstraction(q);
      EnqueuedContents(View(), q, pid);
      accepted := !IsFull();
      if accepted {
        queue[rear] := pid;
        rear := (rear + 1) % MAX_CLIENTS;
        count := count + 1;
        assert View() == Enqueued(old(View()), pid);
        Abstraction(q + [pid]);
      }
    }

    method Dequeue() returns (pid: int)
      requires Valid()
      modifies this`front, this`count
      ensures Valid()
      ensures if old(Waiting()) == [] then pid == -1 && Waiting() == []
              else pid == old(Waiting())[0] && Waiting() == old(Waiting())[1..]
      ensures (View(), pid) == Dequeued(old(View()))
    {
      ghost var q := Waiting();
      Abstraction(q);
      DequeuedContents(View(), q);
      pid := NO_CLIENT;
      if !IsEmpty() {
        pid := queue[front];
        front := (front + 1) % MAX_CLIENTS;
        count := count - 1;
        assert (View(), pid) == Dequeued(old(View()));
        Abstraction(q[1..]);
      }
    }
  }

  // The dispatcher and the signal handler.

  /** Where the loop of `main` is: before `is_empty`, before `dequeue`, holding a client. */
  datatype Dispatcher = Check | Take | Fork(pid: int)

  /** A call of `fork` for a client and whether there is a child; the loop goes on either way. */
  datatype Call = Call(pid: int, ok: bool)

  /** `accepted`, `rejected` and `calls` are history variables. */
  datatype State = State(ring: Ring<int>, at: Dispatcher, accepted: seq<int>, rejected: seq<int>, calls: seq<Call>)

  /** The handler runs with what `waitpid` returned, or the loop makes its next step, where a
      `fork` has the given outcome. */
  datatype Action = Signal(pid: int) | Dispatch(ok: bool)

  function Init(): State {
    State(Ring(0, 0, 0, false, seq(MAX_CLIENTS, _ => 0)), Check, [], [], [])
  }

  function Do(s: State, a: Action): State
    requires WellFormed(s.ring)
  {
    match a
    case Signal(pid) =>
      if s.ring.count == |s.ring.slots| then s.(rejected := s.rejected + [pid])
      else s.(ring := Enqueued(s.ring, pid), accepted := s.accepted + [pid])
    case Dispatch(ok) =>
      match s.at
      case Check => if s.ring.count == 0 then s else s.(at := Take)   // otherwise sleep(1)
      case Take => var (r, pid) := Dequeued(s.ring); s.(ring := r, at := Fork(pid))
      case Fork(pid) => s.(calls := s.calls + [Call(pid, ok)], at := Check)
  }

  predicate Run(s: State, acts: seq<Action>, t: State)
    decreases |acts|
  {
    if acts == [] then s == t else WellFormed(s.ring) && Run(Do(s, acts[0]), acts[1..], t)
  }

  function InHand(at: Dispatcher): seq<int> {
    if at.Fork? then [at.pid] else []
  }

  /** The clients `fork` was called for. */
  function Pids(calls: seq<Call>): (pids: seq<int>)
    ensures |pids| == |calls|
  {
    seq(|calls|, k requires 0 <= k < |calls| => calls[k].pid)
  }

  lemma PidsSnoc(calls: seq<Call>, c: Call)
    ensures Pids(calls + [c]) == Pids(calls) + [c.pid]
  {
  }

  /** The queue holds what was accepted and not yet taken; the loop dequeues only from a queue
      it saw nonempty, which the handler can only have made longer. */
  ghost predicate Good(s: State, q: seq<int>) {
    && |s.ring.slots| == MAX_CLIENTS
    && Represents(s.ring, q)
    && s.accepted == Pids(s.calls) + InHand(s.at) + q
    && (s.at.Take? ==> q != [])
  }

  function Next(s: State, q: seq<int>, a: Action): seq<int> {
    match a
    case Signal(pid) => if |q| == MAX_CLIENTS then q else q + [pid]
    case Dispatch(_) => if s.at.Take? && q != [] then q[1..] else q
  }

  lemma SignalKeepsGood(s: State, q: seq<int>, pid: int)
    requires Good(s, q)
    ensures Good(Do(s, Signal(pid)), Next(s, q, Signal(pid)))
  {
    EnqueuedContents(s.ring, q, pid);
  }

  lemma TakeKeepsGood(s: State, q: seq<int>, ok: bool)
    requires Good(s, q) && s.at.Take?
    ensures Good(Do(s, Dispatch(ok)), Next(s, q, Dispatch(ok)))
  {
    DequeuedContents(s.ring, q);
    assert q == [q[0]] + q[1..];
  }

  lemma ForkKeepsGood(s: State, q: seq<int>, ok: bool)
    requires Good(s, q) && s.at.Fork?
    ensures Good(Do(s, Dispatch(ok)), Next(s, q, Dispatch(ok)))
  {
    PidsSnoc(s.calls, Call(s.at.pid, ok));
  }

  lemma StepKeepsGood(s: State, q: seq<int>, a: Action)
    requires Good(s, q)
    ensures Good(Do(s, a), Next(s, q, a))
  {
    match a {
      case Signal(pid) => SignalKeepsGood(s, q, pid);
      case Dispatch(ok) =>
        match s.at {
          case Check =>
          case Take => TakeKeepsGood(s, q, ok);
          case Fork(_) => ForkKeepsGood(s, q, ok);
        }
    }
  }

  lemma {:induction false} RunKeepsGood(s: State, q: seq<int>, acts: seq<Action>, t: State) returns (r: seq<int>)
    requires Good(s, q) && Run(s, acts, t)
    ensures Good(t, r) && s.accepted <= t.accepted && s.rejected <= t.rejected && s.calls <= t.calls
    decreases |acts|
  {
    if acts == [] {
      r := q;
    } else {
      StepKeepsGood(s, q, acts[0]);
      r := RunKeepsGood(Do(s, acts[0]), Next(s, q, acts[0]), acts[1..], t);
    }
  }

  /** The queue that the array stands for after a run. */
  lemma ReachableGood(acts: seq<Action>, s: State) returns (q: seq<int>)
    requires Run(Init(), acts, s)
    ensures Good(s, q) && WellFormed(s.ring) && s.ring.count <= |s.ring.slots| && Contents(s.ring) == q
  {
    assert Good(Init(), []);
    q := RunKeepsGood(Init(), [], acts, s);
    RepresentsIsContents(s.ring, q);
  }

  /** Over every run the queue is a bounded FIFO: forked for, in hand and waiting are together
      exactly the accepted clients, in order; in particular `fork` is called once for each. */
  lemma QueueIsFifo(acts: seq<Action>, s: State)
    requires Run(Init(), acts, s)
    ensures WellFormed(s.ring) && s.ring.count <= 10 == |s.ring.slots|
    ensures s.accepted == Pids(s.calls) + InHand(s.at) + Contents(s.ring)
    ensures s.ring.inn == (s.ring.out + s.ring.count) % 10
  {
    var q := ReachableGood(acts, s);
  }

  /** A signal at any moment of a run: the client is enqueued behind all accepted before, or turned
      away behind all rejected before, the latter exactly when ten are waiting. */
  lemma RejectedExactlyWhenFull(past: seq<Action>, s: State, pid: int, more: seq<Action>, t: State)
    requires Run(Init(), past, s) && Run(s, [Signal(pid)] + more, t)
    ensures WellFormed(s.ring) && s.ring.count <= |s.ring.slots|
    ensures var u := Do(s, Signal(pid));
            && WellFormed(u.ring) && u.ring.count <= |u.ring.slots|
            && (if |Contents(s.ring)| == 10
                then s.rejected + [pid] <= t.rejected && Contents(u.ring) == Contents(s.ring)
                else s.accepted + [pid] <= t.accepted && Contents(u.ring) == Contents(s.ring) + [pid])
  {
    var q := ReachableGood(past, s);
    var u, q' := Do(s, Signal(pid)), Next(s, q, Signal(pid));
    StepKeepsGood(s, q, Signal(pid));
    RepresentsIsContents(u.ring, q');
    assert ([Signal(pid)] + more)[1..] == more;
    var r := RunKeepsGood(u, q', more, t);
  }

  // What becomes of each signal, told by counting alone.

  datatype Verdict = Verdict(pid: int, accepted: bool)

  datatype Stage = Checking | Taking | Forking

  function StageOf(at: Dispatcher): Stage {
    match at
    case Check => Checking
    case Take => Taking
    case Fork(_) => Forking
  }

  /** How an action changes the number of waiting clients, and where the loop is. */
  function WaitingAfter(waiting: nat, stage: Stage, a: Action): nat {
    if a.Signal? then (if waiting < 10 then waiting + 1 else waiting)
    else if stage.Taking? && waiting > 0 then waiting - 1
    else waiting
  }

  function StageAfter(waiting: nat, stage: Stage, a: Action): Stage {
    if a.Signal? then stage
    else
      match stage
      case Checking => if waiting == 0 then Checking else Taking
      case Taking => Forking
      case Forking => Checking
  }

  /** One verdict for each signal: the client is accepted while fewer than ten wait. */
  function Verdicts(waiting: nat, stage: Stage, acts: seq<Action>): seq<Verdict>
    decreases |acts|
  {
    if acts == [] then []
    else
      var a := acts[0];
      (if a.Signal? then [Verdict(a.pid, waiting < 10)] else [])
      + Verdicts(WaitingAfter(waiting, stage, a), StageAfter(waiting, stage, a), acts[1..])
  }

  /** The results of the calls of `fork` in a run, in order. */
  function Outcomes(waiting: nat, stage: Stage, acts: seq<Action>): seq<bool>
    decreases |acts|
  {
    if acts == [] then []
    else
      var a := acts[0];
      (if a.Dispatch? && stage.Forking? then [a.ok] else [])
      + Outcomes(WaitingAfter(waiting, stage, a), StageAfter(waiting, stage, a), acts[1..])
  }

  /** The results of `waitpid` in a run, in order. */
  function Signals(acts: seq<Action>): seq<int> {
    if acts == [] then []
    else (if acts[0].Signal? then [acts[0].pid] else []) + Signals(acts[1..])
  }

  function Clients(vs: seq<Verdict>): seq<int> {
    if vs == [] then [] else [vs[0].pid] + Clients(vs[1..])
  }

  /** The clients with that verdict, in order. */
  function Chosen(vs: seq<Verdict>, accepted: bool): seq<int> {
    if vs == [] then []
    else (if vs[0].accepted == accepted then [vs[0].pid] else []) + Chosen(vs[1..], accepted)
  }

  lemma {:induction false} VerdictsAreSignals(waiting: nat, stage: Stage, acts: seq<Action>)
    ensures Clients(Verdicts(waiting, stage, acts)) == Signals(acts)
    decreases |acts|
  {
    if acts != [] {
      var a := acts[0];
      var later := Verdicts(WaitingAfter(waiting, stage, a), StageAfter(waiting, stage, a), acts[1..]);
      VerdictsAreSignals(WaitingAfter(waiting, stage, a), StageAfter(waiting, stage, a), acts[1..]);
      if a.Signal? {
        assert Verdicts(waiting, stage, acts)[1..] == later;
      } else {
        assert Verdicts(waiting, stage, acts) == later;
      }
    }
  }

  /** The count follows the queue. */
  lemma StepFollowsCount(s: State, q: seq<int>, a: Action)
    requires Good(s, q)
    ensures |Next(s, q, a)| == WaitingAfter(|q|, StageOf(s.at), a)
    ensures StageOf(Do(s, a).at) == StageAfter(|q|, StageOf(s.at), a)
  {
  }

  /** What one action adds to the verdicts, and to the outcomes. */
  function VerdictOf(q: seq<int>, a: Action): seq<Verdict> {
    if a.Signal? then [Verdict(a.pid, |q| < 10)] else []
  }

  function OutcomeOf(at: Dispatcher, a: Action): seq<bool> {
    if a.Dispatch? && at.Fork? then [a.ok] else []
  }

  /** Whether the calls of `fork` succeeded. */
  function Oks(calls: seq<Call>): (oks: seq<bool>)
    ensures |oks| == |calls|
  {
    seq(|calls|, k requires 0 <= k < |calls| => calls[k].ok)
  }

  lemma StepAdds(s: State, q: seq<int>, a: Action)
    requires Good(s, q)
    ensures var t := Do(s, a);
            && t.accepted == s.accepted + Chosen(VerdictOf(q, a), true)
            && t.rejected == s.rejected + Chosen(VerdictOf(q, a), false)
            && Oks(t.calls) == Oks(s.calls) + OutcomeOf(s.at, a)
  {
  }

  lemma ChosenJoins(vs: seq<Verdict>, later: seq<Verdict>, accepted: bool)
    requires |vs| <= 1
    ensures Chosen(vs + later, accepted) == Chosen(vs, accepted) + Chosen(later, accepted)
  {
    if vs == [] {
      assert vs + later == later;
    } else {
      assert (vs + later)[1..] == later;
    }
  }

  lemma Joined<T>(before: seq<T>, step: seq<T>, later: seq<T>)
    ensures (before + step) + later == before + (step + later)
  {
  }

  lemma {:induction false} RunFollowsVerdicts(s: State, q: seq<int>, acts: seq<Action>, t: State)
    requires Good(s, q) && Run(s, acts, t)
    ensures t.accepted == s.accepted + Chosen(Verdicts(|q|, StageOf(s.at), acts), true)
    ensures t.rejected == s.rejected + Chosen(Verdicts(|q|, StageOf(s.at), acts), false)
    decreases |acts|
  {
    if acts != [] {
      var s', q', vs := Do(s, acts[0]), Next(s, q, acts[0]), VerdictOf(q, acts[0]);
      StepKeepsGood(s, q, acts[0]);
      StepFollowsCount(s, q, acts[0]);
      StepAdds(s, q, acts[0]);
      RunFollowsVerdicts(s', q', acts[1..], t);
      var later := Verdicts(|q'|, StageOf(s'.at), acts[1..]);
      assert Verdicts(|q|, StageOf(s.at), acts) == vs + later;
      ChosenJoins(vs, later, true);
      ChosenJoins(vs, later, false);
      Joined(s.accepted, Chosen(vs, true), Chosen(later, true));
      Joined(s.rejected, Chosen(vs, false), Chosen(later, false));
    }
  }

  lemma {:induction false} RunFollowsOutcomes(s: State, q: seq<int>, acts: seq<Action>, t: State)
    requires Good(s, q) && Run(s, acts, t)
    ensures Oks(t.calls) == Oks(s.calls) + Outcomes(|q|, StageOf(s.at), acts)
    decreases |acts|
  {
    if acts != [] {
      var s', q' := Do(s, acts[0]), Next(s, q, acts[0]);
      StepKeepsGood(s, q, acts[0]);
      StepFollowsCount(s, q, acts[0]);
      StepAdds(s, q, acts[0]);
      RunFollowsOutcomes(s', q', acts[1..], t);
      Joined(Oks(s.calls), OutcomeOf(s.at, acts[0]), Outcomes(|q'|, StageOf(s'.at), acts[1..]));
    }
  }

  /** Over every run the accepted and the rejected clients are together the signals in order, and
      a count of the waiting clients alone tells them apart. */
  lemma SignalsDecided(acts: seq<Action>, s: State)
    requires Run(Init(), acts, s)
    ensures var vs := Verdicts(0, Checking, acts);
            Clients(vs) == Signals(acts) && s.accepted == Chosen(vs, true) && s.rejected == Chosen(vs, false)
  {
    assert Good(Init(), []);
    RunFollowsVerdicts(Init(), [], acts, s);
    VerdictsAreSignals(0, Checking, acts);
  }

  /** Over every run `fork` is called once for each accepted client, in order, and the k-th of them
      gets a child exactly if the k-th `fork` succeeds: a failure is never made good. */
  lemma ForksDecided(acts: seq<Action>, s: State)
    requires Run(Init(), acts, s)
    ensures var oks := Outcomes(0, Checking, acts);
            && |oks| == |s.calls| <= |s.accepted|
            && forall k :: 0 <= k < |oks| ==> s.calls[k] == Call(s.accepted[k], oks[k])
  {
    assert Good(Init(), []);
    RunFollowsOutcomes(Init(), [], acts, s);
    QueueIsFifo(acts, s);
    var oks := Outcomes(0, Checking, acts);
    assert Oks(s.calls) == oks;
    forall k | 0 <= k < |oks|
      ensures s.calls[k] == Call(s.accepted[k], oks[k])
    {
      assert Pids(s.calls)[k] == s.calls[k].pid && Oks(s.calls)[k] == s.calls[k].ok;
    }
  }

  // Service.

  function Dispatches(acts: seq<Action>): nat {
    if acts == [] then 0 else (if acts[0].Dispatch? then 1 else 0) + Dispatches(acts[1..])
  }

  /** How many steps of the loop until `fork` was called for the first `goal` accepted clients. */
  function Steps(s: State, goal: nat): nat {
    if goal <= |s.calls| then 0
    else 3 * (goal - |s.calls|) - (match s.at case Check => 0 case Take => 1 case Fork(_) => 2)
  }

  lemma {:induction false} ServedInTime(s: State, q: seq<int>, acts: seq<Action>, t: State, goal: nat)
    requires Good(s, q) && Run(s, acts, t)
    requires goal <= |s.accepted| && Dispatches(acts) >= Steps(s, goal)
    ensures goal <= |t.calls|
    decreases |acts|
  {
    if acts != [] {
      var s', q' := Do(s, acts[0]), Next(s, q, acts[0]);
      StepKeepsGood(s, q, acts[0]);
      assert acts[0].Dispatch? ==> Steps(s', goal) <= Steps(s, goal) - 1 || Steps(s', goal) == 0;
      ServedInTime(s', q', acts[1..], t, goal);
    }
  }

  /** Three steps for each waiting client and one for a client in hand. */
  function Owed(s: State): int
    requires WellFormed(s.ring) && s.ring.count <= |s.ring.slots|
  {
    3 * |Contents(s.ring)| + (match s.at case Check => 0 case Take => -1 case Fork(_) => 1)
  }

  /** Whatever signals arrive in between, once the loop has made the steps it owes, `fork` has been
      called for all who were accepted, in order. */
  lemma EveryoneIsServed(past: seq<Action>, s: State, acts: seq<Action>, t: State)
    requires Run(Init(), past, s) && Run(s, acts, t)
    ensures WellFormed(s.ring) && s.ring.count <= |s.ring.slots|
    ensures Dispatches(acts) >= Owed(s) ==> s.accepted <= Pids(t.calls)
  {
    var q := ReachableGood(past, s);
    if Dispatches(acts) >= Steps(s, |s.accepted|) {
      ServedInTime(s, q, acts, t, |s.accepted|);
      var r := RunKeepsGood(s, q, acts, t);
      assert Pids(t.calls) == t.accepted[..|t.calls|];
    }
  }

  // The client -1.

  lemma {:induction false} ChosenIn(vs: seq<Verdict>, pid: int)
    ensures pid in Chosen(vs, true) <==> Verdict(pid, true) in vs
  {
    if vs != [] {
      ChosenIn(vs[1..], pid);
      assert vs == [vs[0]] + vs[1..];
    }
  }

  /** `fork` is called only for accepted clients, and -1 is among those it was or will be called for
      exactly if `waitpid` returned -1 to the handler while fewer than ten clients waited: the loop
      never dequeues from an empty queue. */
  lemma ForksOnlyAccepted(acts: seq<Action>, s: State)
    requires Run(Init(), acts, s)
    ensures WellFormed(s.ring) && s.ring.count <= |s.ring.slots|
    ensures Pids(s.calls) + InHand(s.at) <= s.accepted
    ensures -1 in Pids(s.calls) + InHand(s.at) + Contents(s.ring)
            <==> Verdict(-1, true) in Verdicts(0, Checking, acts)
  {
    QueueIsFifo(acts, s);
    SignalsDecided(acts, s);
    ChosenIn(Verdicts(0, Checking, acts), -1);
    assert Pids(s.calls) + InHand(s.at) <= s.accepted;
  }

  /** Once the loop has made the steps it owes and no further signal came, it has forked for -1
      exactly in that case. */
  lemma MinusOneIsForked(past: seq<Action>, s: State, acts: seq<Action>, t: State)
    requires Run(Init(), past, s) && Run(s, acts, t) && Signals(acts) == []
    ensures WellFormed(s.ring) && s.ring.count <= |s.ring.slots|
    ensures Dispatches(acts) >= Owed(s) ==>
            && Pids(t.calls) == s.accepted
            && (-1 in Pids(t.calls) <==> Verdict(-1, true) in Verdicts(0, Checking, past))
  {
    var q := ReachableGood(past, s);
    EveryoneIsServed(past, s, acts, t);
    var r := RunKeepsGood(s, q, acts, t);
    RunFollowsVerdicts(s, q, acts, t);
    VerdictsAreSignals(|q|, StageOf(s.at), acts);
    assert t.accepted == s.accepted;
    SignalsDecided(past, s);
    ChosenIn(Verdicts(0, Checking, past), -1);
  }

  /** The loop can fork for -1: the handler runs when no child of the server has ended. */
  lemma ForksForMinusOne() returns (acts: seq<Action>, s: State)
    ensures Run(Init(), acts, s) && Signals(acts) == [-1] && s.calls == [Call(-1, true)]
  {
    acts := [Signal(-1), Dispatch(true), Dispatch(true), Dispatch(true)];
    var s1 := Do(Init(), acts[0]);
    var s2 := Do(s1, acts[1]);
    var s3 := Do(s2, acts[2]);
    s := Do(s3, acts[3]);
    assert acts[1..][1..] == acts[2..] && acts[2..][1..] == acts[3..] && acts[3..][1..] == [];
    assert Run(s3, acts[3..], s);
    assert Run(s2, acts[2..], s);
    assert Run(s1, acts[1..], s);
    assert Signals(acts[3..]) == [];
    assert Signals(acts[2..]) == [];
    assert Signals(acts[1..]) == [];
  }
  /** The loop can drop a client: its `fork` fails, the queue is empty again, and without another
      signal there is never another call. */
  lemma ForkFailureDrops(more: seq<Action>, t: State) returns (acts: seq<Action>, s: State)
    ensures Run(Init(), acts, s) && s.accepted == [7] && s.calls == [Call(7, false)]
    ensures Run(s, more, t) && Signals(more) == [] ==> t.calls == [Call(7, false)]
  {
    acts := [Signal(7), Dispatch(true), Dispatch(true), Dispatch(false)];
    var s1 := Do(Init(), acts[0]);
    var s2 := Do(s1, acts[1]);
    var s3 := Do(s2, acts[2]);
    s := Do(s3, acts[3]);
    assert acts[1..][1..] == acts[2..] && acts[2..][1..] == acts[3..] && acts[3..][1..] == [];
    assert Run(s3, acts[3..], s);
    assert Run(s2, acts[2..], s);
    assert Run(s1, acts[1..], s);
    if Run(s, more, t) && Signals(more) == [] {
      var q := ReachableGood(acts, s);
      var r := RunKeepsGood(s, q, more, t);
      RunFollowsVerdicts(s, q, more, t);
      VerdictsAreSignals(|q|, StageOf(s.at), more);
      assert t.accepted == s.accepted;
    }
  }
  // Signals while the loop does nothing.

  function Admitted(n: nat, waiting: nat): (k: nat)
    requires waiting <= 10
    ensures k <= n
  {
    if n <= 10 - waiting then n else 10 - waiting
  }

  lemma {:induction false} BurstVerdicts(waiting: nat, acts: seq<Action>)
    requires waiting <= 10 && forall k :: 0 <= k < |acts| ==> acts[k].Signal?
    ensures |Signals(acts)| == |acts|
    ensures var vs, k := Verdicts(waiting, Checking, acts), Admitted(|acts|, waiting);
            Chosen(vs, true) == Signals(acts)[..k] && Chosen(vs, false) == Signals(acts)[k..]
    decreases |acts|
  {
    if acts != [] {
      var room := waiting < 10;
      var rest := acts[1..];
      var later := Verdicts(if room then waiting + 1 else waiting, Checking, rest);
      var v := Verdict(acts[0].pid, room);
      BurstVerdicts(if room then waiting + 1 else waiting, rest);
      assert Verdicts(waiting, Checking, acts) == [v] + later;
      ChosenJoins([v], later, true);
      ChosenJoins([v], later, false);
      assert Signals(acts) == [acts[0].pid] + Signals(rest);
    }
  }

  /** Of the signals of a burst the first ten are accepted and all others refused. */
  lemma BurstFillsQueue(acts: seq<Action>, s: State)
    requires Run(Init(), acts, s) && forall k :: 0 <= k < |acts| ==> acts[k].Signal?
    ensures |Signals(acts)| == |acts|
    ensures |acts| <= 10 ==> s.accepted == Signals(acts) && s.rejected == []
    ensures |acts| > 10 ==> s.accepted == Signals(acts)[..10] && s.rejected == Signals(acts)[10..]
  {
    SignalsDecided(acts, s);
    BurstVerdicts(0, acts);
  }
}
