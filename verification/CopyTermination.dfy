/** Every run of the copy program without spurious wakeups is finite, with an explicit bound. */
module CopyTermination {
  import opened RingBuffer
  import opened CopyModel
  import opened CopyData
  import opened CopySteps
  import opened CopyCounting
  import opened CopyInvariant
  import opened CopyTheorems

  /** Actions a consumer can take on account of `n` filled slots, copying apart. */
  function SlotBudget(n: nat): nat {
    17 * n
  }

  /** Two actions for every byte that `read` yields. */
  function SourceCost(c: Config, j: Job): nat {
    if j.src in c.files then 2 * |c.files[j.src]| else 0
  }

  function QueueCost(c: Config, q: seq<Slot>): nat {
    if q == [] then 0 else SourceCost(c, q[0].job) + QueueCost(c, q[1..])
  }

  function EntryCost(c: Config, name: string): nat {
    if IsDot(name) then 1 else 30 + WakeBudget(c.consumers) + SourceCost(c, JobOf(c, name))
  }

  function Work(c: Config, names: seq<string>): nat {
    if names == [] then 0 else EntryCost(c, names[0]) + Work(c, names[1..])
  }

  function FieldsLeft(f: Field): nat {
    match f
    case SourceFd => 4
    case DestinationFd => 3
    case SourceFile => 2
    case DestinationFile => 1
  }

  /** Actions the producer can take before its next entry or its end, wakeups it will cause included. */
  function ProducerCost(c: Config, p: ProducerPc): nat {
    var n := WakeBudget(c.consumers);
    match p
    case PExit => 0
    case PLastUnlock => 1
    case PBroadcast => 2 + n
    case PSetDone => 3 + n
    case PLast => 4 + n
    case PNext => 5 + n
    case PUnlock => 6 + n
    case PSignal => 7 + 2 * n
    case PCount(x) => 8 + 2 * n + SlotBudget(1) + SourceCost(c, x.job)
    case PAdvance(x) => 9 + 2 * n + SlotBudget(1) + SourceCost(c, x.job)
    case PStore(x, f) => 9 + FieldsLeft(f) + 2 * n + SlotBudget(1) + SourceCost(c, x.job)
    case PCloseSrc(j, _) => 10 + 2 * n + SlotBudget(1) + SourceCost(c, j)
    case POpenDst(j, _) => 14 + 2 * n + SlotBudget(1) + SourceCost(c, j)
    case POpenSrc(j) => 15 + 2 * n + SlotBudget(1) + SourceCost(c, j)
    case PSleep(j) => 15 + 2 * n + SlotBudget(1) + SourceCost(c, j)
    case PTest(j) => 16 + 2 * n + SlotBudget(1) + SourceCost(c, j)
    case PReacquire(j) => 17 + 2 * n + SlotBudget(1) + SourceCost(c, j)
    case PAcquire(j) => 17 + 2 * n + SlotBudget(1) + SourceCost(c, j)
  }

  /** Bytes of the head's source already read, doubled. */
  ghost function Progress(c: Config, d: Shared, sec: Section): nat {
    match sec
    case InC(CRead(sfd, _)) => if sfd in d.sys.fds then 2 * d.sys.fds[sfd].off else 0
    case InC(CWrite(sfd, _, _)) => if sfd in d.sys.fds then 2 * d.sys.fds[sfd].off else 0
    case InC(CCloseSrc(_, _)) | InC(CCloseDst(_)) | InC(CPrint) =>
      if d.q != [] then SourceCost(c, d.q[0].job) else 0
    case _ => 0
  }

  ghost function IsSettled(s: State): bool {
    s.d.ring.done && s.d.ring.count == 0
  }

  /** Copying still to do for the queued slots. */
  ghost function Bytes(c: Config, s: State): int {
    QueueCost(c, s.d.q) - Progress(c, s.d, Current(s))
  }

  /** The measure: an upper bound on the number of actions left. */
  ghost function Measure(c: Config, s: State): int {
    Work(c, s.todo) + ProducerCost(c, s.p) + Total(Cost(IsSettled(s)), s.cs)
    + SlotBudget(s.d.ring.count)
    + Bytes(c, s)
  }

  /** Sources keep their content, so the head's progress never exceeds its cost. */
  lemma HeadSource(c: Config, s: State)
    requires Good(c, s) && s.d.q != []
    ensures s.d.q[0].job.src in c.files && Same(s.d.sys.files, c.files, s.d.q[0].job.src)
  {
    var x := Fixed(c);
    QueuedTarget(x.files0, x.all, s.d, 0);
    var m :| 0 <= m < |x.all| && x.all[m] == s.d.q[0].job;
    SourceIntact(x.cap, x.files0, x.all, s.d, Current(s), m);
  }

  lemma MeasureNonnegative(c: Config, s: State)
    requires Good(c, s)
    ensures Measure(c, s) >= 0
  {
    if s.d.q != [] {
      HeadSource(c, s);
    }
  }

  lemma {:induction false} QueueCostSnoc(c: Config, q: seq<Slot>, x: Slot)
    ensures QueueCost(c, q + [x]) == QueueCost(c, q) + SourceCost(c, x.job)
  {
    if q != [] {
      assert (q + [x])[1..] == q[1..] + [x];
      QueueCostSnoc(c, q[1..], x);
    }
  }

  lemma ProducerBytes(c: Config, s: State, o: Choice)
    requires LockInv(s) && ProducerEnabled(s, o) && WellFormed(s.d.ring)
    ensures var s' := ProducerStep(c, s, o);
            Bytes(c, s') == Bytes(c, s) + (if s.p.PCount? then SourceCost(c, s.p.x.job) else 0)
  {
    var s' := ProducerStep(c, s, o);
    if ProducerHolds(s.p) {
      if s.p.PCount? {
        QueueCostSnoc(c, s.d.q, s.p.x);
      }
    } else {
      assert s'.d == s.d;
      assert s.owner.Some? ==> Current(s') == Current(s);
    }
  }

  lemma ProducerTotal(c: Config, s: State, o: Choice)
    requires ProducerEnabled(s, o) && WellFormed(s.d.ring) && |s.cs| == c.consumers
    requires s.p.PSetDone? || s.p.PCount? ==> !s.d.ring.done
    ensures var s' := ProducerStep(c, s, o);
            Total(Cost(IsSettled(s')), s'.cs) <= Total(Cost(IsSettled(s)), s.cs)
              + (if s.p.PSignal? || s.p.PBroadcast? then WakeBudget(c.consumers) else 0)
  {
    match s.p {
      case PSignal => WakeCost(IsSettled(s), s.cs, o.who);
      case PBroadcast => WakeCost(IsSettled(s), s.cs, Sleepers(s.cs));
      case PSetDone => SettlingLowers(s.cs);
      case _ =>
    }
  }

  lemma ProducerOwnCost(c: Config, s: State, o: Choice)
    requires ProducerEnabled(s, o) && WellFormed(s.d.ring) && !s.p.PNext?
    ensures var s' := ProducerStep(c, s, o);
            && s'.todo == s.todo
            && s'.d.ring.count == s.d.ring.count + (if s.p.PCount? then 1 else 0)
            && ProducerCost(c, s'.p) < ProducerCost(c, s.p)
               - (if s.p.PCount? then SlotBudget(1) + SourceCost(c, s.p.x.job) else 0)
               - (if s.p.PSignal? || s.p.PBroadcast? then WakeBudget(c.consumers) else 0)
  {
  }

  lemma NextOwnCost(c: Config, s: State, o: Choice)
    requires ProducerEnabled(s, o) && WellFormed(s.d.ring) && s.p.PNext?
    ensures var s' := ProducerStep(c, s, o);
            Work(c, s'.todo) + ProducerCost(c, s'.p) < Work(c, s.todo) + ProducerCost(c, s.p)
  {
  }

  lemma ProducerLowers(c: Config, s: State, o: Choice)
    requires Good(c, s) && ProducerEnabled(s, o)
    ensures Measure(c, ProducerStep(c, s, o)) < Measure(c, s)
  {
    ProducerBytes(c, s, o);
    ProducerTotal(c, s, o);
    if s.p.PNext? {
      NextOwnCost(c, s, o);
    } else {
      ProducerOwnCost(c, s, o);
    }
  }

  /** How one consumer action changes the sum over consumers. */
  lemma ConsumersAfter(s: State, i: nat, s': State)
    requires i < |s.cs| && |s'.cs| == |s.cs| && s'.cs == s.cs[i := s'.cs[i]]
    requires IsSettled(s) ==> IsSettled(s')
    ensures Total(Cost(IsSettled(s')), s'.cs) - Total(Cost(IsSettled(s)), s.cs)
            <= Weight(Cost(IsSettled(s')), s'.cs[i]) - Weight(Cost(IsSettled(s')), s.cs[i])
  {
    var w := Cost(IsSettled(s'));
    TotalUpdate(w, s.cs, i, s'.cs[i]);
    SettlingLowers(s.cs);
  }

  /** Outside a slot's copying nothing is left over and nothing changes. */
  lemma LockBytes(c: Config, s: State, i: nat, o: Choice)
    requires LockInv(s) && WellFormed(s.d.ring) && i < |s.cs| && ConsumerEnabled(s, i, o) && !HoldsSlot(s.cs[i])
    ensures Bytes(c, ConsumerStep(s, i, o)) == Bytes(c, s)
  {
    assert ConsumerHolds(s.cs[i]) ==> Current(s) == InC(s.cs[i]);
  }

  /** Writing to the destination moves another descriptor than the source's. */
  lemma WriteBytes(c: Config, s: State, i: nat, o: Choice)
    requires Good(c, s) && i < |s.cs| && ConsumerEnabled(s, i, o) && s.cs[i].CWrite?
    ensures Bytes(c, ConsumerStep(s, i, o)) == Bytes(c, s)
  {
    assert Current(s) == InC(s.cs[i]);
    QueueDistinct(c.files, All(c), s.d);
    assert QJobs(s.d.q)[0] == s.d.q[0].job;
  }

  /** Reading, or giving the slot back. */
  lemma SlotBytes(c: Config, s: State, i: nat, o: Choice)
    requires i < |s.cs| && Inv(Fixed(c), s.d, InC(s.cs[i])) && Current(s) == InC(s.cs[i])
    requires ConsumerEnabled(s, i, o) && HoldsSlot(s.cs[i]) && !s.cs[i].CWrite?
    requires s.d.q != [] ==>
               s.d.q[0].job.src in c.files && Same(s.d.sys.files, c.files, s.d.q[0].job.src)
    ensures Bytes(c, ConsumerStep(s, i, o))
            <= Bytes(c, s) - (if s.cs[i].CRead? then 2 * o.n else 0)
  {
    if s.cs[i].CFetch? {
      Fetch(Fixed(c), s.d);
    }
  }

  /** Reading lowers the copying left by two for every byte; nothing else changes it. */
  lemma ConsumerBytes(c: Config, s: State, i: nat, o: Choice)
    requires Good(c, s) && i < |s.cs| && ConsumerEnabled(s, i, o)
    ensures Bytes(c, ConsumerStep(s, i, o))
            <= Bytes(c, s) - (if s.cs[i].CRead? then 2 * o.n else 0)
  {
    if !HoldsSlot(s.cs[i]) {
      LockBytes(c, s, i, o);
    } else if s.cs[i].CWrite? {
      WriteBytes(c, s, i, o);
    } else {
      assert Current(s) == InC(s.cs[i]);
      if s.d.q != [] {
        HeadSource(c, s);
      }
      SlotBytes(c, s, i, o);
    }
  }

  lemma ConsumerFacts(c: Config, s: State, i: nat, o: Choice)
    requires Good(c, s) && i < |s.cs| && ConsumerEnabled(s, i, o)
    ensures IsSettled(s) ==> IsSettled(ConsumerStep(s, i, o))
    ensures s.cs[i].CEarly? || s.cs[i].CLeave? ==> IsSettled(s)
    ensures s.cs[i].CCount? ==> s.d.ring.count > 0
  {
  }

  lemma ConsumerWakesProducer(c: Config, s: State, i: nat, o: Choice)
    requires i < |s.cs| && ConsumerEnabled(s, i, o) && WellFormed(s.d.ring)
    ensures var s' := ConsumerStep(s, i, o);
            && s'.todo == s.todo
            && ProducerCost(c, s'.p) <= ProducerCost(c, s.p) + (if s.cs[i].CSignal? then 2 else 0)
  {
  }

  lemma ConsumerOwnCost(s: State, i: nat, o: Choice)
    requires i < |s.cs| && ConsumerEnabled(s, i, o) && WellFormed(s.d.ring)
    requires s.cs[i].CEarly? || s.cs[i].CLeave? ==> IsSettled(s)
    requires s.cs[i].CCount? ==> s.d.ring.count > 0
    ensures var s' := ConsumerStep(s, i, o); var w := Cost(IsSettled(s'));
            SlotBudget(s'.d.ring.count) + Weight(w, s'.cs[i])
            < SlotBudget(s.d.ring.count) + Weight(w, s.cs[i])
              + (if s.cs[i].CRead? then 2 * o.n else 0) - (if s.cs[i].CSignal? then 2 else 0)
  {
  }

  lemma ConsumerLowers(c: Config, s: State, i: nat, o: Choice)
    requires Good(c, s) && i < |s.cs| && ConsumerEnabled(s, i, o)
    ensures Measure(c, ConsumerStep(s, i, o)) < Measure(c, s)
  {
    var s' := ConsumerStep(s, i, o);
    ConsumerFacts(c, s, i, o);
    ConsumerBytes(c, s, i, o);
    ConsumersAfter(s, i, s');
    ConsumerWakesProducer(c, s, i, o);
    ConsumerOwnCost(s, i, o);
  }

  /** Every action but a spurious wakeup lowers the measure. */
  lemma StepLowers(c: Config, s: State, a: Action)
    requires Good(c, s) && Enabled(s, a) && a.Move?
    ensures Measure(c, Do(c, s, a)) < Measure(c, s)
  {
    match a.t {
      case Producer => ProducerLowers(c, s, a.o);
      case Consumer(i) => ConsumerLowers(c, s, i, a.o);
    }
  }

  lemma {:induction false} RunLowers(c: Config, s: State, acts: seq<Action>, t: State)
    requires Good(c, s) && Run(c, s, acts, t)
    requires forall k :: 0 <= k < |acts| ==> acts[k].Move?
    ensures |acts| <= Measure(c, s) - Measure(c, t)
    decreases |acts|
  {
    if acts != [] {
      StepLowers(c, s, acts[0]);
      StepKeepsGood(c, s, acts[0]);
      RunLowers(c, Do(c, s, acts[0]), acts[1..], t);
    }
  }

  /** Bytes readable from the sources of all entries. */
  function SourceBytes(c: Config, names: seq<string>): nat {
    if names == [] then 0
    else (if IsDot(names[0]) || JobOf(c, names[0]).src !in c.files then 0
          else |c.files[JobOf(c, names[0]).src]|) + SourceBytes(c, names[1..])
  }

  lemma {:induction false} WorkBound(c: Config, names: seq<string>)
    ensures Work(c, names) <= |names| * (30 + WakeBudget(c.consumers)) + 2 * SourceBytes(c, names)
  {
    if names != [] {
      var w := 30 + WakeBudget(c.consumers);
      WorkBound(c, names[1..]);
      assert |names| * w == |names[1..]| * w + w by {
        Distribute(|names| - 1, w);
      }
    }
  }

  lemma Distribute(n: int, w: int)
    ensures (n + 1) * w == n * w + w
  {
  }

  lemma InitialMeasure(c: Config)
    ensures Measure(c, Init(c)) <=
              |c.names| * (30 + 14 * c.consumers) + 2 * SourceBytes(c, c.names) + 28 * c.consumers + 5
  {
    InitialCost(Init(c).cs);
    SettlingLowers(Init(c).cs);
    WorkBound(c, c.names);
  }

  /** Step bound: a run without spurious wakeups has at most this many actions. */
  lemma EveryRunIsShort(c: Config, acts: seq<Action>, s: State)
    requires ValidConfig(c) && Run(c, Init(c), acts, s)
    requires forall k :: 0 <= k < |acts| ==> acts[k].Move?
    ensures |acts| <= |c.names| * (30 + 14 * c.consumers) + 2 * SourceBytes(c, c.names) + 28 * c.consumers + 5
  {
    InitGood(c);
    RunLowers(c, Init(c), acts, s);
    ReachableGood(c, acts, s);
    MeasureNonnegative(c, s);
    InitialMeasure(c);
  }

  lemma NobodyMoves(s: State)
    requires Finished(s) || (|s.cs| == 0 && s.p.PSleep?)
    ensures forall a: Action :: a.Move? ==> !Enabled(s, a)
  {
  }

  lemma FullWhenAsleep(c: Config, s: State)
    requires Good(c, s) && c.consumers == 0 && s.p.PSleep?
    ensures |s.d.q| == s.d.ring.count == c.cap
  {
    assert Current(s) == Idle;
  }

  /** A run that nothing but a spurious wakeup can continue has joined all threads; the one
      exception is a producer waiting on a full buffer that no consumer thread will ever empty
      (when that happens is the subject of CopyStarvation). No fairness is assumed. */
  lemma StuckIsFinished(c: Config, acts: seq<Action>, s: State)
    requires ValidConfig(c) && Run(c, Init(c), acts, s)
    ensures (forall a: Action :: a.Move? ==> !Enabled(s, a)) <==> Finished(s) || (c.consumers == 0 && s.p.PSleep?)
    ensures c.consumers == 0 && s.p.PSleep? ==> s.d.ring.count == c.cap
  {
    ReachableGood(c, acts, s);
    if Finished(s) || (c.consumers == 0 && s.p.PSleep?) {
      NobodyMoves(s);
    } else {
      var a := NoDeadlock(c, acts, s);
    }
    if c.consumers == 0 && s.p.PSleep? {
      FullWhenAsleep(c, s);
    }
  }
}
