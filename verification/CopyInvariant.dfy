/** The full inductive invariant of the copy program and its preservation by every action. */
module CopyInvariant {
  import opened Options
  import opened RingBuffer
  import opened CopyModel
  import opened CopyData
  import opened CopySteps
  import opened CopyCounting

  function All(c: Config): seq<Job> {
    Jobs(c, c.names)
  }

  function Fixed(c: Config): Context {
    Context(c.cap, c.files, All(c))
  }

  predicate ProducerHolds(p: ProducerPc) {
    match p
    case PNext | PAcquire(_) | PSleep(_) | PReacquire(_) | PLast | PExit => false
    case _ => true
  }

  predicate ConsumerHolds(pc: ConsumerPc) {
    match pc
    case CAcquire | CSleep | CReacquire | CLoop | CExit => false
    case _ => true
  }

  /** Is the consumer between fetching a slot and lowering `count`? */
  predicate HoldsSlot(pc: ConsumerPc) {
    match pc
    case CFetch | CAdvance | CCount | CPrint => true
    case CRead(_, _) => true
    case CWrite(_, _, _) => true
    case CCloseSrc(_, _) => true
    case CCloseDst(_) => true
    case _ => false
  }

  /** The section of the mutex owner. */
  function Current(s: State): Section {
    match s.owner
    case None => Idle
    case Some(Producer) => InP(s.p)
    case Some(Consumer(i)) => if i < |s.cs| then InC(s.cs[i]) else Idle
  }

  /** Mutual exclusion: a thread is inside a critical section exactly when it owns the mutex. */
  ghost predicate LockInv(s: State) {
    && (s.owner == Some(Producer) <==> ProducerHolds(s.p))
    && (forall i :: 0 <= i < |s.cs| ==> (s.owner == Some(Consumer(i)) <==> ConsumerHolds(s.cs[i])))
    && (s.owner.Some? && s.owner.value.Consumer? ==> s.owner.value.i < |s.cs|)
  }

  /** The job in the producer's hands whose fate is undecided. */
  function InHand(p: ProducerPc): seq<Job> {
    match p
    case PAcquire(j) => [j]
    case PTest(j) => [j]
    case PSleep(j) => [j]
    case PReacquire(j) => [j]
    case POpenSrc(j) => [j]
    case POpenDst(j, _) => [j]
    case PCloseSrc(j, _) => [j]
    case PStore(x, _) => [x.job]
    case PAdvance(x) => [x.job]
    case PCount(x) => [x.job]
    case _ => []
  }

  function Pending(c: Config, s: State): seq<Job> {
    InHand(s.p) + Jobs(c, s.todo)
  }

  predicate Closing(p: ProducerPc) {
    p.PLast? || p.PSetDone? || p.PBroadcast? || p.PLastUnlock? || p.PExit?
  }

  ghost predicate FlowInv(c: Config, s: State) {
    && |s.d.outs| <= |All(c)|
    && Pending(c, s) == All(c)[|s.d.outs|..]
    && (Closing(s.p) ==> s.todo == [])
    && (s.d.ring.done <==> s.p.PBroadcast? || s.p.PLastUnlock? || s.p.PExit?)
  }

  /** No wakeup is lost: the producer sleeps only on a full buffer, sleeping consumers leave at
      least as many awake as there are slots to serve, and nobody sleeps after the broadcast. */
  ghost predicate WakeInv(c: Config, s: State) {
    && |s.cs| == c.consumers
    && (s.p.PSleep? ==> s.d.ring.count == c.cap || Current(s) == InC(CSignal))
    && (Total(Asleep, s.cs) == 0 ||
        c.consumers - Total(Asleep, s.cs) >= s.d.ring.count - (if s.p.PSignal? then 1 else 0))
    && (s.d.ring.done && !s.p.PBroadcast? ==> Total(Asleep, s.cs) == 0)
  }

  /** A consumer returns early, or leaves, only when there is nothing and never will be. */
  ghost predicate ExitInv(s: State) {
    && (forall i :: 0 <= i < |s.cs| && (s.cs[i].CEarly? || s.cs[i].CLeave? || s.cs[i].CExit?) ==>
          s.d.ring.done && s.d.ring.count == 0)
    && (forall i :: 0 <= i < |s.cs| && s.cs[i].CCheck? ==> s.d.ring.done || s.d.ring.count > 0)
  }

  ghost predicate Good(c: Config, s: State) {
    && Inv(Fixed(c), s.d, Current(s))
    && LockInv(s)
    && FlowInv(c, s)
    && WakeInv(c, s)
    && ExitInv(s)
  }

  /** Before anything has happened. */
  lemma NothingYet(x: Context, d: Shared)
    requires Represents(d.ring, []) && |d.ring.slots| == x.cap
    requires d.sys.fds == map[] && d.sys.files == x.files0 && d.sys.opens == d.sys.closes == 0
    requires d.q == [] && d.outs == [] && d.log == []
    ensures DataInv(x.cap, x.files0, x.all, d, Idle)
  {
    assert d.log + QJobs(d.q) == [];
  }

  lemma InitData(c: Config)
    requires ValidConfig(c)
    ensures Inv(Fixed(c), Init(c).d, Idle)
  {
    JobsDistinct(c, c.names);
    NothingYet(Fixed(c), Init(c).d);
  }

  lemma InitGood(c: Config)
    requires ValidConfig(c)
    ensures Good(c, Init(c))
  {
    InitData(c);
    InitialCost(Init(c).cs);
    assert All(c)[0..] == All(c);
  }

  // Data.

  /** The job in hand is the first undecided one. */
  lemma InHandIsNext(c: Config, s: State)
    requires FlowInv(c, s) && InHand(s.p) != []
    ensures IsNext(All(c), s.d, InHand(s.p)[0])
  {
  }

  /** The producer's actions that open and close files or fill a slot. */
  lemma ProducerFileData(c: Config, s: State, o: Choice)
    requires Inv(Fixed(c), s.d, InP(s.p)) && s.owner == Some(Producer) && ProducerEnabled(s, o)
    requires s.p.POpenSrc? || s.p.POpenDst? || s.p.PCloseSrc? || s.p.PStore? || s.p.PAdvance? || s.p.PCount?
    ensures var s' := ProducerStep(c, s, o); Inv(Fixed(c), s'.d, InP(s'.p)) && s'.owner == s.owner
  {
    var x, d := Fixed(c), s.d;
    match s.p {
      case POpenSrc(j) =>
        if o.Fails? {
          SameFiles(x, d, InP(s.p), d, InP(PUnlock));
          Reject(x, d, InP(PUnlock));
        } else {
          OpenSource(x, d, j, o.fd);
        }
      case POpenDst(j, sfd) =>
        if o.Fails? {
          SameFiles(x, d, InP(s.p), d, InP(PCloseSrc(j, sfd)));
        } else {
          OpenDestination(x, d, j, sfd, o.fd);
        }
      case PCloseSrc(j, sfd) => CloseAfterFailure(x, d, j, sfd);
      case PStore(y, f) => Store(x, d, y, f);
      case PAdvance(y) => Advance(x, d, y);
      case PCount(y) => Enqueue(x, d, y);
    }
  }

  /** The producer's actions that take or release the mutex, test, set `done` or signal. */
  lemma ProducerLockData(c: Config, s: State, o: Choice)
    requires Inv(Fixed(c), s.d, Current(s)) && LockInv(s) && ProducerEnabled(s, o)
    requires InHand(s.p) != [] ==> IsNext(All(c), s.d, InHand(s.p)[0])
    requires !(s.p.POpenSrc? || s.p.POpenDst? || s.p.PCloseSrc? || s.p.PStore? || s.p.PAdvance? || s.p.PCount?)
    ensures var s' := ProducerStep(c, s, o); Inv(Fixed(c), s'.d, Current(s'))
  {
    var x, d := Fixed(c), s.d;
    var s' := ProducerStep(c, s, o);
    match s.p {
      case PNext => assert Current(s') == Current(s);
      case PTest(j) =>
        if s'.p.PSleep? {
          Rest(x, d, Current(s), Idle);
        } else {
          SameFiles(x, d, Current(s), d, Current(s'));
        }
      case PSetDone => SameFiles(x, d, Current(s), s'.d, Current(s'));
      case _ => Rest(x, d, Current(s), Current(s'));
    }
  }

  lemma ProducerData(c: Config, s: State, o: Choice)
    requires Good(c, s) && ProducerEnabled(s, o)
    ensures var s' := ProducerStep(c, s, o); Inv(Fixed(c), s'.d, Current(s'))
  {
    if InHand(s.p) != [] {
      InHandIsNext(c, s);
    }
    if s.p.POpenSrc? || s.p.POpenDst? || s.p.PCloseSrc? || s.p.PStore? || s.p.PAdvance? || s.p.PCount? {
      ProducerFileData(c, s, o);
    } else {
      ProducerLockData(c, s, o);
    }
  }

  /** The consumer's actions between fetching a slot and giving it back. */
  lemma ConsumerSlotData(c: Config, s: State, i: nat, o: Choice)
    requires i < |s.cs| && Inv(Fixed(c), s.d, InC(s.cs[i])) && ConsumerEnabled(s, i, o)
    requires HoldsSlot(s.cs[i])
    ensures var s' := ConsumerStep(s, i, o); Inv(Fixed(c), s'.d, InC(s'.cs[i])) && s'.owner == s.owner
  {
    var x, d := Fixed(c), s.d;
    match s.cs[i] {
      case CFetch => Fetch(x, d);
      case CRead(sfd, dfd) =>
        if o.n > 0 {
          ReadSome(x, d, sfd, dfd, o.n);
        } else {
          ReadEnd(x, d, sfd, dfd);
        }
      case CWrite(sfd, dfd, buf) => Write(x, d, sfd, dfd, buf);
      case CCloseSrc(sfd, dfd) => CloseSource(x, d, sfd, dfd);
      case CCloseDst(dfd) => CloseDestination(x, d, dfd);
      case CPrint => Dequeue(x, d);
      case CAdvance => MoveOut(x, d);
      case CCount => CountDown(x, d);
    }
  }

  /** The consumer's actions that take or release the mutex, test or signal. */
  lemma ConsumerLockData(c: Config, s: State, i: nat, o: Choice)
    requires Inv(Fixed(c), s.d, Current(s)) && LockInv(s) && ExitInv(s)
    requires i < |s.cs| && ConsumerEnabled(s, i, o) && !HoldsSlot(s.cs[i])
    ensures var s' := ConsumerStep(s, i, o); Inv(Fixed(c), s'.d, Current(s'))
  {
    var x, d := Fixed(c), s.d;
    var s' := ConsumerStep(s, i, o);
    if ConsumerHolds(s.cs[i]) {
      assert Current(s) == InC(s.cs[i]);
    }
    match s.cs[i] {
      case CCheck => SameFiles(x, d, Current(s), d, Current(s'));
      case CEarly => SameFiles(x, d, Current(s), d, Idle);
      case _ => Rest(x, d, Current(s), Current(s'));
    }
  }

  lemma ConsumerData(c: Config, s: State, i: nat, o: Choice)
    requires Good(c, s) && i < |s.cs| && ConsumerEnabled(s, i, o)
    ensures var s' := ConsumerStep(s, i, o); Inv(Fixed(c), s'.d, Current(s'))
  {
    if HoldsSlot(s.cs[i]) {
      assert Current(s) == InC(s.cs[i]);
      ConsumerSlotData(c, s, i, o);
    } else {
      ConsumerLockData(c, s, i, o);
    }
  }

  // Control.

  lemma ProducerLock(c: Config, s: State, o: Choice)
    requires LockInv(s) && ProducerEnabled(s, o) && WellFormed(s.d.ring)
    ensures LockInv(ProducerStep(c, s, o))
  {
  }

  /** Does this action fix the outcome of the job in hand? */
  predicate Decides(s: State, o: Choice) {
    (s.p.POpenSrc? && o.Fails?) || s.p.PCloseSrc? || s.p.PCount?
  }

  /** An action either leaves the undecided jobs alone or decides the first one. */
  lemma ProducerPending(c: Config, s: State, o: Choice)
    requires ProducerEnabled(s, o) && WellFormed(s.d.ring)
    ensures var s' := ProducerStep(c, s, o);
            if Decides(s, o) then Pending(c, s) != [] && Pending(c, s') == Pending(c, s)[1..]
            else Pending(c, s') == Pending(c, s) && s'.d.outs == s.d.outs
  {
    var s' := ProducerStep(c, s, o);
    if Decides(s, o) {
      assert InHand(s'.p) == [] && s'.todo == s.todo && |InHand(s.p)| == 1;
    } else if s.p.PNext? {
      assert InHand(s.p) == [];
    } else {
      assert s'.todo == s.todo && InHand(s'.p) == InHand(s.p);
    }
  }

  lemma ProducerPhase(c: Config, s: State, o: Choice)
    requires FlowInv(c, s) && ProducerEnabled(s, o) && WellFormed(s.d.ring)
    ensures var s' := ProducerStep(c, s, o);
            && (Closing(s'.p) ==> s'.todo == [])
            && (s'.d.ring.done <==> s'.p.PBroadcast? || s'.p.PLastUnlock? || s'.p.PExit?)
            && |s'.d.outs| == |s.d.outs| + (if Decides(s, o) then 1 else 0)
  {
  }

  lemma ProducerFlow(c: Config, s: State, o: Choice)
    requires FlowInv(c, s) && ProducerEnabled(s, o) && WellFormed(s.d.ring)
    ensures FlowInv(c, ProducerStep(c, s, o))
  {
    ProducerPending(c, s, o);
    ProducerPhase(c, s, o);
    var all, n := All(c), |s.d.outs|;
    if Decides(s, o) {
      assert all[n..][1..] == all[n + 1..];
    }
  }

  lemma ProducerExits(c: Config, s: State, o: Choice)
    requires ExitInv(s) && ProducerEnabled(s, o) && WellFormed(s.d.ring)
    requires s.p.PCount? ==> !s.d.ring.done
    ensures ExitInv(ProducerStep(c, s, o))
  {
  }

  lemma ConsumerLock(s: State, i: nat, o: Choice)
    requires LockInv(s) && i < |s.cs| && ConsumerEnabled(s, i, o) && WellFormed(s.d.ring)
    ensures LockInv(ConsumerStep(s, i, o))
  {
  }

  lemma ConsumerFlow(c: Config, s: State, i: nat, o: Choice)
    requires FlowInv(c, s) && i < |s.cs| && ConsumerEnabled(s, i, o) && WellFormed(s.d.ring)
    ensures FlowInv(c, ConsumerStep(s, i, o))
  {
  }

  lemma ConsumerExits(s: State, i: nat, o: Choice)
    requires ExitInv(s) && LockInv(s) && i < |s.cs| && ConsumerEnabled(s, i, o) && WellFormed(s.d.ring)
    ensures ExitInv(ConsumerStep(s, i, o))
  {
  }

  lemma ProducerWakes(c: Config, s: State, o: Choice)
    requires WakeInv(c, s) && LockInv(s) && FlowInv(c, s) && ProducerEnabled(s, o)
    requires WellFormed(s.d.ring) && |s.d.ring.slots| == c.cap
    ensures WakeInv(c, ProducerStep(c, s, o))
  {
    AsleepBounds(s.cs);
    if s.p.PSignal? {
      WakeAsleep(s.cs, o.who);
    } else if s.p.PBroadcast? {
      var s' := ProducerStep(c, s, o);
      AsleepBounds(s'.cs);
      assert Sleepers(s'.cs) == {};
    }
  }

  /** What a consumer action does to the facts that sleeping depends on. */
  lemma ConsumerSleeping(s: State, i: nat, o: Choice)
    requires i < |s.cs| && ConsumerEnabled(s, i, o) && WellFormed(s.d.ring)
    ensures var s' := ConsumerStep(s, i, o);
            && s'.cs == s.cs[i := s'.cs[i]] && !s.cs[i].CSleep?
            && s'.d.ring.done == s.d.ring.done && s'.d.ring.count <= s.d.ring.count
            && (s'.cs[i].CSleep? ==> s'.d.ring.count == 0 && !s.d.ring.done)
            && s'.p == (if s.cs[i].CSignal? && s.p.PSleep? then PReacquire(s.p.job) else s.p)
            && (s.cs[i].CCount? ==> s'.cs[i].CSignal? && s'.owner == s.owner)
            && (!s.cs[i].CCount? ==> s'.d.ring.count == s.d.ring.count)
  {
  }

  lemma ConsumerWakes(c: Config, s: State, i: nat, o: Choice)
    requires WakeInv(c, s) && LockInv(s) && i < |s.cs| && ConsumerEnabled(s, i, o) && WellFormed(s.d.ring)
    ensures WakeInv(c, ConsumerStep(s, i, o))
  {
    var s' := ConsumerStep(s, i, o);
    ConsumerSleeping(s, i, o);
    AsleepBounds(s'.cs);
    TotalUpdate(Asleep, s.cs, i, s'.cs[i]);
    assert s'.cs == s.cs[i := s'.cs[i]];
    if s.p.PSleep? && s.d.ring.count != c.cap {
      assert s.cs[i].CSignal?;
    }
  }

  lemma ProducerKeepsGood(c: Config, s: State, o: Choice)
    requires Good(c, s) && ProducerEnabled(s, o)
    ensures Good(c, ProducerStep(c, s, o))
  {
    ProducerData(c, s, o);
    ProducerLock(c, s, o);
    ProducerFlow(c, s, o);
    ProducerWakes(c, s, o);
    ProducerExits(c, s, o);
  }

  lemma ConsumerKeepsGood(c: Config, s: State, i: nat, o: Choice)
    requires Good(c, s) && i < |s.cs| && ConsumerEnabled(s, i, o)
    ensures Good(c, ConsumerStep(s, i, o))
  {
    ConsumerData(c, s, i, o);
    ConsumerLock(s, i, o);
    ConsumerFlow(c, s, i, o);
    ConsumerWakes(c, s, i, o);
    ConsumerExits(s, i, o);
  }

  lemma SpuriousLock(c: Config, s: State, t: Thread)
    requires LockInv(s) && WellFormed(s.d.ring) && Enabled(s, Spurious(t))
    ensures var s' := Do(c, s, Spurious(t)); LockInv(s') && Current(s') == Current(s) && s'.d == s.d
  {
  }

  lemma SpuriousWakes(c: Config, s: State, t: Thread)
    requires WakeInv(c, s) && LockInv(s) && WellFormed(s.d.ring) && Enabled(s, Spurious(t))
    ensures WakeInv(c, Do(c, s, Spurious(t)))
  {
    SpuriousLock(c, s, t);
    if t.Consumer? {
      AsleepBounds(s.cs[t.i := CReacquire]);
      TotalUpdate(Asleep, s.cs, t.i, CReacquire);
    }
  }

  lemma SpuriousFlow(c: Config, s: State, t: Thread)
    requires FlowInv(c, s) && ExitInv(s) && WellFormed(s.d.ring) && Enabled(s, Spurious(t))
    ensures FlowInv(c, Do(c, s, Spurious(t))) && ExitInv(Do(c, s, Spurious(t)))
  {
    assert Pending(c, Do(c, s, Spurious(t))) == Pending(c, s);
  }

  lemma SpuriousKeepsGood(c: Config, s: State, t: Thread)
    requires Good(c, s) && Enabled(s, Spurious(t))
    ensures Good(c, Do(c, s, Spurious(t)))
  {
    SpuriousLock(c, s, t);
    SpuriousWakes(c, s, t);
    SpuriousFlow(c, s, t);
  }

  /** Every action, spurious wakeups included, keeps the invariant. */
  lemma StepKeepsGood(c: Config, s: State, a: Action)
    requires Good(c, s) && Enabled(s, a)
    ensures Good(c, Do(c, s, a))
  {
    match a {
      case Move(Producer, o) => ProducerKeepsGood(c, s, o);
      case Move(Consumer(i), o) => ConsumerKeepsGood(c, s, i, o);
      case Spurious(t) => SpuriousKeepsGood(c, s, t);
    }
  }

  /** The invariant holds in every state of every run. */
  lemma {:induction false} RunKeepsGood(c: Config, s: State, acts: seq<Action>, t: State)
    requires Good(c, s) && Run(c, s, acts, t)
    ensures Good(c, t)
    decreases |acts|
  {
    if acts != [] {
      StepKeepsGood(c, s, acts[0]);
      RunKeepsGood(c, Do(c, s, acts[0]), acts[1..], t);
    }
  }

  lemma ReachableGood(c: Config, acts: seq<Action>, t: State)
    requires ValidConfig(c) && Run(c, Init(c), acts, t)
    ensures Good(c, t)
  {
    InitGood(c);
    RunKeepsGood(c, Init(c), acts, t);
  }
}
