/** What the copy program guarantees in every state of every run. */
module CopyTheorems {
  import opened Options
  import opened Posix
  import opened RingBuffer
  import opened CopyModel
  import opened CopyData
  import opened CopySteps
  import opened CopyCounting
  import opened CopyInvariant

  /** A completed run leaves the files a sequential loop over the same entries leaves, reports
      the successful copies in readdir order, and has closed every descriptor. */
  lemma CompletedRunIsSequential(c: Config, acts: seq<Action>, s: State)
    requires ValidConfig(c) && c.consumers >= 1
    requires Run(c, Init(c), acts, s) && Finished(s)
    ensures |s.d.outs| == |All(c)|
    ensures s.d.sys.files == SequentialCopy(c.files, All(c), s.d.outs)
    ensures s.d.log == Selected(All(c), s.d.outs) && Distinct(s.d.log)
    ensures s.d.sys.fds == map[] && s.d.sys.opens == s.d.sys.closes
  {
    ReachableGood(c, acts, s);
    assert s.cs[0].CExit?;
    assert s.owner != Some(Producer);
    assert Current(s) == Idle by {
      if s.owner.Some? {
        assert s.cs[s.owner.value.i].CExit?;
      }
    }
    assert s.d.q == [];
    assert Pending(c, s) == [];
    assert s.d.log + QJobs(s.d.q) == s.d.log;
    SelectedDistinct(All(c), s.d.outs);
    var f := SequentialCopy(c.files, All(c), s.d.outs);
    forall y
      ensures (y in s.d.sys.files <==> y in f) && (y in f ==> s.d.sys.files[y] == f[y])
    {
      assert !Unsettled(s.d, Idle, y);
    }
    assert |s.d.sys.fds| == 0;
  }

  /** Place of entry `k` among the entries that are not `.` or `..`. */
  function Place(names: seq<string>, k: nat): nat
    requires k <= |names|
  {
    if k == 0 then 0 else (if names[0] == "." || names[0] == ".." then 0 else 1) + Place(names[1..], k - 1)
  }

  lemma {:induction false} PlaceIsJob(c: Config, names: seq<string>, k: nat)
    requires k < |names| && !IsDot(names[k])
    ensures Place(names, k) < |Jobs(c, names)| && Jobs(c, names)[Place(names, k)] == JobOf(c, names[k])
  {
    if k > 0 {
      assert names[1..][k - 1] == names[k];
      PlaceIsJob(c, names[1..], k - 1);
    }
  }

  lemma {:induction false} PlaceCounts(c: Config, names: seq<string>)
    ensures |Jobs(c, names)| == Place(names, |names|)
  {
    if names != [] {
      PlaceCounts(c, names[1..]);
    }
  }

  /** What a choice of the environment decides: an entry succeeds with its second successful call
      of `open`, and the first failing call decides against it. */
  function ResultOf(half: bool, a: Action): seq<bool> {
    if a.Move? && a.t.Producer? && a.o.Fails? then [false]
    else if a.Move? && a.t.Producer? && a.o.Fd? && half then [true]
    else []
  }

  function HalfAfter(half: bool, a: Action): bool {
    if a.Move? && a.t.Producer? && (a.o.Fails? || a.o.Fd?) then !half && a.o.Fd? else half
  }

  /** The outcomes of a run's calls of `open`, entry by entry, told from those choices alone. */
  function OpenResults(half: bool, acts: seq<Action>): seq<bool>
    decreases |acts|
  {
    if acts == [] then [] else ResultOf(half, acts[0]) + OpenResults(HalfAfter(half, acts[0]), acts[1..])
  }

  /** The outcomes fixed so far, one of them possibly not recorded yet. */
  function Decided(s: State): seq<bool> {
    s.d.outs + (if s.p.PCloseSrc? then [false] else if s.p.PStore? || s.p.PAdvance? || s.p.PCount? then [true] else [])
  }

  lemma ProducerDecides(c: Config, s: State, o: Choice)
    requires WellFormed(s.d.ring) && ProducerEnabled(s, o)
    ensures var t, a := ProducerStep(c, s, o), Move(Producer, o);
            && Decided(t) == Decided(s) + ResultOf(s.p.POpenDst?, a)
            && t.p.POpenDst? == HalfAfter(s.p.POpenDst?, a)
  {
  }

  lemma StepDecides(c: Config, s: State, a: Action)
    requires WellFormed(s.d.ring) && Enabled(s, a)
    ensures var t := Do(c, s, a);
            && Decided(t) == Decided(s) + ResultOf(s.p.POpenDst?, a)
            && t.p.POpenDst? == HalfAfter(s.p.POpenDst?, a)
  {
    if a.Move? && a.t.Producer? {
      ProducerDecides(c, s, a.o);
    } else {
      assert Decided(s) + [] == Decided(s);
      assert Do(c, s, a).d.outs == s.d.outs;
    }
  }

  lemma {:induction false} RunDecides(c: Config, s: State, acts: seq<Action>, t: State)
    requires Run(c, s, acts, t)
    ensures Decided(t) == Decided(s) + OpenResults(s.p.POpenDst?, acts)
    decreases |acts|
  {
    if acts == [] {
      assert Decided(s) + [] == Decided(s);
    } else {
      var s', half := Do(c, s, acts[0]), s.p.POpenDst?;
      StepDecides(c, s, acts[0]);
      RunDecides(c, s', acts[1..], t);
      AddsUp(Decided(s), ResultOf(half, acts[0]), OpenResults(s'.p.POpenDst?, acts[1..]));
    }
  }

  lemma AddsUp(a: seq<bool>, b: seq<bool>, z: seq<bool>)
    ensures (a + b) + z == a + (b + z)
  {
  }

  /** The job of an entry, its paths being short enough not to be cut. */
  lemma EntryJob(c: Config, k: nat)
    requires ValidConfig(c) && k < |c.names| && !IsDot(c.names[k])
    ensures Place(c.names, k) < |All(c)|
    ensures All(c)[Place(c.names, k)] == Job(c.srcDir + "/" + c.names[k], c.dstDir + "/" + c.names[k])
  {
    PlaceIsJob(c, c.names, k);
    assert PlainName(c, c.names[k]);
  }

  lemma JobContents(files: map<string, seq<Byte>>, all: seq<Job>, outs: seq<bool>, m: nat)
    requires |outs| <= |all| && Distinct(all) && SourcesExist(files, all, outs) && m < |outs|
    ensures var after := SequentialCopy(files, all, outs);
            if outs[m] then all[m].src in files && all[m].dst in after && after[all[m].dst] == files[all[m].src]
            else Same(after, files, all[m].dst)
  {
    if outs[m] {
      SequentialEffect(files, all, outs, m);
    } else {
      SequentialFrame(files, all, outs, all[m].dst);
    }
  }

  lemma OtherContents(c: Config, outs: seq<bool>, x: string)
    requires ValidConfig(c) && |outs| <= |All(c)|
    requires forall k :: 0 <= k < |c.names| && !IsDot(c.names[k]) ==> c.dstDir + "/" + c.names[k] != x
    ensures Same(SequentialCopy(c.files, All(c), outs), c.files, x)
  {
    forall m | 0 <= m < |All(c)|
      ensures All(c)[m].dst != x
    {
      var k := JobOrigin(c, c.names, m);
      assert PlainName(c, c.names[k]);
    }
    SequentialFrame(c.files, All(c), outs, x);
  }

  /** Every entry but `.` and `..` is decided, by its own calls of `open`. */
  lemma CompletedRunDecides(c: Config, acts: seq<Action>, s: State)
    requires ValidConfig(c) && c.consumers >= 1
    requires Run(c, Init(c), acts, s) && Finished(s)
    ensures s.d.outs == OpenResults(false, acts) && |s.d.outs| == Place(c.names, |c.names|)
  {
    CompletedRunIsSequential(c, acts, s);
    PlaceCounts(c, c.names);
    RunDecides(c, Init(c), acts, s);
    assert s.d.outs + [] == s.d.outs && [] + OpenResults(false, acts) == OpenResults(false, acts);
  }

  lemma ReachableJobs(c: Config, acts: seq<Action>, s: State)
    requires ValidConfig(c) && Run(c, Init(c), acts, s)
    ensures |s.d.outs| <= |All(c)| && SourcesExist(c.files, All(c), s.d.outs) && Distinct(All(c))
  {
    ReachableGood(c, acts, s);
  }

  /** What that means entry by entry, `.` and `..` apart: where both opens succeeded, the file of
      that name in the destination directory holds the bytes of the one in the source directory;
      every path that no such entry names is as it was. */
  lemma CompletedRunContents(c: Config, acts: seq<Action>, s: State)
    requires ValidConfig(c) && c.consumers >= 1
    requires Run(c, Init(c), acts, s) && Finished(s)
    ensures forall k :: 0 <= k < |c.names| && c.names[k] != "." && c.names[k] != ".." ==>
              && Place(c.names, k) < |s.d.outs|
              && var src, dst := c.srcDir + "/" + c.names[k], c.dstDir + "/" + c.names[k];
                 if s.d.outs[Place(c.names, k)]
                 then src in c.files && dst in s.d.sys.files && s.d.sys.files[dst] == c.files[src]
                 else Same(s.d.sys.files, c.files, dst)
    ensures forall x :: (forall k :: 0 <= k < |c.names| && c.names[k] != "." && c.names[k] != ".." ==>
                           c.dstDir + "/" + c.names[k] != x) ==>
              Same(s.d.sys.files, c.files, x)
  {
    CompletedRunIsSequential(c, acts, s);
    ReachableJobs(c, acts, s);
    forall k | 0 <= k < |c.names| && c.names[k] != "." && c.names[k] != ".."
      ensures Place(c.names, k) < |s.d.outs|
      ensures var src, dst := c.srcDir + "/" + c.names[k], c.dstDir + "/" + c.names[k];
              if s.d.outs[Place(c.names, k)]
              then src in c.files && dst in s.d.sys.files && s.d.sys.files[dst] == c.files[src]
              else Same(s.d.sys.files, c.files, dst)
    {
      EntryJob(c, k);
      JobContents(c.files, All(c), s.d.outs, Place(c.names, k));
    }
    forall x | forall k :: 0 <= k < |c.names| && c.names[k] != "." && c.names[k] != ".." ==>
                 c.dstDir + "/" + c.names[k] != x
      ensures Same(s.d.sys.files, c.files, x)
    {
      OtherContents(c, s.d.outs, x);
    }
  }

  /** Nothing is copied onto the entries `.` and `..`. */
  lemma DotsUntouched(c: Config, acts: seq<Action>, s: State, name: string)
    requires ValidConfig(c) && c.consumers >= 1
    requires Run(c, Init(c), acts, s) && Finished(s) && (name == "." || name == "..")
    ensures Same(s.d.sys.files, c.files, c.dstDir + "/" + name)
  {
    CompletedRunContents(c, acts, s);
    var x := c.dstDir + "/" + name;
    forall k | 0 <= k < |c.names| && c.names[k] != "." && c.names[k] != ".."
      ensures c.dstDir + "/" + c.names[k] != x
    {
      assert (c.dstDir + "/" + c.names[k])[|c.dstDir| + 1..] == c.names[k];
      assert x[|c.dstDir| + 1..] == name;
    }
  }

  /** No deadlock: while some thread has not finished, some thread can move without any
      spurious wakeup (given a consumer, should the producer be waiting). */
  lemma NoDeadlock(c: Config, acts: seq<Action>, s: State) returns (a: Action)
    requires ValidConfig(c) && (c.consumers >= 1 || !s.p.PSleep?)
    requires Run(c, Init(c), acts, s) && !Finished(s)
    ensures a.Move? && Enabled(s, a)
  {
    ReachableGood(c, acts, s);
    match s.owner {
      case Some(Producer) =>
        a := Move(Producer, ProducerChoice(s));
      case Some(Consumer(i)) =>
        a := Move(Consumer(i), ConsumerChoice(s, i));
      case None =>
        if !s.p.PSleep? && !s.p.PExit? {
          a := Move(Producer, Nothing);
        } else {
          AsleepBounds(s.cs);
          var i :| 0 <= i < |s.cs| && !s.cs[i].CSleep? && !s.cs[i].CExit? by {
            if s.p.PSleep? {
              assert s.d.ring.count == c.cap >= 1;
              assert Total(Asleep, s.cs) < |s.cs|;
            } else {
              assert Sleepers(s.cs) == {};
              assert forall i :: 0 <= i < |s.cs| && s.cs[i].CSleep? ==> i in Sleepers(s.cs);
            }
          }
          a := Move(Consumer(i), Nothing);
        }
    }
  }

  /** A choice that lets the owning producer move. */
  function ProducerChoice(s: State): Choice {
    match s.p
    case POpenSrc(_) => Fails
    case POpenDst(_, _) => Fails
    case PSignal => Wakes(Sleepers(s.cs))
    case _ => Nothing
  }

  function ConsumerChoice(s: State, i: nat): Choice
    requires i < |s.cs|
  {
    match s.cs[i]
    case CRead(sfd, _) => Got(if Unread(s.d.sys, sfd) == [] then 0 else 1)
    case _ => Nothing
  }

  /** No wakeup is lost: whenever the mutex is free, at least min(consumers, waiting slots)
      consumers are awake, a sleeping producer faces a full buffer, and after `done` nobody sleeps. */
  lemma NoLostWakeup(c: Config, acts: seq<Action>, s: State)
    requires ValidConfig(c) && Run(c, Init(c), acts, s) && s.owner.None?
    ensures var awake := |s.cs| - |Sleepers(s.cs)|;
            awake >= c.consumers || awake >= s.d.ring.count
    ensures s.p.PSleep? ==> s.d.ring.count == c.cap
    ensures s.d.ring.done ==> Sleepers(s.cs) == {}
  {
    ReachableGood(c, acts, s);
    AsleepBounds(s.cs);
    AsleepIsCard(s.cs);
  }

  lemma {:induction false} AsleepIsCard(cs: seq<ConsumerPc>)
    ensures Total(Asleep, cs) == |Sleepers(cs)|
  {
    if cs == [] {
      assert Sleepers(cs) == {};
    } else {
      var n := |cs| - 1;
      AsleepIsCard(cs[..n]);
      TotalSnoc(Asleep, cs[..n], cs[n]);
      assert cs == cs[..n] + [cs[n]];
      var before := Sleepers(cs[..n]);
      if cs[n].CSleep? {
        assert Sleepers(cs) == before + {n};
      } else {
        assert Sleepers(cs) == before;
      }
    }
  }

  lemma {:induction false} TotalSnoc(w: Weighing, cs: seq<ConsumerPc>, pc: ConsumerPc)
    ensures Total(w, cs + [pc]) == Total(w, cs) + Weight(w, pc)
  {
    if cs != [] {
      assert (cs + [pc])[1..] == cs[1..] + [pc];
      TotalSnoc(w, cs[1..], pc);
    }
  }

  /** Mutual exclusion: at most one thread is between a lock and its unlock, and it is the owner. */
  lemma MutualExclusion(c: Config, acts: seq<Action>, s: State, i: nat, k: nat)
    requires ValidConfig(c) && Run(c, Init(c), acts, s)
    requires i < |s.cs| && k < |s.cs| && ConsumerHolds(s.cs[i])
    ensures !ProducerHolds(s.p) && (ConsumerHolds(s.cs[k]) ==> k == i)
  {
    ReachableGood(c, acts, s);
  }

  // The field updates simulate an atomic bounded queue.

  /** The abstract program: jobs still to be decided, the queue, the jobs copied, the outcomes. */
  datatype Fifo = Fifo(pending: seq<Job>, queue: seq<Job>, copied: seq<Job>, outs: seq<bool>, closed: bool)

  predicate FifoNext(cap: nat, a: Fifo, b: Fifo) {
    || (a.pending != [] && b == a.(pending := a.pending[1..], outs := a.outs + [false]))
    || (a.pending != [] && |a.queue| < cap
        && b == a.(pending := a.pending[1..], queue := a.queue + [a.pending[0]], outs := a.outs + [true]))
    || (a.queue != [] && b == a.(queue := a.queue[1..], copied := a.copied + [a.queue[0]]))
    || (a.pending == [] && !a.closed && b == a.(closed := true))
  }

  ghost function Abstract(c: Config, s: State): Fifo {
    Fifo(Pending(c, s), QJobs(s.d.q), s.d.log, s.d.outs, s.d.ring.done)
  }

  lemma ProducerRefinesFifo(c: Config, s: State, o: Choice)
    requires FlowInv(c, s) && ProducerEnabled(s, o) && WellFormed(s.d.ring)
    requires s.p.PCount? ==> |s.d.q| < c.cap
    ensures var a, b := Abstract(c, s), Abstract(c, ProducerStep(c, s, o)); b == a || FifoNext(c.cap, a, b)
  {
    ProducerPending(c, s, o);
    if s.p.PCount? {
      assert QJobs(ProducerStep(c, s, o).d.q) == QJobs(s.d.q) + [s.p.x.job];
    }
  }

  lemma ConsumerRefinesFifo(c: Config, s: State, i: nat, o: Choice)
    requires i < |s.cs| && ConsumerEnabled(s, i, o) && WellFormed(s.d.ring)
    requires s.cs[i].CPrint? ==> s.d.q != [] && s.d.ring.slots[s.d.ring.out].job == s.d.q[0].job
    ensures var a, b := Abstract(c, s), Abstract(c, ConsumerStep(s, i, o)); b == a || FifoNext(c.cap, a, b)
  {
    var s' := ConsumerStep(s, i, o);
    assert Pending(c, s') == Pending(c, s);
    if s.cs[i].CPrint? {
      assert QJobs(s'.d.q) == QJobs(s.d.q)[1..];
    }
  }

  /** Each action either does nothing abstractly or is one atomic queue operation. */
  lemma StepRefinesFifo(c: Config, s: State, a: Action)
    requires Good(c, s) && Enabled(s, a)
    ensures var s' := Do(c, s, a);
            Abstract(c, s') == Abstract(c, s) || FifoNext(c.cap, Abstract(c, s), Abstract(c, s'))
  {
    match a {
      case Move(Producer, o) =>
        if s.p.PCount? {
          assert Current(s) == InP(s.p);
        }
        ProducerRefinesFifo(c, s, o);
      case Move(Consumer(i), o) =>
        if s.cs[i].CPrint? {
          assert Current(s) == InC(CPrint);
          Dequeue(Fixed(c), s.d);
        }
        ConsumerRefinesFifo(c, s, i, o);
      case Spurious(t) =>
        assert Pending(c, Do(c, s, a)) == Pending(c, s);
    }
  }

  /** Some sequence of atomic queue operations leads from `a` to `b`. */
  predicate FifoRun(cap: nat, a: Fifo, path: seq<Fifo>, b: Fifo)
    decreases |path|
  {
    if path == [] then a == b else FifoNext(cap, a, path[0]) && FifoRun(cap, path[0], path[1..], b)
  }

  lemma {:induction false} RunRefinesFifo(c: Config, s: State, acts: seq<Action>, t: State) returns (path: seq<Fifo>)
    requires Good(c, s) && Run(c, s, acts, t)
    ensures FifoRun(c.cap, Abstract(c, s), path, Abstract(c, t)) && |path| <= |acts|
    decreases |acts|
  {
    if acts == [] {
      path := [];
    } else {
      var s' := Do(c, s, acts[0]);
      StepRefinesFifo(c, s, acts[0]);
      StepKeepsGood(c, s, acts[0]);
      path := RunRefinesFifo(c, s', acts[1..], t);
      if Abstract(c, s') != Abstract(c, s) {
        path := [Abstract(c, s')] + path;
      }
    }
  }

  /** Whole runs are runs of the atomic queue that starts with all entries undecided. */
  lemma RunSimulatesFifo(c: Config, acts: seq<Action>, s: State) returns (path: seq<Fifo>)
    requires ValidConfig(c) && Run(c, Init(c), acts, s)
    ensures FifoRun(c.cap, Fifo(All(c), [], [], [], false), path, Abstract(c, s))
  {
    InitGood(c);
    path := RunRefinesFifo(c, Init(c), acts, s);
    assert Abstract(c, Init(c)) == Fifo(All(c), [], [], [], false);
  }

  /** Whenever the mutex is free the array is that queue: `count` is in range, `in` is where the
      queue ends, and copied ++ queued is everything enqueued, in order. */
  lemma RingIsFifo(c: Config, acts: seq<Action>, s: State)
    requires ValidConfig(c) && Run(c, Init(c), acts, s) && s.owner.None?
    ensures var r := s.d.ring;
            && WellFormed(r) && r.count <= c.cap == |r.slots|
            && r.inn == (r.out + r.count) % c.cap
            && |s.d.outs| <= |All(c)|
            && s.d.log + QJobs(Contents(r)) == Selected(All(c), s.d.outs)
  {
    ReachableGood(c, acts, s);
    RepresentsIsContents(s.d.ring, s.d.q);
  }

  // Descriptors.

  /** At most two descriptors per slot are ever open, and opens are closes plus what is open. */
  lemma DescriptorBound(c: Config, acts: seq<Action>, s: State)
    requires ValidConfig(c) && Run(c, Init(c), acts, s)
    ensures |s.d.sys.fds| <= 2 * c.cap
    ensures s.d.sys.opens == s.d.sys.closes + |s.d.sys.fds|
  {
    ReachableGood(c, acts, s);
  }

  /** Every `close` closes a descriptor that is open: none is closed twice. */
  lemma EveryCloseSucceeds(c: Config, acts: seq<Action>, s: State, a: Action)
    requires ValidConfig(c) && Run(c, Init(c), acts, s) && Enabled(s, a)
    ensures WellFormed(s.d.ring)
    ensures a.Move? && a.t.Producer? && s.p.PCloseSrc? ==>
              s.p.sfd in s.d.sys.fds && Do(c, s, a).d.sys.closes == s.d.sys.closes + 1
    ensures a.Move? && a.t.Consumer? && s.cs[a.t.i].CCloseSrc? ==>
              s.cs[a.t.i].sfd in s.d.sys.fds && Do(c, s, a).d.sys.closes == s.d.sys.closes + 1
    ensures a.Move? && a.t.Consumer? && s.cs[a.t.i].CCloseDst? ==>
              s.cs[a.t.i].dfd in s.d.sys.fds && Do(c, s, a).d.sys.closes == s.d.sys.closes + 1
  {
    ReachableGood(c, acts, s);
    if a.Move? && a.t.Producer? && s.p.PCloseSrc? {
      assert Current(s) == InP(s.p);
    } else if a.Move? && a.t.Consumer? && ConsumerHolds(s.cs[a.t.i]) {
      assert Current(s) == InC(s.cs[a.t.i]);
    }
  }

  // Exit.

  ghost predicate Settled(s: State) {
    s.d.ring.done && s.d.ring.count == 0
  }

  lemma SettledStep(c: Config, s: State, a: Action)
    requires Good(c, s) && Enabled(s, a) && Settled(s)
    ensures Settled(Do(c, s, a)) && Do(c, s, a).d == s.d
  {
    if a.Move? && a.t.Consumer? && ConsumerHolds(s.cs[a.t.i]) {
      assert Current(s) == InC(s.cs[a.t.i]);
    }
  }

  lemma {:induction false} SettledRun(c: Config, s: State, acts: seq<Action>, t: State)
    requires Good(c, s) && Run(c, s, acts, t) && Settled(s)
    ensures Settled(t) && t.d == s.d
    decreases |acts|
  {
    if acts != [] {
      SettledStep(c, s, acts[0]);
      StepKeepsGood(c, s, acts[0]);
      SettledRun(c, Do(c, s, acts[0]), acts[1..], t);
    }
  }

  /** A consumer leaves only when `done` holds and the buffer is empty, and from then on no
      action of any thread changes buffer, files, descriptors or log. */
  lemma ExitIsFinal(c: Config, acts: seq<Action>, s: State, i: nat, more: seq<Action>, t: State)
    requires ValidConfig(c) && Run(c, Init(c), acts, s)
    requires i < |s.cs| && s.cs[i].CExit?
    requires Run(c, s, more, t)
    ensures s.d.ring.done && s.d.ring.count == 0 && t.d == s.d
  {
    ReachableGood(c, acts, s);
    SettledRun(c, s, more, t);
  }
}
