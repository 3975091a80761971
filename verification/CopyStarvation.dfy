/** When the copy program can get stuck: only without consumers, and then exactly if the buffer
    can be filled before the last entry. */
module CopyStarvation {
  import opened Posix
  import opened RingBuffer
  import opened CopyModel
  import opened CopyData
  import opened CopySteps
  import opened CopyInvariant
  import opened CopyTheorems
  import opened CopyTermination

  type Files = map<string, seq<Byte>>

  /** How many of the jobs have a source that can be opened. */
  function Openable(files: Files, jobs: seq<Job>): (n: nat)
    ensures n <= |jobs|
  {
    if jobs == [] then 0 else (if jobs[0].src in files then 1 else 0) + Openable(files, jobs[1..])
  }

  function Front(jobs: seq<Job>): seq<Job>
    requires jobs != []
  {
    jobs[..|jobs| - 1]
  }

  /** A run that has not finished and that only a spurious wakeup could continue. */
  ghost predicate StuckRun(c: Config, acts: seq<Action>, s: State) {
    Run(c, Init(c), acts, s) && !Finished(s) && forall a: Action :: a.Move? ==> !Enabled(s, a)
  }

  /** The entries before the last one suffice to fill the buffer. */
  predicate Overfull(c: Config) {
    All(c) != [] && Openable(c.files, Front(All(c))) >= c.cap
  }

  lemma {:induction false} OpenableJoins(files: Files, a: seq<Job>, b: seq<Job>)
    ensures Openable(files, a + b) == Openable(files, a) + Openable(files, b)
  {
    if a == [] {
      assert a + b == b;
    } else {
      assert (a + b)[1..] == a[1..] + b;
      OpenableJoins(files, a[1..], b);
    }
  }

  // A stuck run has filled the buffer before the last entry.

  lemma StepCopiesNothing(c: Config, s: State, a: Action)
    requires |s.cs| == 0 && WellFormed(s.d.ring) && Enabled(s, a)
    ensures Do(c, s, a).d.log == s.d.log && |Do(c, s, a).cs| == 0
  {
  }

  /** Without consumers nothing is ever copied. */
  lemma {:induction false} NothingCopied(c: Config, s: State, acts: seq<Action>, t: State)
    requires |s.cs| == 0 && Run(c, s, acts, t)
    ensures t.d.log == s.d.log
    decreases |acts|
  {
    if acts != [] {
      StepCopiesNothing(c, s, acts[0]);
      NothingCopied(c, Do(c, s, acts[0]), acts[1..], t);
    }
  }

  lemma {:induction false} SelectedOpenable(files: Files, jobs: seq<Job>, outs: seq<bool>)
    requires |outs| <= |jobs| && SourcesExist(files, jobs, outs)
    ensures |Selected(jobs, outs)| <= Openable(files, jobs[..|outs|])
  {
    if outs != [] {
      var n := |outs| - 1;
      SelectedOpenable(files, jobs, outs[..n]);
      OpenableJoins(files, jobs[..n], [jobs[n]]);
      assert jobs[..n + 1] == jobs[..n] + [jobs[n]];
    }
  }

  /** A producer that sleeps beside no consumer has a full buffer and a job in hand. */
  lemma AsleepAlone(c: Config, s: State)
    requires Good(c, s) && c.consumers == 0 && s.p.PSleep?
    ensures |s.d.q| == c.cap && |s.d.outs| < |All(c)| && HistoryInv(c.files, All(c), s.d)
  {
    FullWhenAsleep(c, s);
    assert |Pending(c, s)| >= 1;
  }

  lemma FullIsOverfull(c: Config, d: Shared)
    requires HistoryInv(c.files, All(c), d) && d.log == [] && |d.q| >= c.cap && |d.outs| < |All(c)|
    ensures Overfull(c)
  {
    var all, n := All(c), |d.outs|;
    assert d.log + QJobs(d.q) == QJobs(d.q);
    SelectedOpenable(c.files, all, d.outs);
    OpenableJoins(c.files, all[..n], Front(all)[n..]);
    assert Front(all) == all[..n] + Front(all)[n..];
  }

  lemma StuckIsOverfull(c: Config, acts: seq<Action>, s: State)
    requires ValidConfig(c) && StuckRun(c, acts, s)
    ensures c.consumers == 0 && Overfull(c)
  {
    StuckIsFinished(c, acts, s);
    ReachableGood(c, acts, s);
    NothingCopied(c, Init(c), acts, s);
    AsleepAlone(c, s);
    FullIsOverfull(c, s.d);
  }

  // Such a run exists: the producer alone, opening every file that is there.

  lemma UpperBound(fds: set<int>) returns (b: int)
    ensures b >= 0 && forall fd :: fd in fds ==> fd < b
    decreases |fds|
  {
    if exists fd: int :: fd in fds {
      var fd: int :| fd in fds;
      b := UpperBound(fds - {fd});
      b := if fd < b then b else fd + 1;
      assert forall x :: x in fds ==> x == fd || x in fds - {fd};
    } else {
      b := 0;
    }
  }

  lemma Unused(s: System) returns (fd: int)
    ensures FreshFd(s, Fd(fd))
  {
    fd := UpperBound(s.fds.Keys);
  }

  /** The undecided jobs but the last still fill the buffer. */
  predicate Suffices(c: Config, pending: seq<Job>, count: nat) {
    pending != [] && count + Openable(c.files, Front(pending)) >= c.cap
  }

  /** On the way to a full buffer with a job in hand. */
  ghost predicate Filling(c: Config, s: State) {
    Suffices(c, Pending(c, s), s.d.ring.count) && !s.p.PCloseSrc?
  }

  /** A job in the producer's hands has a source to open exactly if it had one at the start. */
  lemma InHandOpenable(c: Config, s: State)
    requires Good(c, s) && InHand(s.p) != []
    ensures InHand(s.p)[0].src in s.d.sys.files <==> InHand(s.p)[0].src in c.files
  {
    var x := Fixed(c);
    InHandIsNext(c, s);
    SourceIntact(x.cap, x.files0, x.all, s.d, Current(s), |s.d.outs|);
  }

  /** The choice that fills the buffer. */
  lemma FillingChoice(c: Config, s: State) returns (o: Choice)
    requires Good(c, s) && c.consumers == 0 && Filling(c, s) && !s.p.PSleep?
    ensures ProducerEnabled(s, o)
    ensures o.Fails? ==> s.p.POpenSrc? && s.p.job.src !in c.files
  {
    o := Nothing;
    match s.p {
      case POpenSrc(j) =>
        InHandOpenable(c, s);
        if j.src in c.files {
          var fd := Unused(s.d.sys);
          o := Fd(fd);
        } else {
          o := Fails;
        }
      case POpenDst(_, _) =>
        var fd := Unused(s.d.sys);
        o := Fd(fd);
      case PSignal => o := Wakes(Sleepers(s.cs));
      case _ =>
    }
  }

  /** The first pending job fills a slot or could not be opened. */
  lemma SufficesNext(c: Config, pending: seq<Job>, count: nat, added: bool)
    requires Suffices(c, pending, count) && count < c.cap
    requires added || pending[0].src !in c.files
    ensures Suffices(c, pending[1..], if added then count + 1 else count)
  {
    assert |pending| >= 2;
    assert Front(pending)[1..] == Front(pending[1..]);
  }

  /** The producer decides an entry only while the buffer is not full. */
  lemma RoomToDecide(c: Config, s: State, o: Choice)
    requires Good(c, s) && ProducerEnabled(s, o) && Decides(s, o)
    ensures s.d.ring.count < c.cap
  {
    assert Current(s) == InP(s.p);
  }

  /** What the producer's next action does to what `Filling` speaks of. */
  lemma FillingChanges(c: Config, s: State, o: Choice)
    requires ProducerEnabled(s, o) && WellFormed(s.d.ring) && Pending(c, s) != [] && !s.p.PCloseSrc?
    requires o.Fails? ==> s.p.POpenSrc?
    ensures var s' := ProducerStep(c, s, o);
            && s'.d.ring.count == (if s.p.PCount? then s.d.ring.count + 1 else s.d.ring.count)
            && !s'.p.PCloseSrc?
            && (Decides(s, o) ==> Pending(c, s)[0] == InHand(s.p)[0])
  {
  }

  lemma FillingStep(c: Config, s: State, o: Choice)
    requires ProducerEnabled(s, o) && WellFormed(s.d.ring) && Filling(c, s)
    requires Decides(s, o) ==> s.d.ring.count < c.cap
    requires o.Fails? ==> s.p.POpenSrc? && s.p.job.src !in c.files
    ensures Filling(c, ProducerStep(c, s, o))
  {
    FillingChanges(c, s, o);
    ProducerPending(c, s, o);
    if Decides(s, o) {
      SufficesNext(c, Pending(c, s), s.d.ring.count, s.p.PCount?);
    }
  }

  lemma {:induction false} RunSnoc(c: Config, s: State, acts: seq<Action>, t: State, a: Action)
    requires Run(c, s, acts, t) && WellFormed(t.d.ring) && Enabled(t, a)
    ensures Run(c, s, acts + [a], Do(c, t, a))
    decreases |acts|
  {
    if acts == [] {
      assert acts + [a] == [a] && [a][1..] == [];
    } else {
      RunSnoc(c, Do(c, s, acts[0]), acts[1..], t, a);
      assert (acts + [a])[1..] == acts[1..] + [a];
    }
  }

  /** The producer goes on towards a full buffer. */
  lemma FillingMove(c: Config, past: seq<Action>, s: State) returns (a: Action, t: State)
    requires ValidConfig(c) && c.consumers == 0
    requires Run(c, Init(c), past, s) && Filling(c, s) && !s.p.PSleep?
    ensures Run(c, Init(c), past + [a], t) && Filling(c, t)
    ensures 0 <= Measure(c, t) < Measure(c, s)
  {
    ReachableGood(c, past, s);
    var o := FillingChoice(c, s);
    a := Move(Producer, o);
    t := Do(c, s, a);
    if Decides(s, o) {
      RoomToDecide(c, s, o);
    }
    FillingStep(c, s, o);
    StepKeepsGood(c, s, a);
    StepLowers(c, s, a);
    MeasureNonnegative(c, t);
    RunSnoc(c, Init(c), past, s, a);
  }

  lemma {:induction false} RunUntilFull(c: Config, past: seq<Action>, s: State) returns (acts: seq<Action>, t: State)
    requires ValidConfig(c) && c.consumers == 0
    requires Run(c, Init(c), past, s) && Filling(c, s)
    ensures Run(c, Init(c), acts, t) && t.p.PSleep?
    decreases Measure(c, s)
  {
    if s.p.PSleep? {
      acts, t := past, s;
    } else {
      var a, s' := FillingMove(c, past, s);
      acts, t := RunUntilFull(c, past + [a], s');
    }
  }

  lemma OverfullGetsStuck(c: Config) returns (acts: seq<Action>, s: State)
    requires ValidConfig(c) && c.consumers == 0 && Overfull(c)
    ensures StuckRun(c, acts, s)
  {
    assert Pending(c, Init(c)) == All(c);
    acts, s := RunUntilFull(c, [], Init(c));
    StuckIsFinished(c, acts, s);
  }

  /** Some run gets stuck unfinished exactly if there is no consumer and the entries before the
      last one that can be opened are at least as many as the buffer has slots. */
  lemma StuckExactlyWhenOverfull(c: Config)
    requires ValidConfig(c)
    ensures (exists acts, s :: StuckRun(c, acts, s)) <==> c.consumers == 0 && Overfull(c)
  {
    forall acts, s | StuckRun(c, acts, s)
      ensures c.consumers == 0 && Overfull(c)
    {
      StuckIsOverfull(c, acts, s);
    }
    if c.consumers == 0 && Overfull(c) {
      var acts, s := OverfullGetsStuck(c);
    }
  }

  /** One slot, no consumer, two entries; the second need not even exist. */
  lemma StuckExample() returns (c: Config, acts: seq<Action>, s: State)
    ensures ValidConfig(c) && c.cap == 1 && c.names == ["a", "b"] && c.files == map["s/a" := []]
    ensures StuckRun(c, acts, s)
  {
    c := Config(1, 0, "s", "d", ["a", "b"], map["s/a" := []]);
    var first, second := JobOf(c, "a"), JobOf(c, "b");
    assert c.names[1..] == ["b"] && c.names[1..][1..] == [];
    assert Jobs(c, c.names[1..]) == [second];
    assert All(c) == [first, second];
    assert Front(All(c)) == [first] && first.src == "s/a";
    acts, s := OverfullGetsStuck(c);
  }
}
