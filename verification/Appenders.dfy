/** HW1/appendMeMore.c: any number of processes each add bytes to one file, some opened with
    O_APPEND (one atomic action per byte), some with `x` (an `lseek` and then a `write`). */
module Appenders {
  import opened Posix

  const LETTER: Byte := 105   // "i"

  datatype Mode = OAppend | Seek

  /** Offset of the open file description after `lseek`, until the `write` that uses it. */
  datatype Pending = NoOffset | At(off: nat)

  /** One process: loop iterations to go and made, and where it stands in its iteration. */
  datatype Process = Process(mode: Mode, left: nat, made: nat, pending: Pending)

  datatype State = State(content: seq<Byte>, procs: seq<Process>)

  /** Command lines: mode and the number `atol` gives; the loop does nothing for a negative one. */
  datatype Command = Command(mode: Mode, bytes: int)

  function Count(c: Command): nat {
    if c.bytes > 0 then c.bytes else 0
  }

  function Init(content: seq<Byte>, cmds: seq<Command>): State {
    State(content, seq(|cmds|, k requires 0 <= k < |cmds| => Process(cmds[k].mode, Count(cmds[k]), 0, NoOffset)))
  }

  predicate Enabled(s: State, i: nat) {
    i < |s.procs| && s.procs[i].left > 0
  }

  /** The next system call of process `i`. */
  function Do(s: State, i: nat): State
    requires Enabled(s, i)
  {
    var p := s.procs[i];
    match (p.mode, p.pending)
    case (OAppend, _) =>
      State(WriteAt(s.content, |s.content|, [LETTER]),
            s.procs[i := p.(left := p.left - 1, made := p.made + 1)])
    case (Seek, NoOffset) =>
      s.(procs := s.procs[i := p.(pending := At(|s.content|))])
    case (Seek, At(off)) =>
      State(WriteAt(s.content, off, [LETTER]),
            s.procs[i := p.(left := p.left - 1, made := p.made + 1, pending := NoOffset)])
  }

  predicate Run(s: State, schedule: seq<nat>, t: State)
    decreases |schedule|
  {
    if schedule == [] then s == t else Enabled(s, schedule[0]) && Run(Do(s, schedule[0]), schedule[1..], t)
  }

  predicate Finished(s: State) {
    forall i :: 0 <= i < |s.procs| ==> s.procs[i].left == 0
  }

  // Sums over the processes.

  datatype Measure = AllLeft | AppendLeft | AllMade | AppendMade | Calls

  function Value(m: Measure, p: Process): nat {
    match m
    case AllLeft => p.left
    case AppendLeft => if p.mode.OAppend? then p.left else 0
    case AllMade => p.made
    case AppendMade => if p.mode.OAppend? then p.made else 0
    case Calls =>
      if p.left == 0 then 0
      else if p.mode.OAppend? then p.left
      else 2 * p.left - (if p.pending.At? then 1 else 0)
  }

  function Sum(m: Measure, ps: seq<Process>): nat {
    if ps == [] then 0 else Value(m, ps[0]) + Sum(m, ps[1..])
  }

  lemma {:induction false} SumUpdate(m: Measure, ps: seq<Process>, i: nat, p: Process)
    requires i < |ps|
    ensures Sum(m, ps[i := p]) == Sum(m, ps) - Value(m, ps[i]) + Value(m, p)
  {
    if i == 0 {
      assert ps[i := p][1..] == ps[1..];
    } else {
      assert ps[i := p][1..] == ps[1..][i - 1 := p];
      SumUpdate(m, ps[1..], i - 1, p);
    }
  }

  lemma {:induction false} SumSame(m: Measure, n: Measure, ps: seq<Process>, qs: seq<Process>)
    requires |ps| == |qs| && forall i :: 0 <= i < |ps| ==> Value(m, ps[i]) == Value(n, qs[i])
    ensures Sum(m, ps) == Sum(n, qs)
  {
    if ps != [] {
      SumSame(m, n, ps[1..], qs[1..]);
    }
  }

  lemma {:induction false} SumBounds(m: Measure, ps: seq<Process>)
    ensures forall i :: 0 <= i < |ps| ==> Value(m, ps[i]) <= Sum(m, ps)
    ensures Sum(m, ps) > 0 ==> exists i :: 0 <= i < |ps| && Value(m, ps[i]) > 0
  {
    if ps != [] {
      SumBounds(m, ps[1..]);
      forall i | 0 <= i < |ps|
        ensures Value(m, ps[i]) <= Sum(m, ps)
      {
        assert i > 0 ==> ps[i] == ps[1..][i - 1];
      }
      if Sum(m, ps[1..]) > 0 {
        var i :| 0 <= i < |ps[1..]| && Value(m, ps[1..][i]) > 0;
        assert Value(m, ps[i + 1]) > 0;
      }
    }
  }

  lemma {:induction false} AppendWithinAll(ps: seq<Process>)
    ensures Sum(AppendLeft, ps) <= Sum(AllLeft, ps)
  {
    if ps != [] {
      AppendWithinAll(ps[1..]);
    }
  }

  // Every run.

  function Letters(n: nat): seq<Byte> {
    seq(n, _ => LETTER)
  }

  /** The file is its initial content followed by letters only; a pending offset lies behind
      everything its process has written and not beyond the end; the growth is at least the
      O_APPEND iterations and at most all iterations made. */
  ghost predicate Good(base: seq<Byte>, s: State) {
    && |s.content| >= |base|
    && s.content == base + Letters(|s.content| - |base|)
    && |s.content| <= |base| + Sum(AllMade, s.procs)
    && |s.content| >= |base| + Sum(AppendMade, s.procs)
    && (forall i :: 0 <= i < |s.procs| ==> OffsetOk(base, s, s.procs[i]))
  }

  ghost predicate OffsetOk(base: seq<Byte>, s: State, p: Process) {
    && |base| + p.made <= |s.content|
    && (p.mode.OAppend? ==> p.pending.NoOffset?)
    && (p.pending.At? ==> |base| + p.made <= p.pending.off <= |s.content|)
  }

  /** A letter written at or behind the end of the base, without a hole, leaves letters only. */
  lemma WriteLetter(base: seq<Byte>, n: nat, off: nat)
    requires |base| <= off <= |base| + n
    ensures WriteAt(base + Letters(n), off, [LETTER]) == base + Letters(if off == |base| + n then n + 1 else n)
  {
    WriteAtReadBack(base + Letters(n), off, [LETTER]);
  }

  lemma StepKeepsGood(base: seq<Byte>, s: State, i: nat)
    requires Good(base, s) && Enabled(s, i)
    ensures Good(base, Do(s, i))
    ensures |s.content| <= |Do(s, i).content|
  {
    var t, p := Do(s, i), s.procs[i];
    var n := |s.content| - |base|;
    SumUpdate(AllMade, s.procs, i, t.procs[i]);
    SumUpdate(AppendMade, s.procs, i, t.procs[i]);
    assert t.procs == s.procs[i := t.procs[i]];
    if p.mode.OAppend? {
      WriteLetter(base, n, |s.content|);
    } else if p.pending.At? {
      WriteLetter(base, n, p.pending.off);
    }
    forall k | 0 <= k < |t.procs|
      ensures OffsetOk(base, t, t.procs[k])
    {
      assert OffsetOk(base, s, s.procs[k]);
    }
  }

  /** What one system call does to the counters of its process. */
  ghost predicate Accounts(s: State, t: State) {
    && |s.procs| == |t.procs|
    && forall i :: 0 <= i < |s.procs| ==>
         t.procs[i].mode == s.procs[i].mode && t.procs[i].left + t.procs[i].made == s.procs[i].left + s.procs[i].made
  }

  lemma {:induction false} RunKeepsGood(base: seq<Byte>, s: State, schedule: seq<nat>, t: State)
    requires Good(base, s) && Run(s, schedule, t)
    ensures Good(base, t) && Accounts(s, t)
    decreases |schedule|
  {
    if schedule != [] {
      StepKeepsGood(base, s, schedule[0]);
      RunKeepsGood(base, Do(s, schedule[0]), schedule[1..], t);
    }
  }

  lemma InitGood(base: seq<Byte>, cmds: seq<Command>)
    ensures Good(base, Init(base, cmds))
  {
    var s := Init(base, cmds);
    assert base + Letters(0) == base;
    SumBounds(AllMade, s.procs);
    SumBounds(AppendMade, s.procs);
  }

  /** In every state of every run the file is its initial content followed by letters, without a
      hole, and no process will write in front of its own earlier bytes or beyond the end. */
  lemma OnlyLettersAdded(base: seq<Byte>, cmds: seq<Command>, schedule: seq<nat>, s: State)
    requires Run(Init(base, cmds), schedule, s)
    ensures |base| <= |s.content| && s.content[..|base|] == base
    ensures forall k :: |base| <= k < |s.content| ==> s.content[k] == 105
    ensures forall i :: 0 <= i < |s.procs| && s.procs[i].pending.At? ==>
              |base| + s.procs[i].made <= s.procs[i].pending.off <= |s.content|
  {
    InitGood(base, cmds);
    RunKeepsGood(base, Init(base, cmds), schedule, s);
    forall i | 0 <= i < |s.procs| && s.procs[i].pending.At?
      ensures |base| + s.procs[i].made <= s.procs[i].pending.off <= |s.content|
    {
      assert OffsetOk(base, s, s.procs[i]);
    }
  }

  /** Every run is finite: one system call for each O_APPEND byte left and two for each other.
      It can be continued until all processes have finished. */
  lemma {:induction false} RunsEnd(s: State, schedule: seq<nat>, t: State)
    requires Run(s, schedule, t)
    ensures |schedule| + Sum(Calls, t.procs) == Sum(Calls, s.procs)
    ensures (forall i: nat :: !Enabled(t, i)) <==> Finished(t)
    decreases |schedule|
  {
    if schedule != [] {
      var i, u := schedule[0], Do(s, schedule[0]);
      SumUpdate(Calls, s.procs, i, u.procs[i]);
      assert u.procs == s.procs[i := u.procs[i]];
      RunsEnd(u, schedule[1..], t);
    } else {
      assert forall i :: 0 <= i < |t.procs| ==> (Enabled(t, i) <==> t.procs[i].left > 0);
    }
  }

  // Possible final sizes.

  /** All bytes asked for, and those asked for with O_APPEND. */
  function Asked(cmds: seq<Command>): nat {
    if cmds == [] then 0
    else (if cmds[0].bytes > 0 then cmds[0].bytes else 0) + Asked(cmds[1..])
  }

  function AskedAppend(cmds: seq<Command>): nat {
    if cmds == [] then 0
    else (if cmds[0].mode.OAppend? && cmds[0].bytes > 0 then cmds[0].bytes else 0) + AskedAppend(cmds[1..])
  }

  /** Is `growth` between the larger of (all O_APPEND bytes, the bytes of any one `x` process)
      and all bytes? */
  ghost predicate Within(growth: int, cmds: seq<Command>) {
    && AskedAppend(cmds) <= growth <= Asked(cmds)
    && forall i :: 0 <= i < |cmds| && cmds[i].mode.Seek? ==> cmds[i].bytes <= growth
  }

  /** The loops that the processes begin with are what the command lines ask for. */
  lemma {:induction false} InitialSums(base: seq<Byte>, cmds: seq<Command>)
    ensures Sum(AllLeft, Init(base, cmds).procs) == Asked(cmds)
    ensures Sum(AppendLeft, Init(base, cmds).procs) == AskedAppend(cmds)
    ensures Sum(Calls, Init(base, cmds).procs) == 2 * Asked(cmds) - AskedAppend(cmds)
  {
    if cmds != [] {
      InitialSums(base, cmds[1..]);
      assert Init(base, cmds).procs[1..] == Init(base, cmds[1..]).procs;
    }
  }

  /** A completed run has one call for each O_APPEND byte and two for each other. */
  lemma RunLength(base: seq<Byte>, cmds: seq<Command>, schedule: seq<nat>, s: State)
    requires Run(Init(base, cmds), schedule, s)
    ensures |schedule| <= 2 * Asked(cmds) - AskedAppend(cmds)
    ensures |schedule| == 2 * Asked(cmds) - AskedAppend(cmds) <==> Finished(s)
  {
    InitialSums(base, cmds);
    RunsEnd(Init(base, cmds), schedule, s);
    SumBounds(Calls, s.procs);
    InitGood(base, cmds);
    RunKeepsGood(base, Init(base, cmds), schedule, s);
    NoCallsLeft(s.procs);
  }

  lemma NoCallsLeft(ps: seq<Process>)
    ensures Sum(Calls, ps) == 0 <==> forall i :: 0 <= i < |ps| ==> ps[i].left == 0
  {
    SumBounds(Calls, ps);
    if Sum(Calls, ps) == 0 {
      forall i | 0 <= i < |ps|
        ensures ps[i].left == 0
      {
        assert Value(Calls, ps[i]) <= 0;
      }
    }
  }

  /** Every completed run grows the file by an amount in that interval. */
  lemma FinalSizeBounds(base: seq<Byte>, cmds: seq<Command>, schedule: seq<nat>, s: State)
    requires Run(Init(base, cmds), schedule, s) && Finished(s)
    ensures Within(|s.content| - |base|, cmds)
  {
    InitGood(base, cmds);
    var s0 := Init(base, cmds);
    InitialSums(base, cmds);
    RunKeepsGood(base, s0, schedule, s);
    SumSame(AllLeft, AllMade, s0.procs, s.procs);
    SumSame(AppendLeft, AppendMade, s0.procs, s.procs);
    forall i | 0 <= i < |cmds| && cmds[i].mode.Seek?
      ensures cmds[i].bytes <= |s.content| - |base|
    {
      assert OffsetOk(base, s, s.procs[i]);
      assert s.procs[i].made == s0.procs[i].left;
    }
  }

  /** With O_APPEND everywhere no byte is ever lost. */
  lemma AppendOnlyIsExact(base: seq<Byte>, cmds: seq<Command>, schedule: seq<nat>, s: State)
    requires forall i :: 0 <= i < |cmds| ==> cmds[i].mode.OAppend?
    requires Run(Init(base, cmds), schedule, s) && Finished(s)
    ensures s.content == base + seq(Asked(cmds), _ => 105)
  {
    InitGood(base, cmds);
    RunKeepsGood(base, Init(base, cmds), schedule, s);
    FinalSizeBounds(base, cmds, schedule, s);
    InitialSums(base, cmds);
    SumSame(AllLeft, AppendLeft, Init(base, cmds).procs, Init(base, cmds).procs);
  }

  // Constructing a run for every size in the interval: one round of calls adds one byte.

  lemma {:induction false} RunAppend(s: State, a: seq<nat>, t: State, b: seq<nat>, u: State)
    requires Run(s, a, t) && Run(t, b, u)
    ensures Run(s, a + b, u)
    decreases |a|
  {
    if a == [] {
      assert a + b == b;
    } else {
      assert (a + b)[1..] == a[1..] + b;
      RunAppend(Do(s, a[0]), a[1..], t, b, u);
    }
  }

  /** The processes of a round after the chosen ones below `a` did their `lseek` at `off` and
      those below `b` also their `write`. */
  function Phase(ps: seq<Process>, who: set<nat>, off: nat, a: nat, b: nat): (qs: seq<Process>)
    ensures |qs| == |ps|
  {
    seq(|ps|, i requires 0 <= i < |ps| =>
      if i !in who then ps[i]
      else if i < b then Written(ps[i])
      else if i < a then ps[i].(pending := At(off))
      else ps[i])
  }

  function Written(p: Process): Process {
    p.(left := if p.left == 0 then 0 else p.left - 1, made := p.made + 1, pending := NoOffset)
  }

  /** Are these processes in `x` mode, between iterations and not finished? */
  ghost predicate CanSeek(ps: seq<Process>, who: set<nat>) {
    forall i :: i in who ==> i < |ps| && ps[i].mode.Seek? && ps[i].left > 0 && ps[i].pending.NoOffset?
  }

  lemma RunCons(s: State, i: nat, t: State, rest: seq<nat>, u: State)
    requires Enabled(s, i) && Do(s, i) == t && Run(t, rest, u)
    ensures Run(s, [i] + rest, u)
  {
  }

  lemma {:induction false} SeekPhase(c: seq<Byte>, ps: seq<Process>, who: set<nat>, a: nat) returns (schedule: seq<nat>)
    requires CanSeek(ps, who) && a <= |ps|
    ensures Run(State(c, Phase(ps, who, |c|, a, 0)), schedule, State(c, Phase(ps, who, |c|, |ps|, 0)))
    decreases |ps| - a
  {
    if a == |ps| {
      schedule := [];
    } else {
      var s, t := State(c, Phase(ps, who, |c|, a, 0)), State(c, Phase(ps, who, |c|, a + 1, 0));
      schedule := SeekPhase(c, ps, who, a + 1);
      if a in who {
        assert Do(s, a).procs == t.procs;
        RunCons(s, a, t, schedule, State(c, Phase(ps, who, |c|, |ps|, 0)));
        schedule := [a] + schedule;
      } else {
        assert s.procs == t.procs;
      }
    }
  }

  lemma WriteOnce(base: seq<Byte>, c: seq<Byte>, ps: seq<Process>, who: set<nat>, b: nat)
    requires CanSeek(ps, who) && b < |ps| && (c == base || c == base + [LETTER])
    ensures var s, qs := State(c, Phase(ps, who, |base|, |ps|, b)), Phase(ps, who, |base|, |ps|, b + 1);
            if b in who then Enabled(s, b) && Do(s, b) == State(base + [LETTER], qs) else s == State(c, qs)
  {
  }

  /** All chosen processes write at the same offset: the file gets one letter there, once, if
      any of them (`i`, say) is still to write. */
  lemma {:induction false} WritePhase(base: seq<Byte>, c: seq<Byte>, ps: seq<Process>, who: set<nat>, b: nat, i: nat)
    returns (schedule: seq<nat>, d: seq<Byte>)
    requires CanSeek(ps, who) && b <= |ps|
    requires c == base || c == base + [LETTER]
    ensures Run(State(c, Phase(ps, who, |base|, |ps|, b)), schedule, State(d, Phase(ps, who, |base|, |ps|, |ps|)))
    ensures d == base || d == base + [LETTER]
    ensures c == base + [LETTER] || (b <= i && i in who) ==> d == base + [LETTER]
    decreases |ps| - b
  {
    if b == |ps| {
      schedule, d := [], c;
    } else {
      var s := State(c, Phase(ps, who, |base|, |ps|, b));
      var c' := if b in who then base + [LETTER] else c;
      WriteOnce(base, c, ps, who, b);
      schedule, d := WritePhase(base, c', ps, who, b + 1, i);
      if b in who {
        var t := State(c', Phase(ps, who, |base|, |ps|, b + 1));
        RunCons(s, b, t, schedule, State(d, Phase(ps, who, |base|, |ps|, |ps|)));
        schedule := [b] + schedule;
      }
    }
  }

  /** The processes after a round: the chosen `x` processes and, if `0 <= ap`, the O_APPEND
      process `ap` have each made one iteration. */
  function AfterRound(ps: seq<Process>, who: set<nat>, ap: int): seq<Process>
    requires ap < |ps|
  {
    var qs := Phase(ps, who, 0, |ps|, |ps|);
    if ap < 0 then qs else qs[ap := Written(ps[ap])]
  }

  ghost predicate Resting(ps: seq<Process>) {
    forall i :: 0 <= i < |ps| ==> ps[i].pending.NoOffset?
  }

  ghost predicate CanAppend(ps: seq<Process>, ap: int) {
    ap < |ps| && (ap >= 0 ==> ps[ap].mode.OAppend? && ps[ap].left > 0)
  }

  /** A round: everyone chosen seeks, the O_APPEND process writes, everyone chosen writes. */
  lemma Round(s: State, who: set<nat>, ap: int) returns (schedule: seq<nat>)
    requires Resting(s.procs) && CanSeek(s.procs, who) && CanAppend(s.procs, ap)
    requires ap >= 0 || who != {}
    ensures Run(s, schedule, State(s.content + [LETTER], AfterRound(s.procs, who, ap)))
  {
    var c, ps := s.content, s.procs;
    assert Phase(ps, who, |c|, 0, 0) == ps;
    var seeks := SeekPhase(c, ps, who, 0);
    var mid := State(c, Phase(ps, who, |c|, |ps|, 0));
    if ap < 0 {
      var i :| i in who;
      var writes, d := WritePhase(c, c, ps, who, 0, i);
      assert Phase(ps, who, |c|, |ps|, |ps|) == AfterRound(ps, who, ap);
      schedule := seeks + writes;
      RunAppend(s, seeks, mid, writes, State(d, AfterRound(ps, who, ap)));
    } else {
      var ps' := ps[ap := Written(ps[ap])];
      WriteAtEnd(c, [LETTER]);
      var mid' := State(c + [LETTER], Phase(ps', who, |c|, |ps|, 0));
      assert Do(mid, ap).procs == mid'.procs;
      assert Run(mid, [ap], mid');
      var writes, d := WritePhase(c, c + [LETTER], ps', who, 0, 0);
      assert Phase(ps', who, |c|, |ps|, |ps|) == AfterRound(ps, who, ap);
      schedule := seeks + ([ap] + writes);
      var end := State(d, AfterRound(ps, who, ap));
      RunAppend(mid, [ap], mid', writes, end);
      RunAppend(s, seeks, mid, [ap] + writes, end);
    }
  }

  lemma RoundCounts(ps: seq<Process>, who: set<nat>, ap: int)
    requires CanSeek(ps, who) && CanAppend(ps, ap) && Resting(ps)
    ensures var qs := AfterRound(ps, who, ap);
            && |qs| == |ps| && Resting(qs)
            && Sum(AppendLeft, qs) == Sum(AppendLeft, ps) - (if ap >= 0 then 1 else 0)
            && (forall i :: 0 <= i < |ps| ==>
                  qs[i].mode == ps[i].mode && qs[i].left == if i in who || i == ap then ps[i].left - 1 else ps[i].left)
  {
    var mid := Phase(ps, who, 0, |ps|, |ps|);
    SumSame(AppendLeft, AppendLeft, ps, mid);
    if ap >= 0 {
      SumUpdate(AppendLeft, mid, ap, Written(ps[ap]));
    }
  }

  /** Can the file still grow by exactly `g`? */
  ghost predicate Feasible(ps: seq<Process>, g: int) {
    && Sum(AppendLeft, ps) <= g <= Sum(AllLeft, ps)
    && forall i :: 0 <= i < |ps| && ps[i].mode.Seek? ==> ps[i].left <= g
  }

  /** The `x` processes that need every one of `g` rounds. */
  function Urgent(ps: seq<Process>, g: nat): set<nat> {
    set i: nat | i < |ps| && ps[i].mode.Seek? && ps[i].left == g
  }

  /** The O_APPEND bytes need every round: one of those processes takes part. */
  lemma AppendRound(ps: seq<Process>, g: nat) returns (ap: nat)
    requires Resting(ps) && Feasible(ps, g) && g > 0 && Sum(AppendLeft, ps) == g
    ensures CanSeek(ps, Urgent(ps, g)) && CanAppend(ps, ap)
    ensures Feasible(AfterRound(ps, Urgent(ps, g), ap), g - 1)
  {
    SumBounds(AppendLeft, ps);
    ap :| ap < |ps| && Value(AppendLeft, ps[ap]) > 0;
    RoundCounts(ps, Urgent(ps, g), ap);
    AppendWithinAll(AfterRound(ps, Urgent(ps, g), ap));
  }

  /** Some `x` process needs every round: exactly those take part. */
  lemma UrgentRound(ps: seq<Process>, g: nat)
    requires Resting(ps) && Feasible(ps, g) && g > 0 && Sum(AppendLeft, ps) < g && Urgent(ps, g) != {}
    ensures CanSeek(ps, Urgent(ps, g))
    ensures Feasible(AfterRound(ps, Urgent(ps, g), -1), g - 1)
  {
    var who := Urgent(ps, g);
    RoundCounts(ps, who, -1);
    var i :| i in who;
    var qs := AfterRound(ps, who, -1);
    SumBounds(AllLeft, qs);
    assert Value(AllLeft, qs[i]) == g - 1;
    forall k | 0 <= k < |qs| && qs[k].mode.Seek?
      ensures qs[k].left <= g - 1
    {
      assert k in who <==> ps[k].left == g;
    }
  }

  /** Nobody needs every round: anyone with work left takes part alone. */
  lemma SingleRound(ps: seq<Process>, g: nat) returns (who: set<nat>, ap: int)
    requires Resting(ps) && Feasible(ps, g) && g > 0 && Sum(AppendLeft, ps) < g && Urgent(ps, g) == {}
    ensures CanSeek(ps, who) && CanAppend(ps, ap) && (ap >= 0 || who != {})
    ensures Feasible(AfterRound(ps, who, ap), g - 1)
  {
    SumBounds(AllLeft, ps);
    var i: nat :| i < |ps| && Value(AllLeft, ps[i]) > 0;
    who, ap := {}, -1;
    if ps[i].mode.Seek? {
      who := {i};
    } else {
      ap := i;
    }
    RoundCounts(ps, who, ap);
    var qs := AfterRound(ps, who, ap);
    assert qs == ps[i := Written(ps[i])];
    SumUpdate(AllLeft, ps, i, Written(ps[i]));
    forall k | 0 <= k < |qs| && qs[k].mode.Seek?
      ensures qs[k].left <= g - 1
    {
      assert k !in Urgent(ps, g);
    }
  }

  /** Choosing a round that keeps the rest feasible. */
  lemma ChooseRound(ps: seq<Process>, g: nat) returns (who: set<nat>, ap: int)
    requires Resting(ps) && Feasible(ps, g) && g > 0
    ensures CanSeek(ps, who) && CanAppend(ps, ap) && (ap >= 0 || who != {})
    ensures Feasible(AfterRound(ps, who, ap), g - 1)
  {
    who, ap := Urgent(ps, g), -1;
    if Sum(AppendLeft, ps) == g {
      ap := AppendRound(ps, g);
    } else if who != {} {
      UrgentRound(ps, g);
    } else {
      who, ap := SingleRound(ps, g);
    }
  }

  lemma {:induction false} Construct(s: State, g: nat) returns (schedule: seq<nat>, t: State)
    requires Resting(s.procs) && Feasible(s.procs, g)
    ensures Run(s, schedule, t) && Finished(t) && |t.content| == |s.content| + g
    decreases g
  {
    if g == 0 {
      schedule, t := [], s;
      SumBounds(AppendLeft, s.procs);
      forall i | 0 <= i < |s.procs|
        ensures s.procs[i].left == 0
      {
        assert Value(AppendLeft, s.procs[i]) == 0;
      }
    } else {
      var who, ap := ChooseRound(s.procs, g);
      var first := Round(s, who, ap);
      RoundCounts(s.procs, who, ap);
      var mid := State(s.content + [LETTER], AfterRound(s.procs, who, ap));
      var rest;
      rest, t := Construct(mid, g - 1);
      schedule := first + rest;
      RunAppend(s, first, mid, rest, t);
    }
  }

  /** A schedule that completes with this final size. */
  ghost predicate Reaches(base: seq<Byte>, cmds: seq<Command>, schedule: seq<nat>, size: int) {
    exists t :: Run(Init(base, cmds), schedule, t) && Finished(t) && |t.content| == size
  }

  /** The possible final sizes are exactly an interval, for any number of processes in any mix of
      modes: from the larger of (all O_APPEND bytes, the bytes of any one `x` process) to all
      bytes asked for. */
  lemma PossibleSizes(base: seq<Byte>, cmds: seq<Command>, size: int)
    ensures (exists schedule :: Reaches(base, cmds, schedule, size)) <==> Within(size - |base|, cmds)
  {
    if schedule :| Reaches(base, cmds, schedule, size) {
      var t :| Run(Init(base, cmds), schedule, t) && Finished(t) && |t.content| == size;
      FinalSizeBounds(base, cmds, schedule, t);
    }
    if Within(size - |base|, cmds) {
      var s := Init(base, cmds);
      InitialSums(base, cmds);
      forall i | 0 <= i < |s.procs| && s.procs[i].mode.Seek?
        ensures s.procs[i].left <= size - |base|
      {
        assert cmds[i].mode.Seek?;
      }
      var schedule, t := Construct(s, size - |base|);
      assert Reaches(base, cmds, schedule, size);
    }
  }

  // One process alone, in place.

  class File {
    var content: seq<Byte>
    var offset: nat

    constructor (content: seq<Byte>)
      ensures this.content == content && offset == 0
    {
      this.content := content;
      offset := 0;
    }

    method SeekEnd()
      modifies this`offset
      ensures offset == |content|
    {
      offset := |content|;
    }

    /** `write` of one buffer; with O_APPEND the offset is first set to the end. */
    method Write(buf: seq<Byte>, mode: Mode)
      modifies this
      ensures content == WriteAt(old(content), if mode.OAppend? then |old(content)| else old(offset), buf)
    {
      if mode.OAppend? {
        offset := |content|;
      }
      content := WriteAt(content, offset, buf);
      offset := offset + |buf|;
    }

    /** The loop of `main`: alone, both modes add the bytes asked for. */
    method AddBytes(cmd: Command)
      modifies this
      ensures content == old(content) + seq(if cmd.bytes > 0 then cmd.bytes else 0, _ => 105)
    {
      var i := 0;
      assert content == old(content) + Letters(0);
      while i < cmd.bytes
        invariant 0 <= i <= Count(cmd)
        invariant content == old(content) + Letters(i)
      {
        ghost var before := content;
        if cmd.mode.OAppend? {
          Write([LETTER], OAppend);
        } else {
          SeekEnd();
          Write([LETTER], Seek);
        }
        WriteAtEnd(before, [LETTER]);
        i := i + 1;
      }
    }
  }
}
