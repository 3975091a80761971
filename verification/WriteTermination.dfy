/** How the clients of HW4/biboServer.c end: every run of `writeT` requests is finite, and it gets
    stuck exactly if a line is replaced in a file of more than 1000 rows. */
module WriteTermination {
  import opened Posix
  import opened LineStore
  import opened WriteLock

  // A bound on the number of actions.

  function RowsCost(rows: seq<seq<Byte>>): nat {
    if rows == [] then 0 else 1 + |rows[0]| + RowsCost(rows[1..])
  }

  /** Reading, printing and flushing `n` more rows. */
  function RowBudget(n: nat): nat {
    257 * n
  }

  function Room(rows: seq<seq<Byte>>): nat {
    RowBudget(if |rows| < MAX_ROWS then MAX_ROWS - |rows| else 0)
  }

  /** Actions left for the request under way. */
  function CallsLeft(pc: Pc): nat {
    match pc
    case Ready => 0
    case Unlock(_) => 1
    case Close(_, buf) => 2 + |buf|
    case Rows(_, rows, buf) => 3 + |buf| + RowsCost(rows)
    case Truncate(_, rows) => 4 + RowsCost(rows)
    case Decide(r, rows) => 5 + RowsCost(rows) + |r.text|
    case Load(r, rows, _) => 6 + RowsCost(rows) + Room(rows) + |r.text|
    case Append(r) => 3 + |r.text|
    case Reopen(r) => 7 + RowBudget(MAX_ROWS) + |r.text|
    case Text(r) => 3 + |r.text|
    case Create(r) => 4 + |r.text|
    case Exists(r) => 8 + RowBudget(MAX_ROWS) + |r.text|
  }

  function TodoCost(todo: seq<Request>): nat {
    if todo == [] then 0 else 9 + RowBudget(MAX_ROWS) + |todo[0].text| + TodoCost(todo[1..])
  }

  function Work(pcs: seq<Pc>, todo: seq<seq<Request>>): nat
    requires |pcs| == |todo|
  {
    if pcs == [] then 0
    else
      var n := |pcs| - 1;
      Work(pcs[..n], todo[..n]) + CallsLeft(pcs[n]) + TodoCost(todo[n])
  }

  lemma {:induction false} WorkUpdate(pcs: seq<Pc>, todo: seq<seq<Request>>, i: nat, pc: Pc, rest: seq<Request>)
    requires |pcs| == |todo| && i < |pcs|
    ensures Work(pcs[i := pc], todo[i := rest]) - CallsLeft(pc) - TodoCost(rest)
            == Work(pcs, todo) - CallsLeft(pcs[i]) - TodoCost(todo[i])
  {
    var n := |pcs| - 1;
    var ps, ts := pcs[i := pc], todo[i := rest];
    if i < n {
      WorkUpdate(pcs[..n], todo[..n], i, pc, rest);
      assert ps[..n] == pcs[..n][i := pc] && ts[..n] == todo[..n][i := rest];
    } else {
      assert ps[..n] == pcs[..n] && ts[..n] == todo[..n];
    }
  }

  lemma {:induction false} RowsCostSnoc(rows: seq<seq<Byte>>, p: seq<Byte>)
    ensures RowsCost(rows + [p]) == RowsCost(rows) + 1 + |p|
  {
    if rows == [] {
      assert rows + [p] == [p];
    } else {
      assert (rows + [p])[1..] == rows[1..] + [p];
      RowsCostSnoc(rows[1..], p);
    }
  }

  lemma {:induction false} RowsCostUpdate(rows: seq<seq<Byte>>, k: nat, text: seq<Byte>)
    requires k < |rows|
    ensures RowsCost(rows[k := text]) <= RowsCost(rows) + |text|
  {
    if k > 0 {
      assert rows[k := text][1..] == rows[1..][k - 1 := text];
      RowsCostUpdate(rows[1..], k - 1, text);
    } else {
      assert rows[k := text][1..] == rows[1..];
    }
  }

  /** What a client still has to do gets less with each of its actions. */
  lemma MoveLowersOwn(s: State, i: nat)
    requires Shaped(s) && Enabled(s, Move(i)) && !s.pcs[i].Ready?
    ensures CallsLeft(MoveStep(s, i).pcs[i]) < CallsLeft(s.pcs[i])
  {
    match s.pcs[i] {
      case Load(r, rows, rest) =>
        if rest != [] {
          RowsCostSnoc(rows, rest[..Take(rest, 0)]);
        }
      case Decide(r, rows) =>
        if 1 <= r.line <= |rows| {
          RowsCostUpdate(rows, r.line - 1, r.text);
        }
      case _ =>
    }
  }

  lemma StepLowers(s: State, a: Action)
    requires Shaped(s) && Enabled(s, a)
    ensures Work(Do(s, a).pcs, Do(s, a).todo) < Work(s.pcs, s.todo)
  {
    var t, i := Do(s, a), a.i;
    WorkUpdate(s.pcs, s.todo, i, t.pcs[i], t.todo[i]);
    assert t.pcs == s.pcs[i := t.pcs[i]] && t.todo == s.todo[i := t.todo[i]];
    if a.Move? && !s.pcs[i].Ready? {
      MoveLowersOwn(s, i);
    }
  }

  lemma {:induction false} RunLowers(s: State, acts: seq<Action>, t: State)
    requires Shaped(s) && Run(s, acts, t)
    ensures Shaped(t) && |acts| <= Work(s.pcs, s.todo) - Work(t.pcs, t.todo)
    decreases |acts|
  {
    if acts != [] {
      StepLowers(s, acts[0]);
      RunLowers(Do(s, acts[0]), acts[1..], t);
    }
  }

  /** How many requests there are. */
  function Count(requests: seq<seq<Request>>): nat {
    if requests == [] then 0 else Count(requests[..|requests| - 1]) + |requests[|requests| - 1]|
  }

  function TextLength(todo: seq<Request>): nat {
    if todo == [] then 0 else |todo[0].text| + TextLength(todo[1..])
  }

  /** The length of all texts together. */
  function TextBytes(requests: seq<seq<Request>>): nat {
    if requests == [] then 0
    else TextBytes(requests[..|requests| - 1]) + TextLength(requests[|requests| - 1])
  }

  lemma {:induction false} TodoBound(todo: seq<Request>)
    ensures TodoCost(todo) == 257009 * |todo| + TextLength(todo)
  {
    if todo != [] {
      TodoBound(todo[1..]);
    }
  }

  lemma {:induction false} InitialWork(requests: seq<seq<Request>>)
    ensures Work(seq(|requests|, _ => Ready), requests) == 257009 * Count(requests) + TextBytes(requests)
  {
    if requests != [] {
      var n := |requests| - 1;
      InitialWork(requests[..n]);
      TodoBound(requests[n]);
      assert seq(|requests|, _ => Ready)[..n] == seq(|requests[..n]|, _ => Ready);
    }
  }

  /** Step bound: however calls and flushes interleave, a run has at most this many actions. */
  lemma EveryRunIsShort(files: Files, requests: seq<seq<Request>>, acts: seq<Action>, s: State)
    requires Run(Init(files, requests), acts, s)
    ensures |acts| <= 257009 * Count(requests) + TextBytes(requests)
  {
    RunLowers(Init(files, requests), acts, s);
    InitialWork(requests);
  }

  // Which requests overflow the array of rows.

  /** Done one by one, no request replaces a line of a file that is too long. */
  ghost predicate AllFit(files: Files, log: seq<(nat, Request)>) {
    log != [] ==>
      var n := |log| - 1;
      AllFit(files, log[..n]) && !TooLong(Serial(files, log[..n]), log[n].1)
  }

  /** The holder has read at most 1000 rows, and behind the loop that was the whole file. */
  ghost predicate PcFits(before: Files, pc: Pc) {
    match pc
    case Ready => true
    case Exists(_) => true
    case Reopen(_) => true
    case Load(_, rows, _) => |rows| <= MAX_ROWS
    case _ => !TooLong(before, pc.r)
  }

  /** The mutex changes hands only after requests that fit. */
  ghost predicate Fitting(files: Files, s: State)
    requires Good(files, s)
  {
    if s.owner.Held?
    then AllFit(files, s.acquired[..|s.acquired| - 1]) && PcFits(Before(files, s), s.pcs[s.owner.i])
    else AllFit(files, s.acquired)
  }

  lemma MoveFits(before: Files, s: State, i: nat)
    requires Shaped(s) && Enabled(s, Move(i)) && Inside(s.pcs[i])
    requires Progress(before, s.files, s.pcs[i]) && PcFits(before, s.pcs[i])
    ensures if s.pcs[i].Unlock? then !TooLong(before, s.pcs[i].r) else PcFits(before, MoveStep(s, i).pcs[i])
  {
    if s.pcs[i].Load? && s.pcs[i].rest == [] {
      assert s.pcs[i].rows + [] == s.pcs[i].rows;
    }
  }

  lemma TakingKeepsFitting(files: Files, s: State, i: nat)
    requires Good(files, s) && Fitting(files, s) && Enabled(s, Move(i)) && s.pcs[i].Ready?
    ensures Good(files, MoveStep(s, i)) && Fitting(files, MoveStep(s, i))
  {
    LockKeepsGood(files, s, i);
    assert MoveStep(s, i).acquired[..|s.acquired|] == s.acquired;
  }

  lemma FlushKeepsFitting(files: Files, s: State, i: nat, n: nat)
    requires Good(files, s) && Fitting(files, s) && Enabled(s, Flush(i, n))
    ensures Good(files, FlushStep(s, i, n)) && Fitting(files, FlushStep(s, i, n))
  {
    StepKeepsGood(files, s, Flush(i, n));
    assert s.owner == Held(i);
  }

  lemma HolderKeepsFitting(files: Files, s: State, i: nat)
    requires Good(files, s) && Fitting(files, s) && Enabled(s, Move(i)) && Inside(s.pcs[i])
    ensures Good(files, MoveStep(s, i)) && Fitting(files, MoveStep(s, i))
  {
    StepKeepsGood(files, s, Move(i));
    assert s.owner == Held(i);
    MoveFits(Before(files, s), s, i);
  }

  lemma StepKeepsFitting(files: Files, s: State, a: Action)
    requires Good(files, s) && Fitting(files, s) && Enabled(s, a)
    ensures Good(files, Do(s, a)) && Fitting(files, Do(s, a))
  {
    match a {
      case Flush(i, n) => FlushKeepsFitting(files, s, i, n);
      case Move(i) =>
        if s.pcs[i].Ready? {
          TakingKeepsFitting(files, s, i);
        } else {
          HolderKeepsFitting(files, s, i);
        }
    }
  }

  lemma {:induction false} RunKeepsFitting(files: Files, s: State, acts: seq<Action>, t: State)
    requires Good(files, s) && Fitting(files, s) && Run(s, acts, t)
    ensures Good(files, t) && Fitting(files, t)
    decreases |acts|
  {
    if acts != [] {
      StepKeepsFitting(files, s, acts[0]);
      RunKeepsFitting(files, Do(s, acts[0]), acts[1..], t);
    }
  }

  lemma {:induction false} RunSnoc(s: State, acts: seq<Action>, t: State, a: Action)
    requires Shaped(s) && Shaped(t) && Run(s, acts, t) && Enabled(t, a)
    ensures Run(s, acts + [a], Do(t, a))
    decreases |acts|
  {
    if acts == [] {
      assert acts + [a] == [a] && [a][1..] == [];
    } else {
      RunSnoc(Do(s, acts[0]), acts[1..], t, a);
      assert (acts + [a])[1..] == acts[1..] + [a];
    }
  }

  lemma HolderMoves(files: Files, s: State) returns (a: Action)
    requires Good(files, s) && Fitting(files, s) && s.owner.Held? && !Overflowing(s)
    ensures Enabled(s, a)
    ensures var t := Do(s, a);
            && Good(files, t) && Fitting(files, t) && t.acquired == s.acquired && t.todo == s.todo
            && Work(t.pcs, t.todo) < Work(s.pcs, s.todo)
  {
    a := Move(s.owner.i);
    HolderKeepsFitting(files, s, s.owner.i);
    StepLowers(s, a);
  }

  /** The holder alone comes to an end: it releases the mutex or fills the array. */
  lemma {:induction false} HolderEnds(files: Files, s0: State, past: seq<Action>, s: State)
    returns (acts: seq<Action>, t: State)
    requires Shaped(s0) && Good(files, s) && Fitting(files, s) && Run(s0, past, s)
    ensures Run(s0, acts, t) && Good(files, t) && Fitting(files, t)
    ensures t.acquired == s.acquired && t.todo == s.todo
    ensures t.owner.Free? || Overflowing(t)
    decreases Work(s.pcs, s.todo)
  {
    if s.owner.Free? || Overflowing(s) {
      acts, t := past, s;
    } else {
      var a := HolderMoves(files, s);
      RunSnoc(s0, past, s, a);
      acts, t := HolderEnds(files, s0, past + [a], Do(s, a));
    }
  }

  /** From `s` the present holder can fill the array, or give the mutex back. */
  ghost predicate Overflows(s: State, acts: seq<Action>, t: State)
    requires Shaped(s)
  {
    Run(s, acts, t) && t.acquired == s.acquired && Shaped(t) && Overflowing(t)
  }

  ghost predicate Releases(s: State, acts: seq<Action>, t: State)
    requires Shaped(s)
  {
    Run(s, acts, t) && t.acquired == s.acquired && t.owner.Free?
  }

  lemma HolderOutcomeFrom(files: Files, s: State)
    requires Good(files, s) && Fitting(files, s) && s.owner.Held?
    ensures (exists acts, t :: Overflows(s, acts, t)) <==> TooLong(Before(files, s), Last(s))
    ensures (exists acts, t :: Releases(s, acts, t)) <==> !TooLong(Before(files, s), Last(s))
  {
    forall acts, t | Overflows(s, acts, t)
      ensures TooLong(Before(files, s), Last(s))
    {
      RunKeepsFitting(files, s, acts, t);
      OverflowsOnlyLongFiles(files, t);
    }
    forall acts, t | Releases(s, acts, t)
      ensures !TooLong(Before(files, s), Last(s))
    {
      RunKeepsFitting(files, s, acts, t);
    }
    var acts, t := HolderEnds(files, s, [], s);
    assert t.owner.Free? ==> Releases(s, acts, t);
    assert t.owner.Held? ==> Overflows(s, acts, t);
  }

  lemma ReachableFitting(files: Files, requests: seq<seq<Request>>, acts: seq<Action>, s: State)
    requires Run(Init(files, requests), acts, s)
    ensures Good(files, s) && Fitting(files, s)
  {
    InitGood(files, requests);
    RunKeepsFitting(files, Init(files, requests), acts, s);
  }

  /** Whoever holds the mutex fills the array if and only if its request replaces a line of a file
      that had more than 1000 rows when it took the mutex, and otherwise gives the mutex back. */
  lemma HolderOutcome(files: Files, requests: seq<seq<Request>>, past: seq<Action>, s: State)
    requires ValidRequests(requests) && Run(Init(files, requests), past, s) && s.owner.Held?
    ensures Shaped(s) && s.acquired != []
    ensures (exists acts, t :: Overflows(s, acts, t)) <==> TooLong(Before(files, s), Last(s))
    ensures (exists acts, t :: Releases(s, acts, t)) <==> !TooLong(Before(files, s), Last(s))
  {
    ReachableFitting(files, requests, past, s);
    HolderOutcomeFrom(files, s);
  }

  // Told from the inputs.

  /** Some of the requests, each client's from its first on. */
  ghost predicate Interleaves(requests: seq<seq<Request>>, log: seq<(nat, Request)>) {
    && (forall k :: 0 <= k < |log| ==> log[k].0 < |requests|)
    && (forall i :: 0 <= i < |requests| ==> Of(log, i) <= requests[i])
  }

  lemma InterleavesFront(requests: seq<seq<Request>>, log: seq<(nat, Request)>)
    requires Interleaves(requests, log) && log != []
    ensures Interleaves(requests, log[..|log| - 1])
    ensures var n := |log| - 1; var i := log[n].0;
            |Of(log[..n], i)| < |requests[i]| && requests[i][|Of(log[..n], i)|] == log[n].1
  {
    var n := |log| - 1;
    forall i | 0 <= i < |requests|
      ensures Of(log[..n], i) <= requests[i]
    {
      assert Of(log[..n], i) <= Of(log, i);
    }
    assert Of(log, log[n].0) == Of(log[..n], log[n].0) + [log[n].1];
  }

  /** The client whose turn it is takes the mutex. */
  lemma NextTakes(files: Files, requests: seq<seq<Request>>, s: State, i: nat, r: Request)
    requires Good(files, s) && Fitting(files, s) && InOrder(requests, s) && s.owner.Free?
    requires i < |requests| && |Of(s.acquired, i)| < |requests[i]| && requests[i][|Of(s.acquired, i)|] == r
    ensures Enabled(s, Move(i))
    ensures var t := Do(s, Move(i));
            Good(files, t) && Fitting(files, t) && t.owner.Held? && t.acquired == s.acquired + [(i, r)]
  {
    assert Of(s.acquired, i) + s.todo[i] == requests[i];
    assert s.todo[i][0] == requests[i][|Of(s.acquired, i)|];
    assert !Inside(s.pcs[i]);
    StepKeepsFitting(files, s, Move(i));
  }

  lemma HolderEnded(files: Files, s: State)
    requires Good(files, s) && Fitting(files, s) && s.acquired != [] && (s.owner.Free? || Overflowing(s))
    ensures s.owner.Free? <==> AllFit(files, s.acquired)
  {
    if s.owner.Held? {
      OverflowsOnlyLongFiles(files, s);
    }
  }

  /** The client whose turn it is takes the mutex, and comes to an end with it. */
  lemma NextServed(files: Files, requests: seq<seq<Request>>, past: seq<Action>, s: State, i: nat, r: Request)
    returns (acts: seq<Action>, t: State)
    requires Run(Init(files, requests), past, s) && s.owner.Free?
    requires i < |requests| && |Of(s.acquired, i)| < |requests[i]| && requests[i][|Of(s.acquired, i)|] == r
    ensures Run(Init(files, requests), acts, t) && t.acquired == s.acquired + [(i, r)]
    ensures Shaped(t) && (if AllFit(files, t.acquired) then t.owner.Free? else Overflowing(t))
  {
    ReachableFitting(files, requests, past, s);
    RunKeepsOrder(requests, Init(files, requests), past, s);
    var a := Move(i);
    NextTakes(files, requests, s, i, r);
    RunSnoc(Init(files, requests), past, s, a);
    acts, t := HolderEnds(files, Init(files, requests), past + [a], Do(s, a));
    HolderEnded(files, t);
  }

  lemma LogNextServed(files: Files, requests: seq<seq<Request>>, past: seq<Action>, s: State, log: seq<(nat, Request)>)
    returns (acts: seq<Action>, t: State)
    requires Interleaves(requests, log) && log != []
    requires Run(Init(files, requests), past, s) && s.owner.Free? && s.acquired == log[..|log| - 1]
    ensures Run(Init(files, requests), acts, t) && t.acquired == log
    ensures Shaped(t) && (if AllFit(files, log) then t.owner.Free? else Overflowing(t))
  {
    var last := log[|log| - 1];
    InterleavesFront(requests, log);
    acts, t := NextServed(files, requests, past, s, last.0, last.1);
    assert log == s.acquired + [last];
  }

  /** Any interleaving can happen in that order, as long as its requests but the last fit. */
  lemma {:induction false} Reaches(files: Files, requests: seq<seq<Request>>, log: seq<(nat, Request)>)
    returns (acts: seq<Action>, s: State)
    requires Interleaves(requests, log) && (log != [] ==> AllFit(files, log[..|log| - 1]))
    ensures Run(Init(files, requests), acts, s) && s.acquired == log
    ensures Shaped(s) && (if AllFit(files, log) then s.owner.Free? else Overflowing(s))
    decreases |log|
  {
    if log == [] {
      acts, s := [], Init(files, requests);
    } else {
      InterleavesFront(requests, log);
      var past, u := Reaches(files, requests, log[..|log| - 1]);
      acts, s := LogNextServed(files, requests, past, u, log);
    }
  }

  /** The part of an interleaving up to the first request that does not fit. */
  lemma {:induction false} FirstTooLong(files: Files, requests: seq<seq<Request>>, log: seq<(nat, Request)>)
    returns (first: seq<(nat, Request)>)
    requires Interleaves(requests, log) && !AllFit(files, log)
    ensures Interleaves(requests, first) && !AllFit(files, first)
    ensures first != [] && AllFit(files, first[..|first| - 1])
    decreases |log|
  {
    var n := |log| - 1;
    InterleavesFront(requests, log);
    if AllFit(files, log[..n]) {
      first := log;
    } else {
      first := FirstTooLong(files, requests, log[..n]);
    }
  }

  ghost predicate Done(s: State) {
    s.owner.Free? && forall i :: 0 <= i < |s.todo| ==> s.todo[i] == []
  }

  /** A run that has not finished and that nothing can continue. */
  ghost predicate StuckRun(files: Files, requests: seq<seq<Request>>, acts: seq<Action>, s: State) {
    && Run(Init(files, requests), acts, s) && !Done(s) && Shaped(s)
    && forall a: Action :: !Enabled(s, a)
  }

  lemma StuckOverflows(files: Files, requests: seq<seq<Request>>, acts: seq<Action>, s: State)
    requires ValidRequests(requests) && StuckRun(files, requests, acts, s)
    ensures Good(files, s) && Overflowing(s)
  {
    ReachableFitting(files, requests, acts, s);
    if s.owner.Held? {
      assert Inside(s.pcs[s.owner.i]);
    } else {
      var i :| 0 <= i < |s.todo| && s.todo[i] != [];
    }
    SomeClientMoves(files, requests, acts, s);
  }

  /** A run that nothing can continue is done if and only if every request it took fits. */
  lemma StoppedIsDone(files: Files, requests: seq<seq<Request>>, acts: seq<Action>, s: State)
    requires ValidRequests(requests) && Run(Init(files, requests), acts, s)
    requires Shaped(s) && forall a: Action :: !Enabled(s, a)
    ensures Done(s) <==> AllFit(files, s.acquired)
  {
    ReachableFitting(files, requests, acts, s);
    if !Done(s) {
      StuckOverflows(files, requests, acts, s);
    }
    if s.acquired != [] {
      HolderEnded(files, s);
    }
  }

  lemma AcquiredInterleaves(requests: seq<seq<Request>>, s: State)
    requires InOrder(requests, s)
    ensures Interleaves(requests, s.acquired)
  {
    forall i | 0 <= i < |requests|
      ensures Of(s.acquired, i) <= requests[i]
    {
      assert Of(s.acquired, i) + s.todo[i] == requests[i];
    }
  }

  /** Some run gets stuck before all requests are done if and only if some interleaving of the
      requests, done one by one, comes to replace a line of a file of more than 1000 rows. */
  lemma StuckExactlyWhenTooLong(files: Files, requests: seq<seq<Request>>)
    requires ValidRequests(requests)
    ensures (exists acts, s :: StuckRun(files, requests, acts, s))
            <==> exists log :: Interleaves(requests, log) && !AllFit(files, log)
  {
    forall acts, s | StuckRun(files, requests, acts, s)
      ensures Interleaves(requests, s.acquired) && !AllFit(files, s.acquired)
    {
      StuckOverflows(files, requests, acts, s);
      ReachableFitting(files, requests, acts, s);
      RunKeepsOrder(requests, Init(files, requests), acts, s);
      AcquiredInterleaves(requests, s);
      HolderEnded(files, s);
    }
    forall log | Interleaves(requests, log) && !AllFit(files, log)
      ensures exists acts, s :: StuckRun(files, requests, acts, s)
    {
      var first := FirstTooLong(files, requests, log);
      var acts, s := Reaches(files, requests, first);
      ReachableFitting(files, requests, acts, s);
      OverflowStops(s);
      assert StuckRun(files, requests, acts, s);
    }
  }
  /** A file of 1001 empty lines, and one request to replace the first. */
  lemma OverflowExample() returns (files: Files, requests: seq<seq<Request>>, acts: seq<Action>, s: State)
    ensures ValidRequests(requests) && requests == [[Request("f", 1, [NEWLINE])]]
    ensures "f" in files && |Split(files["f"])| == 1001
    ensures StuckRun(files, requests, acts, s) && Overflowing(s)
  {
    var rows: seq<seq<Byte>> := seq(1001, _ => [NEWLINE]);
    SplitComplete(rows);
    var r := Request("f", 1, [NEWLINE]);
    var log: seq<(nat, Request)> := [(0, r)];
    files, requests := map["f" := Concat(rows)], [[r]];
    assert log[..0] == [] && TooLong(Serial(files, log[..0]), r);
    assert Of(log, 0) == [r];
    acts, s := Reaches(files, requests, log);
    ReachableFitting(files, requests, acts, s);
    OverflowStops(s);
  }

  // Appends.

  lemma {:induction false} AppendsFit(files: Files, log: seq<(nat, Request)>)
    requires forall k :: 0 <= k < |log| ==> log[k].1.line == 0
    ensures AllFit(files, log)
  {
    if log != [] {
      AppendsFit(files, log[..|log| - 1]);
    }
  }

  ghost predicate AppendsTo(name: string, r: Request) {
    r.name == name && r.line == 0
  }

  lemma AcquiredAppends(requests: seq<seq<Request>>, s: State, name: string)
    requires InOrder(requests, s)
    requires forall i, k :: 0 <= i < |requests| && 0 <= k < |requests[i]| ==> AppendsTo(name, requests[i][k])
    ensures forall k :: 0 <= k < |s.acquired| ==> AppendsTo(name, s.acquired[k].1)
  {
    forall k | 0 <= k < |s.acquired|
      ensures AppendsTo(name, s.acquired[k].1)
    {
      InItsOrder(s.acquired, k);
      var i := s.acquired[k].0;
      assert s.acquired[k].1 in Of(s.acquired, i) + s.todo[i];
    }
  }

  /** Over every run of clients that only append to one file: whenever the mutex is free the file is
      its old content and then all texts of the requests taken, once each; and when nothing can
      continue the run, all requests have been taken, every client's in the order it sent them. */
  lemma ConcurrentAppends(files: Files, requests: seq<seq<Request>>, acts: seq<Action>, s: State, name: string)
    requires ValidRequests(requests) && Run(Init(files, requests), acts, s)
    requires forall i, k :: 0 <= i < |requests| && 0 <= k < |requests[i]| ==> AppendsTo(name, requests[i][k])
    ensures Shaped(s)
    ensures s.owner.Free? ==> Content(s.files, name) == Content(files, name) + Texts(s.acquired)
    ensures (forall a: Action :: !Enabled(s, a)) ==>
              s.owner.Free? && forall i :: 0 <= i < |requests| ==> Of(s.acquired, i) == requests[i]
  {
    RunLowers(Init(files, requests), acts, s);
    RunKeepsOrder(requests, Init(files, requests), acts, s);
    AcquiredAppends(requests, s, name);
    AppendsAllKept(files, name, s.acquired);
    if s.owner.Free? {
      Serialisable(files, requests, acts, s);
    }
    if forall a: Action :: !Enabled(s, a) {
      AppendsFit(files, s.acquired);
      StoppedIsDone(files, requests, acts, s);
      forall i | 0 <= i < |requests|
        ensures Of(s.acquired, i) == requests[i]
      {
        assert Of(s.acquired, i) + [] == Of(s.acquired, i);
      }
    }
  }
}
