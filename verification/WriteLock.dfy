/** The mutex around `writeT` in HW4/biboServer.c: clients issue `writeT` requests, every
    library call of the branch is an action of its own, and buffered output reaches the file
    at any moment up to `fclose`. */
module WriteLock {
  import opened Posix
  import opened LineStore

  datatype Request = Request(name: string, line: nat, text: seq<Byte>)

  /** The text is a nonempty C string, and one that replaces a row fits it. */
  ghost predicate ValidRequest(r: Request) {
    NUL !in r.text && 1 <= |r.text| && (r.line > 0 ==> |r.text| <= 255)
  }

  ghost predicate ValidRequests(requests: seq<seq<Request>>) {
    forall i, k :: 0 <= i < |requests| && 0 <= k < |requests[i]| ==> ValidRequest(requests[i][k])
  }

  type Files = map<string, seq<Byte>>

  /** Where a client's thread is. `rows` are the lines read so far or to be written, `buf` is
      output that `fprintf` has taken but the file does not show yet. Lines of HW4/biboServer.c. */
  datatype Pc =
    | Ready                                                  // 109 lock
    | Exists(r: Request)                                     // 110-111 fopen "r"
    | Create(r: Request)                                     // 112 fopen "w"
    | Text(r: Request)                                       // 113 fprintf
    | Reopen(r: Request)                                     // 116-118 fclose, fopen "r+"
    | Append(r: Request)                                     // 119-120 fseek, fprintf
    | Load(r: Request, rows: seq<seq<Byte>>, rest: seq<Byte>) // 125 fgets
    | Decide(r: Request, rows: seq<seq<Byte>>)               // 128-129
    | Truncate(r: Request, rows: seq<seq<Byte>>)             // 130-131 fclose, fopen "w"
    | Rows(r: Request, rows: seq<seq<Byte>>, buf: seq<Byte>) // 132-133 fprintf
    | Close(r: Request, buf: seq<Byte>)                      // 141 fclose
    | Unlock(r: Request)                                     // 142

  datatype Owner = Free | Held(i: nat)

  /** `todo[i]` is what client `i` has still to send; `acquired` is a history variable: who took
      the mutex for which request, in that order. */
  datatype State = State(files: Files, owner: Owner, pcs: seq<Pc>, todo: seq<seq<Request>>,
                         acquired: seq<(nat, Request)>)

  /** A client's thread moves, or `n` buffered bytes of its open file reach the file. */
  datatype Action = Move(i: nat) | Flush(i: nat, n: nat)

  function Init(files: Files, requests: seq<seq<Request>>): State {
    State(files, Free, seq(|requests|, _ => Ready), requests, [])
  }

  predicate Shaped(s: State) {
    |s.pcs| == |s.todo|
  }

  function Buffered(pc: Pc): seq<Byte> {
    match pc
    case Rows(_, _, buf) => buf
    case Close(_, buf) => buf
    case _ => []
  }

  predicate Enabled(s: State, a: Action)
    requires Shaped(s)
  {
    a.i < |s.pcs| &&
    match a
    case Move(i) =>
      (match s.pcs[i]
       case Ready => s.owner.Free? && s.todo[i] != []
       // the array of rows must not overflow
       case Load(_, rows, rest) => rest == [] || |rows| < MAX_ROWS
       case _ => true)
    case Flush(i, n) => 0 < n <= |Buffered(s.pcs[i])|
  }

  function Content(files: Files, name: string): seq<Byte> {
    if name in files then files[name] else []
  }

  function MoveStep(s: State, i: nat): State
    requires Shaped(s) && Enabled(s, Move(i))
  {
    match s.pcs[i]
    case Ready =>
      var r := s.todo[i][0];
      s.(owner := Held(i), pcs := s.pcs[i := Exists(r)], todo := s.todo[i := s.todo[i][1..]],
         acquired := s.acquired + [(i, r)])
    case Exists(r) => s.(pcs := s.pcs[i := if r.name in s.files then Reopen(r) else Create(r)])
    case Create(r) => s.(files := s.files[r.name := []], pcs := s.pcs[i := Text(r)])
    case Text(r) => s.(pcs := s.pcs[i := Close(r, r.text)])
    case Reopen(r) =>
      s.(pcs := s.pcs[i := if r.line == 0 then Append(r) else Load(r, [], Content(s.files, r.name))])
    case Append(r) => s.(pcs := s.pcs[i := Close(r, r.text)])
    case Load(r, rows, rest) =>
      if rest == [] then s.(pcs := s.pcs[i := Decide(r, rows)])
      else
        var n := Take(rest, 0);
        s.(pcs := s.pcs[i := Load(r, rows + [rest[..n]], rest[n..])])
    case Decide(r, rows) =>
      if 1 <= r.line <= |rows|
      then s.(pcs := s.pcs[i := Truncate(r, rows[r.line - 1 := r.text])])
      else s.(pcs := s.pcs[i := Close(r, [])])
    case Truncate(r, rows) => s.(files := s.files[r.name := []], pcs := s.pcs[i := Rows(r, rows, [])])
    case Rows(r, rows, buf) =>
      if rows == [] then s.(pcs := s.pcs[i := Close(r, buf)])
      else s.(pcs := s.pcs[i := Rows(r, rows[1..], buf + CString(rows[0]))])
    case Close(r, buf) =>
      s.(files := s.files[r.name := Content(s.files, r.name) + buf], pcs := s.pcs[i := Unlock(r)])
    case Unlock(r) => s.(owner := Free, pcs := s.pcs[i := Ready])
  }

  function FlushStep(s: State, i: nat, n: nat): State
    requires Shaped(s) && Enabled(s, Flush(i, n))
  {
    var pc := s.pcs[i];
    var buf := Buffered(pc);
    s.(files := s.files[pc.r.name := Content(s.files, pc.r.name) + buf[..n]],
       pcs := s.pcs[i := pc.(buf := buf[n..])])
  }

  function Do(s: State, a: Action): (t: State)
    requires Shaped(s) && Enabled(s, a)
    ensures Shaped(t)
  {
    match a
    case Move(i) => MoveStep(s, i)
    case Flush(i, n) => FlushStep(s, i, n)
  }

  predicate Run(s: State, acts: seq<Action>, t: State)
    requires Shaped(s)
    decreases |acts|
  {
    if acts == [] then s == t else Enabled(s, acts[0]) && Run(Do(s, acts[0]), acts[1..], t)
  }

  // One request after the other.

  function Apply(files: Files, r: Request): Files {
    Written(files, r.name, r.line, r.text)
  }

  function Serial(files: Files, log: seq<(nat, Request)>): Files {
    if log == [] then files
    else Apply(Serial(files, log[..|log| - 1]), log[|log| - 1].1)
  }

  // The invariant.

  ghost predicate Inside(pc: Pc) {
    !pc.Ready?
  }

  /** What the mutex holder's position says, `before` being the files when it took the mutex. */
  ghost predicate Progress(before: Files, files: Files, pc: Pc) {
    match pc
    case Ready => true
    case Exists(r) => files == before
    case Create(r) => files == before && r.name !in before
    case Text(r) => files == before[r.name := []] && r.name !in before
    case Reopen(r) => files == before && r.name in before
    case Append(r) => files == before && r.name in before && r.line == 0
    case Load(r, rows, rest) =>
      files == before && r.name in before && r.line > 0 && rows + Split(rest) == Split(before[r.name])
    case Decide(r, rows) =>
      files == before && r.name in before && r.line > 0 && rows == Split(before[r.name])
    case Truncate(r, rows) =>
      files == before && r.name in before && Apply(before, r) == before[r.name := Print(rows)]
    case Rows(r, rows, buf) =>
      r.name in files && Apply(before, r) == files[r.name := files[r.name] + buf + Print(rows)]
    case Close(r, buf) =>
      r.name in files && Apply(before, r) == files[r.name := files[r.name] + buf]
    case Unlock(r) => files == Apply(before, r)
  }

  /** The files when the present holder, if any, took the mutex. */
  ghost function Before(files0: Files, s: State): Files
    requires s.owner.Held? ==> s.acquired != []
  {
    Serial(files0, if s.owner.Held? then s.acquired[..|s.acquired| - 1] else s.acquired)
  }

  /** A thread is between lock and unlock exactly when it holds the mutex. */
  ghost predicate LockInv(s: State) {
    && Shaped(s)
    && (forall i :: 0 <= i < |s.pcs| ==> (Inside(s.pcs[i]) <==> s.owner == Held(i)))
    && (s.owner.Held? ==> s.owner.i < |s.pcs|)
  }

  ghost predicate Good(files0: Files, s: State) {
    && LockInv(s)
    && (s.owner.Held? ==>
          && s.acquired != []
          && !s.pcs[s.owner.i].Ready? && s.acquired[|s.acquired| - 1] == (s.owner.i, s.pcs[s.owner.i].r)
          && Progress(Before(files0, s), s.files, s.pcs[s.owner.i]))
    && (s.owner.Free? ==> s.files == Serial(files0, s.acquired))
  }

  lemma InitGood(files: Files, requests: seq<seq<Request>>)
    ensures Good(files, Init(files, requests))
  {
  }

  /** Is the holder still finding out what to write? */
  predicate Reading(pc: Pc) {
    pc.Exists? || pc.Create? || pc.Text? || pc.Reopen? || pc.Append? || pc.Load?
  }

  /** One library call keeps the holder on its way to the serial result. */
  lemma ReadingKeepsProgress(before: Files, s: State, i: nat)
    requires Shaped(s) && Enabled(s, Move(i)) && Reading(s.pcs[i]) && Progress(before, s.files, s.pcs[i])
    ensures var t := MoveStep(s, i);
            Inside(t.pcs[i]) && Progress(before, t.files, t.pcs[i]) && t.pcs[i].r == s.pcs[i].r
  {
    match s.pcs[i] {
      case Text(r) =>
        assert [] + r.text == r.text;
      case Load(r, rows, rest) =>
        if rest != [] {
          var n := Take(rest, 0);
          assert rows + ([rest[..n]] + Split(rest[n..])) == (rows + [rest[..n]]) + Split(rest[n..]);
        }
      case _ =>
    }
  }

  lemma DecideKeeps(files: Files, r: Request, rows: seq<seq<Byte>>)
    requires Progress(files, files, Decide(r, rows))
    ensures if r.line <= |rows| then Progress(files, files, Truncate(r, rows[r.line - 1 := r.text]))
            else Progress(files, files, Close(r, []))
  {
    assert files[r.name] + [] == files[r.name];
    assert files[r.name := files[r.name]] == files;
  }

  lemma TruncateKeeps(before: Files, r: Request, rows: seq<seq<Byte>>)
    requires Progress(before, before, Truncate(r, rows))
    ensures Progress(before, before[r.name := []], Rows(r, rows, []))
  {
    assert [] + [] + Print(rows) == Print(rows);
  }

  lemma RowsKeep(before: Files, files: Files, r: Request, rows: seq<seq<Byte>>, buf: seq<Byte>)
    requires Progress(before, files, Rows(r, rows, buf))
    ensures if rows == [] then Progress(before, files, Close(r, buf))
            else Progress(before, files, Rows(r, rows[1..], buf + CString(rows[0])))
  {
    var f := files[r.name];
    if rows == [] {
      assert f + buf + [] == f + buf;
    } else {
      var p, z := CString(rows[0]), Print(rows[1..]);
      assert f + buf + (p + z) == f + (buf + p) + z;
    }
  }

  lemma WritingKeepsProgress(before: Files, s: State, i: nat)
    requires Shaped(s) && Enabled(s, Move(i)) && Inside(s.pcs[i]) && !Reading(s.pcs[i])
    requires Progress(before, s.files, s.pcs[i])
    ensures var t := MoveStep(s, i);
            if s.pcs[i].Unlock? then t.files == Apply(before, s.pcs[i].r)
            else Inside(t.pcs[i]) && Progress(before, t.files, t.pcs[i]) && t.pcs[i].r == s.pcs[i].r
  {
    match s.pcs[i] {
      case Decide(r, rows) => DecideKeeps(before, r, rows);
      case Truncate(r, rows) => TruncateKeeps(before, r, rows);
      case Rows(r, rows, buf) => RowsKeep(before, s.files, r, rows, buf);
      case _ =>
    }
  }

  /** Output reaching the file early does not change where it is going. */
  lemma FlushKeepsProgress(before: Files, s: State, i: nat, n: nat)
    requires Shaped(s) && Enabled(s, Flush(i, n)) && Inside(s.pcs[i]) && Progress(before, s.files, s.pcs[i])
    ensures var t := FlushStep(s, i, n);
            Inside(t.pcs[i]) && Progress(before, t.files, t.pcs[i]) && t.pcs[i].r == s.pcs[i].r
  {
    var buf, f := Buffered(s.pcs[i]), s.files[s.pcs[i].r.name];
    assert (f + buf[..n]) + buf[n..] == f + buf;
  }

  lemma StepKeepsLock(s: State, a: Action)
    requires LockInv(s) && Enabled(s, a)
    ensures LockInv(Do(s, a))
  {
  }

  /** Taking the mutex: the request becomes the last of the log. */
  lemma LockKeepsGood(files0: Files, s: State, i: nat)
    requires Good(files0, s) && Enabled(s, Move(i)) && s.pcs[i].Ready?
    ensures Good(files0, MoveStep(s, i))
  {
  }

  /** Actions of the holder. */
  lemma HolderKeepsGood(files0: Files, s: State, a: Action)
    requires Good(files0, s) && Enabled(s, a) && s.owner == Held(a.i)
    ensures Good(files0, Do(s, a))
  {
    StepKeepsLock(s, a);
    var before := Before(files0, s);
    if a.Flush? {
      FlushKeepsProgress(before, s, a.i, a.n);
    } else if Reading(s.pcs[a.i]) {
      ReadingKeepsProgress(before, s, a.i);
    } else {
      WritingKeepsProgress(before, s, a.i);
    }
  }

  lemma StepKeepsGood(files0: Files, s: State, a: Action)
    requires Good(files0, s) && Enabled(s, a)
    ensures Good(files0, Do(s, a))
  {
    if a.Move? && s.pcs[a.i].Ready? {
      LockKeepsGood(files0, s, a.i);
    } else {
      HolderKeepsGood(files0, s, a);
    }
  }

  lemma {:induction false} RunKeepsGood(files0: Files, s: State, acts: seq<Action>, t: State)
    requires Good(files0, s) && Run(s, acts, t)
    ensures Good(files0, t)
    decreases |acts|
  {
    if acts != [] {
      StepKeepsGood(files0, s, acts[0]);
      RunKeepsGood(files0, Do(s, acts[0]), acts[1..], t);
    }
  }

  // Program order.

  /** The requests of client `i` in the acquisition log. */
  function Of(log: seq<(nat, Request)>, i: nat): seq<Request> {
    if log == [] then []
    else
      var n := |log| - 1;
      Of(log[..n], i) + (if log[n].0 == i then [log[n].1] else [])
  }

  ghost predicate InOrder(requests: seq<seq<Request>>, s: State) {
    && Shaped(s)
    && |s.todo| == |requests|
    && (forall i :: 0 <= i < |requests| ==> Of(s.acquired, i) + s.todo[i] == requests[i])
    && (forall k :: 0 <= k < |s.acquired| ==> s.acquired[k].0 < |requests|)
  }

  lemma StepKeepsOrder(requests: seq<seq<Request>>, s: State, a: Action)
    requires InOrder(requests, s) && Enabled(s, a)
    ensures InOrder(requests, Do(s, a))
  {
    var t := Do(s, a);
    if a.Move? && s.pcs[a.i].Ready? {
      assert t.acquired[..|s.acquired|] == s.acquired;
      forall k | 0 <= k < |requests|
        ensures Of(t.acquired, k) + t.todo[k] == requests[k]
      {
        if k == a.i {
          assert s.todo[k] == [s.todo[k][0]] + t.todo[k];
          assert Of(s.acquired, k) + ([s.todo[k][0]] + t.todo[k]) == Of(t.acquired, k) + t.todo[k];
        } else {
          assert Of(t.acquired, k) == Of(s.acquired, k);
        }
      }
    }
  }

  lemma {:induction false} RunKeepsOrder(requests: seq<seq<Request>>, s: State, acts: seq<Action>, t: State)
    requires InOrder(requests, s) && Run(s, acts, t)
    ensures InOrder(requests, t)
    decreases |acts|
  {
    if acts != [] {
      StepKeepsOrder(requests, s, acts[0]);
      RunKeepsOrder(requests, Do(s, acts[0]), acts[1..], t);
    }
  }

  // Main results.

  /** Serialisability: in every interleaving of any number of clients, whenever the mutex is free
      every file is what the writes give when done one by one in lock-acquisition order, and that
      order contains each client's requests in the order they were sent. */
  lemma Serialisable(files: Files, requests: seq<seq<Request>>, acts: seq<Action>, s: State)
    requires ValidRequests(requests)
    requires Run(Init(files, requests), acts, s) && s.owner.Free?
    ensures s.files == Serial(files, s.acquired)
    ensures |s.todo| == |requests|
    ensures forall i :: 0 <= i < |requests| ==> Of(s.acquired, i) + s.todo[i] == requests[i]
  {
    InitGood(files, requests);
    RunKeepsGood(files, Init(files, requests), acts, s);
    RunKeepsOrder(requests, Init(files, requests), acts, s);
  }

  /** From one moment with the mutex free to a later one, between which one request took it: that
      request is the next of its client, and the files change by exactly that one write. */
  lemma OneWriteAtATime(files: Files, requests: seq<seq<Request>>, past: seq<Action>, s: State,
                        acts: seq<Action>, t: State, i: nat, r: Request)
    requires ValidRequests(requests) && Run(Init(files, requests), past, s) && s.owner.Free?
    requires Shaped(s) && Run(s, acts, t) && t.owner.Free? && t.acquired == s.acquired + [(i, r)]
    ensures i < |s.todo| == |t.todo| && s.todo[i] == [r] + t.todo[i]
    ensures forall k :: 0 <= k < |s.todo| && k != i ==> t.todo[k] == s.todo[k]
    ensures t.files == Written(s.files, r.name, r.line, r.text)
  {
    InitGood(files, requests);
    RunKeepsGood(files, Init(files, requests), past, s);
    RunKeepsGood(files, s, acts, t);
    assert t.acquired[..|s.acquired|] == s.acquired;
    RunKeepsOrder(requests, Init(files, requests), past, s);
    RunKeepsOrder(requests, s, acts, t);
    TodoOfOne(requests, s, t, i, r);
  }

  lemma TodoOfOne(requests: seq<seq<Request>>, s: State, t: State, i: nat, r: Request)
    requires InOrder(requests, s) && InOrder(requests, t) && t.acquired == s.acquired + [(i, r)]
    ensures i < |s.todo| == |t.todo| && s.todo[i] == [r] + t.todo[i]
    ensures forall k :: 0 <= k < |s.todo| && k != i ==> t.todo[k] == s.todo[k]
  {
    assert t.acquired[..|s.acquired|] == s.acquired && t.acquired[|s.acquired|] == (i, r);
    forall k | 0 <= k < |s.todo|
      ensures s.todo[k] == (if k == i then [r] else []) + t.todo[k]
    {
      SameRest(Of(s.acquired, k), s.todo[k], if k == i then [r] else [], t.todo[k]);
    }
    assert forall k :: 0 <= k < |t.todo| ==> [] + t.todo[k] == t.todo[k];
  }

  lemma SameRest<T>(a: seq<T>, b: seq<T>, x: seq<T>, z: seq<T>)
    requires a + b == (a + x) + z
    ensures b == x + z
  {
    assert b == (a + b)[|a|..] && x + z == ((a + x) + z)[|a|..];
  }

  /** Only the mutex holder ever has a file open, so no write can slip between another client's
      reading and rewriting. */
  lemma OneWriter(files: Files, requests: seq<seq<Request>>, acts: seq<Action>, s: State, i: nat, k: nat)
    requires ValidRequests(requests)
    requires Run(Init(files, requests), acts, s)
    requires i < |s.pcs| && k < |s.pcs| && Inside(s.pcs[i]) && Inside(s.pcs[k])
    ensures i == k
  {
    InitGood(files, requests);
    RunKeepsGood(files, Init(files, requests), acts, s);
  }

  ghost predicate SameFile(a: Files, b: Files, name: string) {
    (name in a <==> name in b) && (name in a ==> a[name] == b[name])
  }

  lemma ProgressKeepsOthers(before: Files, files: Files, pc: Pc, name: string)
    requires Progress(before, files, pc) && Inside(pc) && name != pc.r.name
    ensures SameFile(files, before, name)
  {
    if pc.Rows? || pc.Close? {
      assert SameFile(Apply(before, pc.r), before, name);
      assert SameFile(Apply(before, pc.r), files, name);
    }
  }

  /** While a write is under way every other file already has its serial content. */
  lemma OtherFilesUntouched(files: Files, requests: seq<seq<Request>>, acts: seq<Action>, s: State, name: string)
    requires ValidRequests(requests)
    requires Run(Init(files, requests), acts, s) && s.owner.Held?
    ensures s.acquired != []
    ensures name != s.acquired[|s.acquired| - 1].1.name ==>
              SameFile(s.files, Serial(files, s.acquired[..|s.acquired| - 1]), name)
  {
    InitGood(files, requests);
    RunKeepsGood(files, Init(files, requests), acts, s);
    if name != s.acquired[|s.acquired| - 1].1.name {
      ProgressKeepsOthers(Before(files, s), s.files, s.pcs[s.owner.i], name);
    }
  }

  function Texts(log: seq<(nat, Request)>): seq<Byte> {
    if log == [] then [] else Texts(log[..|log| - 1]) + log[|log| - 1].1.text
  }

  /** Appends to one file, done one by one, all end up in it, once each. */
  lemma {:induction false} AppendsAllKept(files: Files, name: string, log: seq<(nat, Request)>)
    requires forall k :: 0 <= k < |log| ==> log[k].1.name == name && log[k].1.line == 0
    ensures Content(Serial(files, log), name) == Content(files, name) + Texts(log)
    ensures log != [] ==> name in Serial(files, log)
  {
    if log == [] {
      assert Content(files, name) + [] == Content(files, name);
    } else {
      var n := |log| - 1;
      var before := Serial(files, log[..n]);
      AppendsAllKept(files, name, log[..n]);
      if name !in before {
        assert n == 0 && Texts(log[..n]) == [];
        assert Content(files, name) == [];
      }
      assert log[n].1.name == name && log[n].1.line == 0;
      var t := log[n].1.text;
      assert Content(Serial(files, log), name) == Content(before, name) + t by {
        assert name !in before ==> [] + t == t;
      }
      assert (Content(files, name) + Texts(log[..n])) + t == Content(files, name) + (Texts(log[..n]) + t);
    }
  }

  lemma {:induction false} InItsOrder(log: seq<(nat, Request)>, k: nat)
    requires k < |log|
    ensures log[k].1 in Of(log, log[k].0)
  {
    var n := |log| - 1;
    if k < n {
      InItsOrder(log[..n], k);
    }
  }

  /** The holder has filled the array of rows and there is more to read. */
  predicate Overflowing(s: State)
    requires Shaped(s)
  {
    && s.owner.Held? && s.owner.i < |s.pcs| && s.pcs[s.owner.i].Load?
    && |s.pcs[s.owner.i].rows| >= MAX_ROWS && s.pcs[s.owner.i].rest != []
  }

  /** Does the request replace a line of a file whose rows do not fit the array? */
  predicate TooLong(files: Files, r: Request) {
    r.line > 0 && r.name in files && |Split(files[r.name])| > 1000
  }

  /** The request that took the mutex last. */
  function Last(s: State): Request
    requires s.acquired != []
  {
    s.acquired[|s.acquired| - 1].1
  }

  /** Only a file of more than 1000 rows leads there. */
  lemma OverflowsOnlyLongFiles(files: Files, s: State)
    requires Good(files, s) && Overflowing(s)
    ensures TooLong(Before(files, s), Last(s))
  {
    var pc := s.pcs[s.owner.i];
    assert |pc.rows + Split(pc.rest)| > MAX_ROWS;
  }

  lemma OverflowStops(s: State)
    requires LockInv(s) && Overflowing(s)
    ensures forall a: Action :: !Enabled(s, a)
  {
    forall a: Action | a.i < |s.pcs|
      ensures !Enabled(s, a)
    {
      assert a.i == s.owner.i || s.pcs[a.i].Ready?;
    }
  }

  /** While a client has work some client can move, unless the holder is about to overflow the array
      of rows; then the file it rewrites has more than 1000 rows. */
  lemma SomeClientMoves(files: Files, requests: seq<seq<Request>>, acts: seq<Action>, s: State)
    requires ValidRequests(requests) && Run(Init(files, requests), acts, s)
    requires exists k :: 0 <= k < |s.pcs| && (Inside(s.pcs[k]) || (k < |s.todo| && s.todo[k] != []))
    ensures Shaped(s)
    ensures (exists i: nat :: Enabled(s, Move(i))) <==> !Overflowing(s)
    ensures Overflowing(s) ==> s.acquired != [] && TooLong(Before(files, s), Last(s))
  {
    InitGood(files, requests);
    RunKeepsGood(files, Init(files, requests), acts, s);
    if Overflowing(s) {
      OverflowsOnlyLongFiles(files, s);
      OverflowStops(s);
    } else if s.owner.Held? {
      assert Enabled(s, Move(s.owner.i));
    } else {
      var k :| 0 <= k < |s.pcs| && (Inside(s.pcs[k]) || (k < |s.todo| && s.todo[k] != []));
      assert Enabled(s, Move(k));
    }
  }
}
