/** HW 5/pCp.c as a transition system: one producer and any number of consumers, one action
    per C statement that touches shared state, explicit mutex ownership, two condition
    variables, the descriptor table and the file contents. */
module CopyModel {
  import CopyLoop
  import opened Options
  import opened Posix
  import opened RingBuffer

  // Inputs of a run.

  /** Buffer capacity, number of consumer threads, the two directories, the names `readdir`
      returns in order, and for every path the bytes that `read` yields before it first
      returns 0 or -1. */
  datatype Config = Config(cap: nat, consumers: nat, srcDir: string, dstDir: string,
                           names: seq<string>, files: map<string, seq<Byte>>)

  const PATH_BUFFER := 512

  /** `snprintf(buf, 512, "%s/%s", dir, name)`. */
  function JoinPath(dir: string, name: string): string {
    var full := dir + "/" + name;
    if |full| < PATH_BUFFER then full else full[..PATH_BUFFER - 1]
  }

  datatype Job = Job(src: string, dst: string)

  function JobOf(c: Config, name: string): Job {
    Job(JoinPath(c.srcDir, name), JoinPath(c.dstDir, name))
  }

  predicate IsDot(name: string) {
    name == "." || name == ".."
  }

  /** The copies a list of directory entries asks for. */
  function Jobs(c: Config, names: seq<string>): seq<Job> {
    if names == [] then []
    else (if IsDot(names[0]) then [] else [JobOf(c, names[0])]) + Jobs(c, names[1..])
  }

  // State.

  datatype Thread = Producer | Consumer(i: nat)

  /** One buffer slot: two descriptors and two path strings. */
  datatype Slot = Slot(sfd: int, dfd: int, job: Job)

  /** An open file description: what it refers to and its offset. */
  datatype Handle = Handle(path: string, off: nat)

  /** Descriptor table, file contents, and the numbers of successful `open`s and `close`s. */
  datatype System = System(fds: map<int, Handle>, files: map<string, seq<Byte>>, opens: nat, closes: nat)

  /** What the mutex protects, with two history variables: `q`, the slots waiting, and `outs`,
      for every entry decided so far whether both opens succeeded. `log` is the sequence of
      `Copied file` lines. */
  datatype Shared = Shared(ring: Ring<Slot>, sys: System, q: seq<Slot>, outs: seq<bool>, log: seq<Job>)

  /** The fields of a slot in the order they are stored. */
  datatype Field = SourceFd | DestinationFd | SourceFile | DestinationFile

  function StoreField(slot: Slot, x: Slot, f: Field): Slot {
    match f
    case SourceFd => slot.(sfd := x.sfd)
    case DestinationFd => slot.(dfd := x.dfd)
    case SourceFile => slot.(job := slot.job.(src := x.job.src))
    case DestinationFile => slot.(job := slot.job.(dst := x.job.dst))
  }

  /** Where the producer is; the name says what it does next. Lines are those of pCp.c. */
  datatype ProducerPc =
    | PNext                                   // 138 readdir
    | PAcquire(job: Job)                      // 53 lock
    | PTest(job: Job)                         // 56 test the wait condition
    | PSleep(job: Job)                        // 57 blocked in wait
    | PReacquire(job: Job)                    // 57 woken, not yet holding the mutex
    | POpenSrc(job: Job)                      // 61
    | POpenDst(job: Job, sfd: int)            // 69
    | PCloseSrc(job: Job, sfd: int)           // 72 after a failed second open
    | PStore(x: Slot, f: Field)               // 78-81 one field of the slot
    | PAdvance(x: Slot)                       // 82
    | PCount(x: Slot)                         // 83
    | PSignal                                 // 85
    | PUnlock                                 // 64, 73, 86
    | PLast                                   // 152 lock
    | PSetDone                                // 153
    | PBroadcast                              // 154
    | PLastUnlock                             // 155
    | PExit

  datatype ConsumerPc =
    | CAcquire                                // 90 lock
    | CTest                                   // 93 test the wait condition
    | CSleep                                  // 94 blocked in wait
    | CReacquire                              // 94 woken, not yet holding the mutex
    | CCheck                                  // 98
    | CEarly                                  // 99 unlock and return
    | CFetch                                  // 104-105
    | CRead(sfd: int, dfd: int)               // 110 read
    | CWrite(sfd: int, dfd: int, buf: seq<Byte>) // 111 write
    | CCloseSrc(sfd: int, dfd: int)           // 115
    | CCloseDst(dfd: int)                     // 116
    | CPrint                                  // 117
    | CAdvance                                // 119
    | CCount                                  // 120
    | CSignal                                 // 122
    | CUnlock                                 // 123
    | CLoop                                   // 165 lock
    | CLoopTest                               // 166
    | CLeave                                  // 167 unlock and break
    | CAgain                                  // 170 unlock and loop
    | CExit

  datatype State = State(d: Shared, owner: Option<Thread>, p: ProducerPc, cs: seq<ConsumerPc>, todo: seq<string>)

  const NO_SLOT := Slot(0, 0, Job("", ""))

  /** `init_buffer` and the thread creation of `main`; the slots are zeroed static storage. */
  function Init(c: Config): State {
    State(Shared(Ring(0, 0, 0, false, seq(c.cap, _ => NO_SLOT)), System(map[], c.files, 0, 0), [], [], []),
          None, PNext, seq(c.consumers, _ => CAcquire), c.names)
  }

  // System calls.

  function OpenAt(s: System, fd: int, path: string): System {
    s.(fds := s.fds[fd := Handle(path, 0)], opens := s.opens + 1)
  }

  function Truncate(s: System, path: string): System {
    s.(files := s.files[path := []])
  }

  /** `close`: fails and changes nothing when the descriptor is not open. */
  function CloseFd(s: System, fd: int): System {
    if fd in s.fds then s.(fds := s.fds - {fd}, closes := s.closes + 1) else s
  }

  /** The bytes still to be read through a descriptor. */
  function Unread(s: System, fd: int): seq<Byte> {
    if fd in s.fds && s.fds[fd].path in s.files && s.fds[fd].off <= |s.files[s.fds[fd].path]|
    then s.files[s.fds[fd].path][s.fds[fd].off..] else []
  }

  function Seeked(s: System, fd: int, amount: nat): System {
    if fd in s.fds then s.(fds := s.fds[fd := s.fds[fd].(off := s.fds[fd].off + amount)]) else s
  }

  function WriteFd(s: System, fd: int, buf: seq<Byte>): System {
    if fd in s.fds && s.fds[fd].path in s.files
    then var h := s.fds[fd];
         Seeked(s.(files := s.files[h.path := WriteAt(s.files[h.path], h.off, buf)]), fd, |buf|)
    else s
  }

  // Actions.

  /** What the environment chooses: the descriptor `open` returns or its failure, how much a
      `read` delivers, which sleepers a signal releases. */
  datatype Choice = Nothing | Fd(fd: int) | Fails | Got(n: nat) | Wakes(who: set<nat>)

  datatype Action = Move(t: Thread, o: Choice) | Spurious(t: Thread)

  function Sleepers(cs: seq<ConsumerPc>): set<nat> {
    set i: nat | i < |cs| && cs[i].CSleep?
  }

  function Wake(cs: seq<ConsumerPc>, who: set<nat>): (r: seq<ConsumerPc>)
    ensures |r| == |cs|
  {
    seq(|cs|, i requires 0 <= i < |cs| => if i in who then CReacquire else cs[i])
  }

  predicate FreshFd(s: System, o: Choice) {
    o.Fd? && o.fd >= 0 && o.fd !in s.fds
  }

  predicate ProducerEnabled(s: State, o: Choice) {
    match s.p
    case PAcquire(_) | PReacquire(_) | PLast => s.owner.None? && o.Nothing?
    case PSleep(_) | PExit => false
    case POpenSrc(j) => o.Fails? || (FreshFd(s.d.sys, o) && j.src in s.d.sys.files)
    case POpenDst(_, _) => o.Fails? || FreshFd(s.d.sys, o)
    // pthread_cond_signal releases at least one of the blocked threads, if there are any
    case PSignal => o.Wakes? && o.who <= Sleepers(s.cs) && (Sleepers(s.cs) != {} ==> o.who != {})
    case _ => o.Nothing?
  }

  /** `read` returns 0 or -1 when nothing is left, else any positive count up to the request. */
  predicate ReadResult(s: System, fd: int, o: Choice) {
    && o.Got?
    && (if Unread(s, fd) == [] then o.n == 0 else 1 <= o.n <= |Unread(s, fd)| && o.n <= CopyLoop.CHUNK)
  }

  predicate ConsumerEnabled(s: State, i: nat, o: Choice)
    requires i < |s.cs|
  {
    match s.cs[i]
    case CAcquire | CReacquire | CLoop => s.owner.None? && o.Nothing?
    case CSleep | CExit => false
    case CRead(sfd, _) => ReadResult(s.d.sys, sfd, o)
    case _ => o.Nothing?
  }

  /** Can this action happen? A spurious wakeup can hit any sleeper. */
  predicate Enabled(s: State, a: Action) {
    match a
    case Move(Producer, o) => ProducerEnabled(s, o)
    case Move(Consumer(i), o) => i < |s.cs| && ConsumerEnabled(s, i, o)
    case Spurious(Producer) => s.p.PSleep?
    case Spurious(Consumer(i)) => i < |s.cs| && s.cs[i].CSleep?
  }

  function ProducerStep(c: Config, s: State, o: Choice): State
    requires ProducerEnabled(s, o) && WellFormed(s.d.ring)
  {
    var d := s.d;
    match s.p
    case PNext =>
      if s.todo == [] then s.(p := PLast)
      else if IsDot(s.todo[0]) then s.(todo := s.todo[1..])
      else s.(todo := s.todo[1..], p := PAcquire(JobOf(c, s.todo[0])))
    case PAcquire(j) => s.(owner := Some(Producer), p := PTest(j))
    case PReacquire(j) => s.(owner := Some(Producer), p := PTest(j))
    case PTest(j) =>
      if d.ring.count == |d.ring.slots| then s.(owner := None, p := PSleep(j)) else s.(p := POpenSrc(j))
    case POpenSrc(j) =>
      if o.Fails? then s.(d := d.(outs := d.outs + [false]), p := PUnlock)
      else s.(d := d.(sys := OpenAt(d.sys, o.fd, j.src)), p := POpenDst(j, o.fd))
    case POpenDst(j, sfd) =>
      if o.Fails? then s.(p := PCloseSrc(j, sfd))
      else s.(d := d.(sys := Truncate(OpenAt(d.sys, o.fd, j.dst), j.dst)), p := PStore(Slot(sfd, o.fd, j), SourceFd))
    case PCloseSrc(j, sfd) =>
      s.(d := d.(sys := CloseFd(d.sys, sfd), outs := d.outs + [false]), p := PUnlock)
    case PStore(x, f) =>
      s.(d := d.(ring := StoreSlot(d.ring, StoreField(d.ring.slots[d.ring.inn], x, f))),
         p := match f
              case SourceFd => PStore(x, DestinationFd)
              case DestinationFd => PStore(x, SourceFile)
              case SourceFile => PStore(x, DestinationFile)
              case DestinationFile => PAdvance(x))
    case PAdvance(x) => s.(d := d.(ring := AdvanceIn(d.ring)), p := PCount(x))
    case PCount(x) =>
      s.(d := d.(ring := d.ring.(count := d.ring.count + 1), q := d.q + [x], outs := d.outs + [true]), p := PSignal)
    case PSignal => s.(cs := Wake(s.cs, o.who), p := PUnlock)
    case PUnlock => s.(owner := None, p := PNext)
    case PLast => s.(owner := Some(Producer), p := PSetDone)
    case PSetDone => s.(d := d.(ring := d.ring.(done := true)), p := PBroadcast)
    case PBroadcast => s.(cs := Wake(s.cs, Sleepers(s.cs)), p := PLastUnlock)
    case PLastUnlock => s.(owner := None, p := PExit)
  }

  function ConsumerStep(s: State, i: nat, o: Choice): State
    requires i < |s.cs| && ConsumerEnabled(s, i, o) && WellFormed(s.d.ring)
  {
    var d := s.d;
    match s.cs[i]
    case CAcquire => s.(owner := Some(Consumer(i)), cs := s.cs[i := CTest])
    case CReacquire => s.(owner := Some(Consumer(i)), cs := s.cs[i := CTest])
    case CTest =>
      if d.ring.count == 0 && !d.ring.done then s.(owner := None, cs := s.cs[i := CSleep])
      else s.(cs := s.cs[i := CCheck])
    case CCheck =>
      if d.ring.count == 0 && d.ring.done then s.(cs := s.cs[i := CEarly]) else s.(cs := s.cs[i := CFetch])
    case CEarly => s.(owner := None, cs := s.cs[i := CLoop])
    case CFetch =>
      var x := d.ring.slots[d.ring.out];
      s.(cs := s.cs[i := CRead(x.sfd, x.dfd)])
    case CRead(sfd, dfd) =>
      if o.n > 0
      then s.(d := d.(sys := Seeked(d.sys, sfd, o.n)), cs := s.cs[i := CWrite(sfd, dfd, Unread(d.sys, sfd)[..o.n])])
      else s.(cs := s.cs[i := CCloseSrc(sfd, dfd)])
    case CWrite(sfd, dfd, buf) =>
      s.(d := d.(sys := WriteFd(d.sys, dfd, buf)), cs := s.cs[i := CRead(sfd, dfd)])
    case CCloseSrc(sfd, dfd) => s.(d := d.(sys := CloseFd(d.sys, sfd)), cs := s.cs[i := CCloseDst(dfd)])
    case CCloseDst(dfd) => s.(d := d.(sys := CloseFd(d.sys, dfd)), cs := s.cs[i := CPrint])
    case CPrint =>
      s.(d := d.(log := d.log + [d.ring.slots[d.ring.out].job], q := if d.q == [] then [] else d.q[1..]),
         cs := s.cs[i := CAdvance])
    case CAdvance => s.(d := d.(ring := AdvanceOut(d.ring)), cs := s.cs[i := CCount])
    case CCount =>
      s.(d := d.(ring := d.ring.(count := if d.ring.count == 0 then 0 else d.ring.count - 1)), cs := s.cs[i := CSignal])
    case CSignal =>
      s.(p := if s.p.PSleep? then PReacquire(s.p.job) else s.p, cs := s.cs[i := CUnlock])
    case CUnlock => s.(owner := None, cs := s.cs[i := CLoop])
    case CLoop => s.(owner := Some(Consumer(i)), cs := s.cs[i := CLoopTest])
    case CLoopTest =>
      if d.ring.count == 0 && d.ring.done then s.(cs := s.cs[i := CLeave]) else s.(cs := s.cs[i := CAgain])
    case CLeave => s.(owner := None, cs := s.cs[i := CExit])
    case CAgain => s.(owner := None, cs := s.cs[i := CAcquire])
  }

  function Do(c: Config, s: State, a: Action): State
    requires Enabled(s, a) && WellFormed(s.d.ring)
  {
    match a
    case Move(Producer, o) => ProducerStep(c, s, o)
    case Move(Consumer(i), o) => ConsumerStep(s, i, o)
    case Spurious(Producer) => s.(p := PReacquire(s.p.job))
    case Spurious(Consumer(i)) => s.(cs := s.cs[i := CReacquire])
  }

  /** `acts` is a possible run from `s`, and it ends in `t`. That the ring is well formed is no
      restriction: it is part of the invariant of every reachable state. */
  predicate Run(c: Config, s: State, acts: seq<Action>, t: State)
    decreases |acts|
  {
    if acts == [] then s == t
    else WellFormed(s.d.ring) && Enabled(s, acts[0]) && Run(c, Do(c, s, acts[0]), acts[1..], t)
  }

  predicate Finished(s: State) {
    s.p.PExit? && forall i :: 0 <= i < |s.cs| ==> s.cs[i].CExit?
  }

  // What the program is for: the same copies made by one sequential loop.

  /** A for-loop over the jobs that copies the ones whose opens succeed (`outs`). */
  function SequentialCopy(files: map<string, seq<Byte>>, jobs: seq<Job>, outs: seq<bool>): map<string, seq<Byte>>
    requires |outs| <= |jobs|
  {
    if outs == [] then files
    else
      var n := |outs| - 1;
      var before := SequentialCopy(files, jobs, outs[..n]);
      if outs[n] && jobs[n].src in before then before[jobs[n].dst := before[jobs[n].src]] else before
  }

  /** The jobs whose opens succeeded, in order. */
  function Selected(jobs: seq<Job>, outs: seq<bool>): seq<Job>
    requires |outs| <= |jobs|
  {
    if outs == [] then []
    else
      var n := |outs| - 1;
      Selected(jobs, outs[..n]) + (if outs[n] then [jobs[n]] else [])
  }
}
