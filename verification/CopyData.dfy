/** The data half of the invariant of the copy program: ring, descriptors, file contents and
    history, as a function of where the thread inside the critical section is. */
module CopyData {
  import opened Options
  import opened Posix
  import opened RingBuffer
  import opened CopyModel

  /** The critical section under way, if any. */
  datatype Section = Idle | InP(p: ProducerPc) | InC(c: ConsumerPc)

  ghost predicate Distinct(jobs: seq<Job>) {
    && (forall m, n :: 0 <= m < n < |jobs| ==> jobs[m].src != jobs[n].src && jobs[m].dst != jobs[n].dst)
    && (forall m, n :: 0 <= m < |jobs| && 0 <= n < |jobs| ==> jobs[m].src != jobs[n].dst)
  }

  /** What the caller has to provide: a nonempty buffer, two different directories, distinct
      plain names, and paths that fit their 512-byte buffers. */
  ghost predicate ValidConfig(c: Config) {
    && c.cap >= 1
    && c.srcDir != c.dstDir
    && (forall m, n :: 0 <= m < n < |c.names| ==> c.names[m] != c.names[n])
    && (forall m :: 0 <= m < |c.names| ==> PlainName(c, c.names[m]))
  }

  ghost predicate PlainName(c: Config, name: string) {
    && '/' !in name
    && |c.srcDir| + |name| + 1 < 512
    && |c.dstDir| + |name| + 1 < 512
  }

  lemma JoinPathInjective(d: string, m: string, e: string, n: string)
    requires |d| + |m| + 1 < 512 && |e| + |n| + 1 < 512
    requires '/' !in m && '/' !in n
    ensures JoinPath(d, m) == JoinPath(e, n) ==> d == e && m == n
  {
    var p, q := d + "/" + m, e + "/" + n;
    if |d| < |e| < |p| {
      assert q[|e|] == '/' && p[|e|] in m;
    } else if |e| < |d| < |q| {
      assert p[|d|] == '/' && q[|d|] in n;
    } else if p == q {
      assert d == p[..|d|] && e == q[..|e|];
      assert m == p[|d| + 1..] && n == q[|e| + 1..];
    }
  }

  /** Every job stems from an entry. */
  lemma {:induction false} JobOrigin(c: Config, names: seq<string>, m: nat) returns (k: nat)
    requires m < |Jobs(c, names)|
    ensures k < |names| && !IsDot(names[k]) && Jobs(c, names)[m] == JobOf(c, names[k])
  {
    var head := if IsDot(names[0]) then [] else [JobOf(c, names[0])];
    if m < |head| {
      k := 0;
    } else {
      k := JobOrigin(c, names[1..], m - |head|);
      k := k + 1;
    }
  }

  /** Distinct entries give copies that do not interfere: no destination is written twice and
      none is a source. */
  lemma {:induction false} JobsDistinct(c: Config, names: seq<string>)
    requires c.srcDir != c.dstDir
    requires forall m, n :: 0 <= m < n < |names| ==> names[m] != names[n]
    requires forall m :: 0 <= m < |names| ==> PlainName(c, names[m])
    ensures Distinct(Jobs(c, names))
  {
    var jobs := Jobs(c, names);
    forall m, n | 0 <= m < |jobs| && 0 <= n < |jobs|
      ensures jobs[m].src != jobs[n].dst
    {
      var k := JobOrigin(c, names, m);
      var l := JobOrigin(c, names, n);
      JoinPathInjective(c.srcDir, names[k], c.dstDir, names[l]);
    }
    if names != [] {
      var rest := Jobs(c, names[1..]);
      JobsDistinct(c, names[1..]);
      if !IsDot(names[0]) {
        forall n | 0 <= n < |rest|
          ensures JobOf(c, names[0]).src != rest[n].src && JobOf(c, names[0]).dst != rest[n].dst
        {
          var l := JobOrigin(c, names[1..], n);
          JoinPathInjective(c.srcDir, names[0], c.srcDir, names[1..][l]);
          JoinPathInjective(c.dstDir, names[0], c.dstDir, names[1..][l]);
        }
      }
    }
  }

  // Facts about the specification functions.

  ghost predicate Same(a: map<string, seq<Byte>>, b: map<string, seq<Byte>>, x: string) {
    (x in a <==> x in b) && (x in a ==> a[x] == b[x])
  }

  ghost predicate SourcesExist(files: map<string, seq<Byte>>, jobs: seq<Job>, outs: seq<bool>)
    requires |outs| <= |jobs|
  {
    forall m :: 0 <= m < |outs| && outs[m] ==> jobs[m].src in files
  }

  lemma SelectedSnoc(jobs: seq<Job>, outs: seq<bool>, b: bool)
    requires |outs| < |jobs|
    ensures Selected(jobs, outs + [b]) == Selected(jobs, outs) + (if b then [jobs[|outs|]] else [])
  {
  }

  lemma SequentialSnoc(files: map<string, seq<Byte>>, jobs: seq<Job>, outs: seq<bool>, b: bool)
    requires |outs| < |jobs|
    ensures var f := SequentialCopy(files, jobs, outs); var j := jobs[|outs|];
            SequentialCopy(files, jobs, outs + [b]) == if b && j.src in f then f[j.dst := f[j.src]] else f
  {
  }

  /** Selected jobs stem from decided entries. */
  lemma {:induction false} SelectedOrigin(jobs: seq<Job>, outs: seq<bool>, i: nat) returns (m: nat)
    requires |outs| <= |jobs| && i < |Selected(jobs, outs)|
    ensures m < |outs| && outs[m] && Selected(jobs, outs)[i] == jobs[m]
  {
    var n := |outs| - 1;
    var before := Selected(jobs, outs[..n]);
    if i < |before| {
      m := SelectedOrigin(jobs, outs[..n], i);
    } else {
      m := n;
    }
  }

  lemma {:induction false} SelectedDistinct(jobs: seq<Job>, outs: seq<bool>)
    requires |outs| <= |jobs| && Distinct(jobs)
    ensures Distinct(Selected(jobs, outs))
  {
    var sel := Selected(jobs, outs);
    forall i, k | 0 <= i < |sel| && 0 <= k < |sel|
      ensures sel[i].src != sel[k].dst
    {
      var m := SelectedOrigin(jobs, outs, i);
      var n := SelectedOrigin(jobs, outs, k);
    }
    if outs != [] {
      var n := |outs| - 1;
      SelectedDistinct(jobs, outs[..n]);
      forall i | 0 <= i < |Selected(jobs, outs[..n])|
        ensures Selected(jobs, outs[..n])[i].src != jobs[n].src && Selected(jobs, outs[..n])[i].dst != jobs[n].dst
      {
        var m := SelectedOrigin(jobs, outs[..n], i);
      }
    }
  }

  /** The sequential loop leaves a path alone that no successful job writes. */
  lemma {:induction false} SequentialFrame(files: map<string, seq<Byte>>, jobs: seq<Job>, outs: seq<bool>, x: string)
    requires |outs| <= |jobs|
    requires forall m :: 0 <= m < |outs| && outs[m] ==> jobs[m].dst != x
    ensures Same(SequentialCopy(files, jobs, outs), files, x)
  {
    if outs != [] {
      SequentialFrame(files, jobs, outs[..|outs| - 1], x);
    }
  }

  /** The sequential loop gives every successful job's destination its source's content. */
  lemma {:induction false} SequentialEffect(files: map<string, seq<Byte>>, jobs: seq<Job>, outs: seq<bool>, m: nat)
    requires |outs| <= |jobs| && Distinct(jobs) && SourcesExist(files, jobs, outs)
    requires m < |outs| && outs[m]
    ensures var f := SequentialCopy(files, jobs, outs);
            jobs[m].dst in f && f[jobs[m].dst] == files[jobs[m].src]
  {
    var n := |outs| - 1;
    var before := SequentialCopy(files, jobs, outs[..n]);
    if m < n {
      SequentialEffect(files, jobs, outs[..n], m);
    } else {
      SequentialFrame(files, jobs, outs[..n], jobs[m].src);
    }
  }

  // The invariant.

  ghost function QJobs(q: seq<Slot>): (r: seq<Job>)
    ensures |r| == |q|
  {
    seq(|q|, k requires 0 <= k < |q| => q[k].job)
  }

  ghost predicate OpenAs(s: System, fd: int, path: string, off: nat) {
    fd in s.fds && s.fds[fd] == Handle(path, off)
  }

  /** A slot whose copy has not begun: both files are open at offset 0, the destination is empty. */
  ghost predicate Waiting(s: System, x: Slot) {
    && OpenAs(s, x.sfd, x.job.src, 0)
    && OpenAs(s, x.dfd, x.job.dst, 0)
    && x.job.src in s.files
    && x.job.dst in s.files && s.files[x.job.dst] == []
  }

  /** A copy in progress: `read` bytes taken from the source, `written` of them delivered. */
  ghost predicate CopyAt(s: System, x: Slot, read: nat, written: nat) {
    && OpenAs(s, x.sfd, x.job.src, read)
    && OpenAs(s, x.dfd, x.job.dst, written)
    && x.job.src in s.files && x.job.dst in s.files
    && written <= read <= |s.files[x.job.src]|
    && s.files[x.job.dst] == s.files[x.job.src][..written]
  }

  ghost predicate Copied(s: System, x: Slot) {
    && x.job.src in s.files && x.job.dst in s.files
    && s.files[x.job.dst] == s.files[x.job.src]
  }

  ghost predicate Copying(sec: Section) {
    && sec.InC?
    && (sec.c.CRead? || sec.c.CWrite? || sec.c.CCloseSrc? || sec.c.CCloseDst? || sec.c.CPrint?)
  }

  /** The fields before `f` have their new values. */
  ghost predicate FieldsStored(slot: Slot, x: Slot, f: Field) {
    && (f != SourceFd ==> slot.sfd == x.sfd)
    && (f == SourceFile || f == DestinationFile ==> slot.dfd == x.dfd)
    && (f == DestinationFile ==> slot.job.src == x.job.src)
  }

  ghost predicate RingInv(cap: nat, d: Shared, sec: Section) {
    && |d.ring.slots| == cap
    && match sec
       case InP(POpenSrc(_)) | InP(POpenDst(_, _)) | InP(PCloseSrc(_, _)) =>
         Represents(d.ring, d.q) && |d.q| < cap
       case InP(PStore(x, f)) =>
         Represents(d.ring, d.q) && |d.q| < cap && FieldsStored(d.ring.slots[d.ring.inn], x, f)
       case InP(PAdvance(x)) => Stored(d.ring, d.q, x)
       case InP(PCount(x)) => Entered(d.ring, d.q, x)
       case InC(CAdvance) => Dropped(d.ring, d.q)
       case InC(CCount) => Left(d.ring, d.q)
       case _ => Represents(d.ring, d.q)
  }

  ghost predicate HistoryInv(files0: map<string, seq<Byte>>, all: seq<Job>, d: Shared) {
    && |d.outs| <= |all|
    && d.log + QJobs(d.q) == Selected(all, d.outs)
    && SourcesExist(files0, all, d.outs)
  }

  /** The slot the producer has opened but not queued yet. */
  ghost function InFlight(sec: Section): Option<Slot> {
    match sec
    case InP(PStore(x, _)) => Some(x)
    case InP(PAdvance(x)) => Some(x)
    case InP(PCount(x)) => Some(x)
    case _ => None
  }

  /** Destinations whose content is not final: queued, or opened but not queued yet. */
  ghost predicate Unsettled(d: Shared, sec: Section, x: string) {
    || (exists k :: 0 <= k < |d.q| && d.q[k].job.dst == x)
    || (InFlight(sec).Some? && InFlight(sec).value.job.dst == x)
  }

  /** Inside the critical section the producer works on the first undecided job. */
  ghost predicate CurrentInv(all: seq<Job>, d: Shared, sec: Section) {
    match sec
    case InP(POpenSrc(j)) => IsNext(all, d, j)
    case InP(POpenDst(j, _)) => IsNext(all, d, j)
    case InP(PCloseSrc(j, _)) => IsNext(all, d, j)
    case _ => InFlight(sec).Some? ==> IsNext(all, d, InFlight(sec).value.job)
  }

  ghost predicate IsNext(all: seq<Job>, d: Shared, j: Job) {
    |d.outs| < |all| && j == all[|d.outs|]
  }

  ghost predicate FilesInv(files0: map<string, seq<Byte>>, all: seq<Job>, d: Shared, sec: Section)
    requires |d.outs| <= |all|
  {
    forall x :: !Unsettled(d, sec, x) ==> Same(d.sys.files, SequentialCopy(files0, all, d.outs), x)
  }

  ghost predicate QueueInv(d: Shared, sec: Section) {
    forall k :: (if Copying(sec) then 1 else 0) <= k < |d.q| ==> Waiting(d.sys, d.q[k])
  }

  /** Length of the head's destination so far. */
  ghost function Written(d: Shared): nat
    requires d.q != [] && d.q[0].job.dst in d.sys.files
  {
    |d.sys.files[d.q[0].job.dst]|
  }

  ghost predicate LocalInv(d: Shared, sec: Section) {
    match sec
    case InP(POpenDst(j, sfd)) => OpenAs(d.sys, sfd, j.src, 0) && j.src in d.sys.files
    case InP(PCloseSrc(j, sfd)) => OpenAs(d.sys, sfd, j.src, 0)
    case InP(PStore(x, _)) => Waiting(d.sys, x)
    case InP(PAdvance(x)) => Waiting(d.sys, x)
    case InP(PCount(x)) => Waiting(d.sys, x)
    case InC(CEarly) => d.q == []
    case InC(CFetch) => d.q != []
    case InC(CRead(sfd, dfd)) =>
      && d.q != [] && sfd == d.q[0].sfd && dfd == d.q[0].dfd
      && d.q[0].job.dst in d.sys.files
      && CopyAt(d.sys, d.q[0], Written(d), Written(d))
    case InC(CWrite(sfd, dfd, buf)) =>
      && d.q != [] && sfd == d.q[0].sfd && dfd == d.q[0].dfd
      && d.q[0].job.dst in d.sys.files
      && CopyAt(d.sys, d.q[0], Written(d) + |buf|, Written(d))
      && buf == d.sys.files[d.q[0].job.src][Written(d)..Written(d) + |buf|]
    case InC(CCloseSrc(sfd, dfd)) =>
      && d.q != [] && sfd == d.q[0].sfd && dfd == d.q[0].dfd
      && Copied(d.sys, d.q[0])
      && CopyAt(d.sys, d.q[0], Written(d), Written(d))
    case InC(CCloseDst(dfd)) =>
      && d.q != [] && dfd == d.q[0].dfd
      && dfd in d.sys.fds && d.sys.fds[dfd].path == d.q[0].job.dst
      && Copied(d.sys, d.q[0])
    case InC(CPrint) => d.q != [] && Copied(d.sys, d.q[0])
    case _ => true
  }

  /** Descriptors open beyond the two of every queued slot. */
  ghost function Surplus(sec: Section): int {
    match sec
    case InP(POpenDst(_, _)) | InP(PCloseSrc(_, _)) => 1
    case InP(PStore(_, _)) | InP(PAdvance(_)) | InP(PCount(_)) => 2
    case InC(CCloseDst(_)) => -1
    case InC(CPrint) => -2
    case _ => 0
  }

  ghost predicate FdInv(d: Shared, sec: Section) {
    && |d.sys.fds| == 2 * |d.q| + Surplus(sec)
    && d.sys.opens == d.sys.closes + |d.sys.fds|
  }

  ghost predicate DataInv(cap: nat, files0: map<string, seq<Byte>>, all: seq<Job>, d: Shared, sec: Section) {
    && RingInv(cap, d, sec)
    && HistoryInv(files0, all, d)
    && FilesInv(files0, all, d, sec)
    && QueueInv(d, sec)
    && LocalInv(d, sec)
    && CurrentInv(all, d, sec)
    && FdInv(d, sec)
  }

  // Consequences.

  /** Queued jobs are distinct, and none clashes with the job decided next. */
  lemma QueueDistinct(files0: map<string, seq<Byte>>, all: seq<Job>, d: Shared)
    requires HistoryInv(files0, all, d) && Distinct(all)
    ensures Distinct(QJobs(d.q))
    ensures |d.outs| < |all| ==> Distinct(QJobs(d.q) + [all[|d.outs|]])
  {
    var sel := Selected(all, d.outs);
    SelectedDistinct(all, d.outs);
    assert QJobs(d.q) == sel[|d.log|..];
    if |d.outs| < |all| {
      SelectedDistinct(all, d.outs + [true]);
      SelectedSnoc(all, d.outs, true);
      assert QJobs(d.q) + [all[|d.outs|]] == (sel + [all[|d.outs|]])[|d.log|..];
    }
  }

  /** No source is ever changed. */
  lemma SourceIntact(cap: nat, files0: map<string, seq<Byte>>, all: seq<Job>, d: Shared, sec: Section, m: nat)
    requires DataInv(cap, files0, all, d, sec) && Distinct(all) && m < |all|
    ensures Same(d.sys.files, files0, all[m].src)
  {
    var x := all[m].src;
    SequentialFrame(files0, all, d.outs, x);
    forall k | 0 <= k < |d.q|
      ensures d.q[k].job.dst != x
    {
      assert QJobs(d.q)[k] == Selected(all, d.outs)[|d.log| + k];
      var n := SelectedOrigin(all, d.outs, |d.log| + k);
    }
    assert !Unsettled(d, sec, x);
  }

  /** What the sequential loop gives a queued job's destination. */
  lemma QueuedTarget(files0: map<string, seq<Byte>>, all: seq<Job>, d: Shared, k: nat)
    requires HistoryInv(files0, all, d) && Distinct(all) && k < |d.q|
    ensures var f := SequentialCopy(files0, all, d.outs); var j := d.q[k].job;
            j.src in files0 && j.dst in f && f[j.dst] == files0[j.src] && j in all
  {
    assert QJobs(d.q)[k] == Selected(all, d.outs)[|d.log| + k];
    var n := SelectedOrigin(all, d.outs, |d.log| + k);
    SequentialEffect(files0, all, d.outs, n);
  }

  lemma RemoveOne(m: map<int, Handle>, fd: int)
    requires fd in m
    ensures |m - {fd}| == |m| - 1
  {
  }
}
