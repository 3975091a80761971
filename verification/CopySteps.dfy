/** Every action inside the critical section keeps the data invariant of the copy program. */
module CopySteps {
  import opened Posix
  import opened RingBuffer
  import opened CopyModel
  import opened CopyData

  /** Fixed context of the lemmas below. */
  datatype Context = Context(cap: nat, files0: map<string, seq<Byte>>, all: seq<Job>)

  ghost predicate Inv(x: Context, d: Shared, sec: Section) {
    Distinct(x.all) && x.cap >= 1 && DataInv(x.cap, x.files0, x.all, d, sec)
  }

  // Producer.

  lemma OpenSource(x: Context, d: Shared, j: Job, fd: int)
    requires Inv(x, d, InP(POpenSrc(j))) && fd !in d.sys.fds && j.src in d.sys.files
    ensures Inv(x, d.(sys := OpenAt(d.sys, fd, j.src)), InP(POpenDst(j, fd)))
  {
  }

  /** An entry that cannot be opened is recorded as failed and changes no file. */
  lemma Reject(x: Context, d: Shared, sec: Section)
    requires Inv(x, d, sec) && sec in {Idle, InP(PUnlock)} && |d.outs| < |x.all|
    ensures Inv(x, d.(outs := d.outs + [false]), InP(PUnlock))
  {
    var d' := d.(outs := d.outs + [false]);
    SelectedSnoc(x.all, d.outs, false);
    SequentialSnoc(x.files0, x.all, d.outs, false);
    forall y | !Unsettled(d', InP(PUnlock), y)
      ensures Same(d'.sys.files, SequentialCopy(x.files0, x.all, d'.outs), y)
    {
      assert !Unsettled(d, sec, y);
    }
  }

  lemma OpenDestination(x: Context, d: Shared, j: Job, sfd: int, fd: int)
    requires Inv(x, d, InP(POpenDst(j, sfd))) && fd !in d.sys.fds
    ensures Inv(x, d.(sys := Truncate(OpenAt(d.sys, fd, j.dst), j.dst)), InP(PStore(Slot(sfd, fd, j), SourceFd)))
  {
    var sec, sec' := InP(POpenDst(j, sfd)), InP(PStore(Slot(sfd, fd, j), SourceFd));
    var d' := d.(sys := Truncate(OpenAt(d.sys, fd, j.dst), j.dst));
    QueueDistinct(x.files0, x.all, d);
    var js := QJobs(d.q) + [j];
    forall k | 0 <= k < |d.q|
      ensures Waiting(d'.sys, d'.q[k])
    {
      assert Waiting(d.sys, d.q[k]);
      assert js[k] == d.q[k].job && js[|d.q|] == j;
    }
    assert j.src != j.dst;
    forall y | !Unsettled(d', sec', y)
      ensures Same(d'.sys.files, SequentialCopy(x.files0, x.all, d'.outs), y)
    {
      assert !Unsettled(d, sec, y);
    }
  }

  /** Closing the source after the second open failed. */
  lemma CloseAfterFailure(x: Context, d: Shared, j: Job, sfd: int)
    requires Inv(x, d, InP(PCloseSrc(j, sfd)))
    ensures sfd in d.sys.fds
    ensures Inv(x, d.(sys := CloseFd(d.sys, sfd), outs := d.outs + [false]), InP(PUnlock))
  {
    var sec, d1 := InP(PCloseSrc(j, sfd)), d.(sys := CloseFd(d.sys, sfd));
    RemoveOne(d.sys.fds, sfd);
    QueueDistinct(x.files0, x.all, d);
    var js := QJobs(d.q) + [j];
    forall k | 0 <= k < |d.q|
      ensures Waiting(d1.sys, d1.q[k])
    {
      assert Waiting(d.sys, d.q[k]);
      assert js[k] == d.q[k].job && js[|d.q|] == j;
    }
    forall y | !Unsettled(d1, InP(PUnlock), y)
      ensures Same(d1.sys.files, SequentialCopy(x.files0, x.all, d1.outs), y)
    {
      assert !Unsettled(d, sec, y);
    }
    Reject(x, d1, InP(PUnlock));
  }

  /** Storing the fields of the slot one by one: no queued slot changes. */
  lemma Store(x: Context, d: Shared, s: Slot, f: Field)
    requires Inv(x, d, InP(PStore(s, f)))
    ensures var d' := d.(ring := StoreSlot(d.ring, StoreField(d.ring.slots[d.ring.inn], s, f)));
            match f
            case SourceFd => Inv(x, d', InP(PStore(s, DestinationFd)))
            case DestinationFd => Inv(x, d', InP(PStore(s, SourceFile)))
            case SourceFile => Inv(x, d', InP(PStore(s, DestinationFile)))
            case DestinationFile => Inv(x, d', InP(PAdvance(s)))
  {
    var y := StoreField(d.ring.slots[d.ring.inn], s, f);
    var d' := d.(ring := StoreSlot(d.ring, y));
    StoreKeeps(d.ring, d.q, y);
    SameFiles(x, d, InP(PStore(s, f)), d', InP(PStore(s, DestinationFile)));
    SameFiles(x, d, InP(PStore(s, f)), d', InP(PAdvance(s)));
    SameFiles(x, d, InP(PStore(s, f)), d', InP(PStore(s, DestinationFd)));
    SameFiles(x, d, InP(PStore(s, f)), d', InP(PStore(s, SourceFile)));
  }

  lemma Advance(x: Context, d: Shared, s: Slot)
    requires Inv(x, d, InP(PAdvance(s)))
    ensures Inv(x, d.(ring := AdvanceIn(d.ring)), InP(PCount(s)))
  {
    var d' := d.(ring := AdvanceIn(d.ring));
    AdvanceInKeeps(d.ring, d.q, s);
    SameFiles(x, d, InP(PAdvance(s)), d', InP(PCount(s)));
  }

  /** A step that leaves files, queue and history alone, between sections with the same
      unsettled destinations. */
  lemma SameFiles(x: Context, d: Shared, sec: Section, d': Shared, sec': Section)
    requires Inv(x, d, sec)
    requires d'.sys.files == d.sys.files && d'.q == d.q && d'.outs == d.outs
    requires InFlight(sec') == InFlight(sec)
    ensures FilesInv(x.files0, x.all, d', sec')
  {
  }

  ghost function Enqueued(d: Shared, s: Slot): Shared {
    d.(ring := d.ring.(count := d.ring.count + 1), q := d.q + [s], outs := d.outs + [true])
  }

  lemma EnqueueHistory(x: Context, d: Shared, s: Slot)
    requires Inv(x, d, InP(PCount(s)))
    ensures HistoryInv(x.files0, x.all, Enqueued(d, s))
  {
    SelectedSnoc(x.all, d.outs, true);
    assert QJobs(d.q + [s]) == QJobs(d.q) + [s.job];
    assert d.log + (QJobs(d.q) + [s.job]) == (d.log + QJobs(d.q)) + [s.job];
    SourceIntact(x.cap, x.files0, x.all, d, InP(PCount(s)), |d.outs|);
  }

  lemma EnqueueFiles(x: Context, d: Shared, s: Slot)
    requires Inv(x, d, InP(PCount(s)))
    ensures |Enqueued(d, s).outs| <= |x.all| && FilesInv(x.files0, x.all, Enqueued(d, s), InP(PSignal))
  {
    var d' := Enqueued(d, s);
    SequentialSnoc(x.files0, x.all, d.outs, true);
    assert d'.q[|d.q|] == s;
    assert forall k :: 0 <= k < |d.q| ==> d'.q[k] == d.q[k];
    forall y | !Unsettled(d', InP(PSignal), y)
      ensures Same(d'.sys.files, SequentialCopy(x.files0, x.all, d'.outs), y)
    {
      assert s.job.dst != y;
      assert !Unsettled(d, InP(PCount(s)), y);
    }
  }

  /** Raising `count` is the moment a job enters the queue. */
  lemma Enqueue(x: Context, d: Shared, s: Slot)
    requires Inv(x, d, InP(PCount(s)))
    ensures Inv(x, Enqueued(d, s), InP(PSignal))
  {
    CountUpKeeps(d.ring, d.q, s);
    EnqueueHistory(x, d, s);
    EnqueueFiles(x, d, s);
  }

  // Consumer.

  /** The slot read off the array is the head of the queue. */
  lemma Fetch(x: Context, d: Shared)
    requires Inv(x, d, InC(CFetch))
    ensures var s := d.ring.slots[d.ring.out];
            s == d.q[0] && Inv(x, d, InC(CRead(s.sfd, s.dfd)))
  {
  }

  lemma ReadSome(x: Context, d: Shared, sfd: int, dfd: int, n: nat)
    requires Inv(x, d, InC(CRead(sfd, dfd))) && 1 <= n <= |Unread(d.sys, sfd)|
    ensures Inv(x, d.(sys := Seeked(d.sys, sfd, n)), InC(CWrite(sfd, dfd, Unread(d.sys, sfd)[..n])))
  {
    var sec, sec' := InC(CRead(sfd, dfd)), InC(CWrite(sfd, dfd, Unread(d.sys, sfd)[..n]));
    var d' := d.(sys := Seeked(d.sys, sfd, n));
    KeepQueue(x, d, sec, d', d.q[0].job, sfd, dfd);
    SameFiles(x, d, sec, d', sec');
  }

  /** Changes to the head's two descriptors and destination leave the rest of the queue waiting. */
  lemma KeepQueue(x: Context, d: Shared, sec: Section, d': Shared, j: Job, sfd: int, dfd: int)
    requires Inv(x, d, sec) && Copying(sec) && d.q != [] && d.q[0].job == j && d'.q == d.q
    requires sfd in d.sys.fds ==> d.sys.fds[sfd].path == j.src || d.sys.fds[sfd].path == j.dst
    requires dfd in d.sys.fds ==> d.sys.fds[dfd].path == j.dst
    requires forall fd :: fd in d.sys.fds && fd != sfd && fd != dfd ==>
               fd in d'.sys.fds && d'.sys.fds[fd] == d.sys.fds[fd]
    requires forall y :: y in d.sys.files && y != j.dst ==> y in d'.sys.files && d'.sys.files[y] == d.sys.files[y]
    ensures forall k :: 1 <= k < |d.q| ==> Waiting(d'.sys, d.q[k])
  {
    QueueDistinct(x.files0, x.all, d);
    var js := QJobs(d.q);
    forall k | 1 <= k < |d.q|
      ensures Waiting(d'.sys, d.q[k])
    {
      assert Waiting(d.sys, d.q[k]);
      assert js[0] == j && js[k] == d.q[k].job;
    }
  }

  /** `read` returned nothing: everything has been written. */
  lemma ReadEnd(x: Context, d: Shared, sfd: int, dfd: int)
    requires Inv(x, d, InC(CRead(sfd, dfd))) && Unread(d.sys, sfd) == []
    ensures Inv(x, d, InC(CCloseSrc(sfd, dfd)))
  {
  }

  lemma Write(x: Context, d: Shared, sfd: int, dfd: int, buf: seq<Byte>)
    requires Inv(x, d, InC(CWrite(sfd, dfd, buf)))
    ensures Inv(x, d.(sys := WriteFd(d.sys, dfd, buf)), InC(CRead(sfd, dfd)))
  {
    var sec, sec', j := InC(CWrite(sfd, dfd, buf)), InC(CRead(sfd, dfd)), d.q[0].job;
    var d' := d.(sys := WriteFd(d.sys, dfd, buf));
    QueueDistinct(x.files0, x.all, d);
    assert QJobs(d.q)[0] == j;
    var src, w := d.sys.files[j.src], Written(d);
    WriteAtEnd(d.sys.files[j.dst], buf);
    assert src[..w] + src[w..w + |buf|] == src[..w + |buf|];
    KeepQueue(x, d, sec, d', j, sfd, dfd);
    forall y | !Unsettled(d', sec', y)
      ensures Same(d'.sys.files, SequentialCopy(x.files0, x.all, d'.outs), y)
    {
      assert !Unsettled(d, sec, y) && y != j.dst;
    }
  }

  lemma CloseSource(x: Context, d: Shared, sfd: int, dfd: int)
    requires Inv(x, d, InC(CCloseSrc(sfd, dfd)))
    ensures sfd in d.sys.fds
    ensures Inv(x, d.(sys := CloseFd(d.sys, sfd)), InC(CCloseDst(dfd)))
  {
    var sec, sec', j := InC(CCloseSrc(sfd, dfd)), InC(CCloseDst(dfd)), d.q[0].job;
    var d' := d.(sys := CloseFd(d.sys, sfd));
    RemoveOne(d.sys.fds, sfd);
    QueueDistinct(x.files0, x.all, d);
    assert QJobs(d.q)[0] == j;
    KeepQueue(x, d, sec, d', j, sfd, dfd);
    SameFiles(x, d, sec, d', sec');
  }

  lemma CloseDestination(x: Context, d: Shared, dfd: int)
    requires Inv(x, d, InC(CCloseDst(dfd)))
    ensures dfd in d.sys.fds
    ensures Inv(x, d.(sys := CloseFd(d.sys, dfd)), InC(CPrint))
  {
    var sec, d' := InC(CCloseDst(dfd)), d.(sys := CloseFd(d.sys, dfd));
    RemoveOne(d.sys.fds, dfd);
    KeepQueue(x, d, sec, d', d.q[0].job, dfd, dfd);
    SameFiles(x, d, sec, d', InC(CPrint));
  }

  /** The completion line names the head of the queue, whose copy is now final. */
  lemma Dequeue(x: Context, d: Shared)
    requires Inv(x, d, InC(CPrint))
    ensures d.ring.slots[d.ring.out].job == d.q[0].job
    ensures Inv(x, d.(log := d.log + [d.q[0].job], q := d.q[1..]), InC(CAdvance))
  {
    var sec, sec' := InC(CPrint), InC(CAdvance);
    var d' := d.(log := d.log + [d.q[0].job], q := d.q[1..]);
    var j := d.q[0].job;
    assert d.ring.slots[Index(d.ring.out, 0 + 0, |d.ring.slots|)] == d.q[0];
    DropKeeps(d.ring, d.q);
    assert QJobs(d.q) == [j] + QJobs(d'.q);
    assert d'.log + QJobs(d'.q) == d.log + QJobs(d.q);
    QueuedTarget(x.files0, x.all, d, 0);
    var m :| 0 <= m < |x.all| && x.all[m] == j;
    SourceIntact(x.cap, x.files0, x.all, d, sec, m);
    forall y | !Unsettled(d', sec', y)
      ensures Same(d'.sys.files, SequentialCopy(x.files0, x.all, d'.outs), y)
    {
      if y != j.dst {
        forall k | 0 <= k < |d.q|
          ensures d.q[k].job.dst != y
        {
          assert k > 0 ==> d.q[k] == d'.q[k - 1];
        }
        assert !Unsettled(d, sec, y);
      }
    }
  }

  lemma MoveOut(x: Context, d: Shared)
    requires Inv(x, d, InC(CAdvance))
    ensures Inv(x, d.(ring := AdvanceOut(d.ring)), InC(CCount))
  {
    AdvanceOutKeeps(d.ring, d.q);
    SameFiles(x, d, InC(CAdvance), d.(ring := AdvanceOut(d.ring)), InC(CCount));
  }

  lemma CountDown(x: Context, d: Shared)
    requires Inv(x, d, InC(CCount))
    ensures d.ring.count > 0
    ensures Inv(x, d.(ring := d.ring.(count := d.ring.count - 1)), InC(CSignal))
  {
  }

  // Sections that ask nothing beyond the resting invariant.

  ghost predicate Resting(sec: Section) {
    match sec
    case Idle => true
    case InP(p) => p.PAcquire? || p.PTest? || p.PSignal? || p.PUnlock? || p.PSetDone? || p.PBroadcast? || p.PLastUnlock?
    case InC(c) => c.CTest? || c.CCheck? || c.CSignal? || c.CUnlock? || c.CLoopTest? || c.CLeave? || c.CAgain?
  }

  lemma Rest(x: Context, d: Shared, sec: Section, sec': Section)
    requires Inv(x, d, sec) && Resting(sec) && Resting(sec')
    ensures Inv(x, d, sec')
  {
    SameFiles(x, d, sec, d, sec');
  }
}
