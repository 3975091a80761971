/** Sums over the consumer threads: how many sleep, and how many actions they can still take. */
module CopyCounting {
  import opened CopyModel

  /** Extra actions that waking every one of `n` consumers can lead to. */
  function WakeBudget(n: nat): nat {
    14 * n
  }

  /** `Asleep` counts sleepers. `Cost` bounds the actions a consumer can take before it sleeps,
      exits or removes a slot; `settled` says that no slot is left and none will come. */
  datatype Weighing = Asleep | Cost(settled: bool)

  function Weight(w: Weighing, pc: ConsumerPc): nat {
    match w
    case Asleep => if pc.CSleep? then 1 else 0
    case Cost(settled) =>
      match pc
      case CExit => 0
      case CSleep => 0
      case CLeave => 1
      case CLoopTest => if settled then 2 else 16
      case CLoop => if settled then 3 else 17
      case CEarly => 4
      case CCount => 5
      case CAdvance => 6
      case CPrint => 7
      case CCloseDst(_) => 8
      case CCloseSrc(_, _) => 9
      case CRead(_, _) => 10
      case CWrite(_, _, _) => 11
      case CFetch => 11
      case CCheck => 12
      case CTest => 13
      case CReacquire => 14
      case CAcquire => 14
      case CAgain => 15
      case CUnlock => 18
      case CSignal => 21
  }

  function Total(w: Weighing, cs: seq<ConsumerPc>): nat {
    if cs == [] then 0 else Weight(w, cs[0]) + Total(w, cs[1..])
  }

  lemma {:induction false} TotalUpdate(w: Weighing, cs: seq<ConsumerPc>, i: nat, pc: ConsumerPc)
    requires i < |cs|
    ensures Total(w, cs[i := pc]) == Total(w, cs) - Weight(w, cs[i]) + Weight(w, pc)
  {
    var cs' := cs[i := pc];
    if i == 0 {
      assert cs'[1..] == cs[1..];
    } else {
      assert cs'[1..] == cs[1..][i - 1 := pc];
      TotalUpdate(w, cs[1..], i - 1, pc);
    }
  }

  /** The number of sleepers, against the set of sleepers. */
  lemma {:induction false} AsleepBounds(cs: seq<ConsumerPc>)
    ensures Total(Asleep, cs) <= |cs|
    ensures Total(Asleep, cs) == 0 <==> Sleepers(cs) == {}
    ensures Total(Asleep, cs) == |cs| <==> forall i :: 0 <= i < |cs| ==> cs[i].CSleep?
  {
    if cs != [] {
      AsleepBounds(cs[1..]);
      assert cs == [cs[0]] + cs[1..];
      if cs[0].CSleep? {
        assert 0 in Sleepers(cs);
      } else if i: nat :| i in Sleepers(cs) {
        assert cs[1..][i - 1].CSleep?;
        assert i - 1 in Sleepers(cs[1..]);
      }
      if j: nat :| j in Sleepers(cs[1..]) {
        assert j + 1 in Sleepers(cs);
      }
    }
  }

  /** Waking some sleepers lowers their number, and by at least one if anyone is woken. */
  lemma {:induction false} WakeAsleep(cs: seq<ConsumerPc>, who: set<nat>)
    requires who <= Sleepers(cs)
    ensures Total(Asleep, Wake(cs, who)) <= Total(Asleep, cs)
    ensures who != {} ==> Total(Asleep, Wake(cs, who)) < Total(Asleep, cs)
  {
    if cs != [] {
      var rest := set i: nat | i in who && i > 0 :: i - 1;
      assert Wake(cs, who)[1..] == Wake(cs[1..], rest);
      assert rest <= Sleepers(cs[1..]);
      WakeAsleep(cs[1..], rest);
      if who != {} && 0 !in who {
        var i :| i in who;
        assert i - 1 in rest;
      }
    }
  }

  /** Waking sleepers costs a fixed amount for each consumer at most. */
  lemma {:induction false} WakeCost(settled: bool, cs: seq<ConsumerPc>, who: set<nat>)
    requires who <= Sleepers(cs)
    ensures Total(Cost(settled), Wake(cs, who)) <= Total(Cost(settled), cs) + WakeBudget(|cs|)
  {
    if cs != [] {
      var rest := set i: nat | i in who && i > 0 :: i - 1;
      assert Wake(cs, who)[1..] == Wake(cs[1..], rest);
      assert rest <= Sleepers(cs[1..]);
      WakeCost(settled, cs[1..], rest);
    }
  }

  /** Once no work can come, every consumer is at most as far from its end as before. */
  lemma {:induction false} SettlingLowers(cs: seq<ConsumerPc>)
    ensures Total(Cost(true), cs) <= Total(Cost(false), cs)
  {
    if cs != [] {
      SettlingLowers(cs[1..]);
    }
  }

  lemma {:induction false} InitialCost(cs: seq<ConsumerPc>)
    requires forall i :: 0 <= i < |cs| ==> cs[i] == CAcquire
    ensures Total(Cost(false), cs) == 14 * |cs| && Total(Asleep, cs) == 0
  {
    if cs != [] {
      InitialCost(cs[1..]);
    }
  }
}
