/** The circular array of HW 5/pCp.c: fields, the updates of the two critical sections
    one assignment at a time, and the queue the array stands for. */
module RingBuffer {

  /** The shared fields of the C structure that its mutex protects. */
  datatype Ring<T> = Ring(inn: nat, out: nat, count: nat, done: bool, slots: seq<T>)

  /** Array index of the `k`-th waiting element, without the remainder operator. */
  function Index(out: nat, k: nat, cap: nat): nat
    requires out < cap && k <= cap
  {
    if out + k < cap then out + k else out + k - cap
  }

  lemma ModuloSmall(i: nat, cap: nat)
    requires i < cap
    ensures i % cap == i
  {
  }

  lemma ModuloWrap(i: nat, cap: nat)
    requires i < cap || i == cap > 0
    ensures i < cap ==> (i + cap) % cap == i
    ensures (i == cap) ==> (i + cap) % cap == 0
  {
  }

  lemma IndexIsModulo(out: nat, k: nat, cap: nat)
    requires out < cap && k <= cap
    ensures Index(out, k, cap) == (out + k) % cap
  {
    if out + k >= cap {
      ModuloWrap(out + k - cap, cap);
    } else {
      ModuloSmall(out + k, cap);
    }
  }

  lemma StepIsIndex(i: nat, cap: nat)
    requires i < cap
    ensures (i + 1) % cap == Index(i, 1, cap)
  {
  }

  predicate WellFormed<T>(r: Ring<T>) {
    && r.inn < |r.slots|
    && r.out < |r.slots|
  }

  /** `q` is stored in order in the `|q|` cells that start `skip` cells after `out`. */
  predicate Stores<T(==)>(r: Ring<T>, q: seq<T>, skip: nat)
    requires WellFormed(r)
  {
    && skip + |q| <= |r.slots|
    && forall k :: 0 <= k < |q| ==> r.slots[Index(r.out, skip + k, |r.slots|)] == q[k]
  }

  /** The representation relation when no critical section is under way. */
  predicate Represents<T(==)>(r: Ring<T>, q: seq<T>) {
    && WellFormed(r)
    && r.count == |q|
    && Stores(r, q, 0)
    && r.inn == Index(r.out, |q|, |r.slots|)
  }

  /** The queue read off the array. */
  function Contents<T>(r: Ring<T>): (q: seq<T>)
    requires WellFormed(r) && r.count <= |r.slots|
  {
    seq(r.count, k requires 0 <= k < r.count => r.slots[Index(r.out, k, |r.slots|)])
  }

  /** `Represents` pins the queue down: it is the one the array reads as. */
  lemma RepresentsIsContents<T>(r: Ring<T>, q: seq<T>)
    requires WellFormed(r)
    ensures Represents(r, q) <==>
            r.count <= |r.slots| && r.inn == (r.out + r.count) % |r.slots| && q == Contents(r)
  {
    if r.count <= |r.slots| {
      IndexIsModulo(r.out, r.count, |r.slots|);
    }
  }

  // The assignments of the critical sections.

  function StoreSlot<T>(r: Ring<T>, x: T): Ring<T>
    requires WellFormed(r)
  {
    r.(slots := r.slots[r.inn := x])
  }

  function AdvanceIn<T>(r: Ring<T>): Ring<T>
    requires WellFormed(r)
  {
    r.(inn := (r.inn + 1) % |r.slots|)
  }

  function AdvanceOut<T>(r: Ring<T>): Ring<T>
    requires WellFormed(r)
  {
    r.(out := (r.out + 1) % |r.slots|)
  }

  // What holds between two assignments of a critical section.

  /** After the slot is written, before `in` moves. */
  predicate Stored<T(==)>(r: Ring<T>, q: seq<T>, x: T) {
    Represents(r, q) && |q| < |r.slots| && r.slots[r.inn] == x
  }

  /** After `in` moved, before `count` is raised. */
  predicate Entered<T(==)>(r: Ring<T>, q: seq<T>, x: T) {
    && WellFormed(r)
    && r.count == |q| < |r.slots|
    && Stores(r, q + [x], 0)
    && r.inn == Index(r.out, |q| + 1, |r.slots|)
  }

  /** The head is dropped from `q` but neither `out` nor `count` has moved. */
  predicate Dropped<T(==)>(r: Ring<T>, q: seq<T>) {
    && WellFormed(r)
    && r.count == |q| + 1
    && Stores(r, q, 1)
    && r.inn == Index(r.out, |q| + 1, |r.slots|)
  }

  /** `out` has moved, `count` has not. */
  predicate Left<T(==)>(r: Ring<T>, q: seq<T>) {
    && WellFormed(r)
    && r.count == |q| + 1 <= |r.slots|
    && Stores(r, q, 0)
    && r.inn == Index(r.out, |q|, |r.slots|)
  }

  lemma StoreKeeps<T>(r: Ring<T>, q: seq<T>, x: T)
    requires Represents(r, q) && |q| < |r.slots|
    ensures Stored(StoreSlot(r, x), q, x)
  {
  }

  lemma AdvanceInKeeps<T>(r: Ring<T>, q: seq<T>, x: T)
    requires Stored(r, q, x)
    ensures Entered(AdvanceIn(r), q, x)
  {
    StepIsIndex(r.inn, |r.slots|);
    var r' := AdvanceIn(r);
    forall k | 0 <= k < |q + [x]|
      ensures r'.slots[Index(r'.out, k, |r'.slots|)] == (q + [x])[k]
    {
      if k < |q| {
        assert r.slots[Index(r.out, 0 + k, |r.slots|)] == q[k];
      }
    }
  }

  lemma CountUpKeeps<T>(r: Ring<T>, q: seq<T>, x: T)
    requires Entered(r, q, x)
    ensures Represents(r.(count := r.count + 1), q + [x])
  {
  }

  lemma DropKeeps<T>(r: Ring<T>, q: seq<T>)
    requires Represents(r, q) && q != []
    ensures Dropped(r, q[1..])
  {
  }

  lemma AdvanceOutKeeps<T>(r: Ring<T>, q: seq<T>)
    requires Dropped(r, q)
    ensures Left(AdvanceOut(r), q)
  {
    StepIsIndex(r.out, |r.slots|);
    var r' := AdvanceOut(r);
    forall k | 0 <= k < |q|
      ensures r'.slots[Index(r'.out, 0 + k, |r'.slots|)] == q[k]
    {
      assert r.slots[Index(r.out, 1 + k, |r.slots|)] == q[k];
    }
  }

  lemma CountDownKeeps<T>(r: Ring<T>, q: seq<T>)
    requires Left(r, q)
    ensures Represents(r.(count := r.count - 1), q)
  {
  }

  /** The buffer object, updated in place. */
  class Buffer<T> {
    var inn: nat
    var out: nat
    var count: nat
    var done: bool
    const slots: array<T>

    /** The field values as one value. */
    function View(): Ring<T>
      reads this, slots
    {
      Ring(inn, out, count, done, slots[..])
    }

    ghost predicate Valid()
      reads this, slots
    {
      WellFormed(View()) && count <= slots.Length && inn == (out + count) % slots.Length
    }

    /** The queued elements, oldest first. */
    function Queue(): seq<T>
      reads this, slots
      requires Valid()
    {
      Contents(View())
    }

    lemma Abstraction(q: seq<T>)
      requires WellFormed(View())
      ensures Represents(View(), q) <==> Valid() && Queue() == q
    {
      RepresentsIsContents(View(), q);
    }

    /** `init_buffer`, on zeroed storage of the given capacity. */
    constructor (cap: nat, blank: T)
      requires cap >= 1
      ensures Valid() && Queue() == [] && !done && slots.Length == cap && fresh(slots)
    {
      slots := new T[cap](_ => blank);
      inn, out, count, done := 0, 0, 0, false;
      new;
      ModuloWrap(0, cap);
    }

    /** The producer's part below its wait loop: store the slot, move `in`, raise `count`. */
    method Put(x: T)
      requires Valid() && count < slots.Length
      modifies this`inn, this`count, slots
      ensures Valid() && Queue() == old(Queue()) + [x]
    {
      ghost var q := Queue();
      Abstraction(q);
      StoreKeeps(View(), q, x);
      slots[inn] := x;
      assert View() == StoreSlot(old(View()), x);
      label stored:
      AdvanceInKeeps(View(), q, x);
      inn := (inn + 1) % slots.Length;
      assert View() == AdvanceIn(old@stored(View()));
      CountUpKeeps(View(), q, x);
      count := count + 1;
      Abstraction(q + [x]);
    }

    /** Read the slot at `out`, leaving it in place while its file is copied. */
    method Peek() returns (x: T)
      requires Valid() && Queue() != []
      ensures x == Queue()[0]
    {
      x := slots[out];
    }

    /** The consumer's part after the copy: move `out`, lower `count`. */
    method Drop()
      requires Valid() && Queue() != []
      modifies this`out, this`count
      ensures Valid() && Queue() == old(Queue())[1..]
    {
      ghost var q := Queue();
      Abstraction(q);
      DropKeeps(View(), q);
      AdvanceOutKeeps(View(), q[1..]);
      out := (out + 1) % slots.Length;
      assert View() == AdvanceOut(old(View()));
      CountDownKeeps(View(), q[1..]);
      count := count - 1;
      Abstraction(q[1..]);
    }
  }
}
