/** The double-buffered, coalescing job queue between the application threads and the
    worker thread of a peer. */
module JobQueue {

  /** A push on the array being filled: an equal pending job absorbs the new one. */
  function Enqueue<T(==)>(q: seq<T>, job: T): seq<T> {
    if job in q then q else q + [job]
  }

  // ---- Runs of pushes and pulls -----------------------------------------------------

  datatype Op<T> = Push(job: T) | Pull

  datatype Buffers<T> = Buffers(filling: seq<T>, executing: seq<T>)

  function Step<T(==)>(b: Buffers<T>, op: Op<T>): Buffers<T> {
    match op
    case Push(j) => b.(filling := Enqueue(b.filling, j))
    case Pull => Buffers([], b.filling)
  }

  function After<T(==)>(ops: seq<Op<T>>): Buffers<T> {
    if ops == [] then Buffers([], []) else Step(After(ops[..|ops| - 1]), ops[|ops| - 1])
  }

  ghost predicate NoDuplicates<T(!new)>(q: seq<T>) {
    forall i, j :: 0 <= i < j < |q| ==> q[i] != q[j]
  }

  /** The jobs pushed since the last pull, in order, repetitions included. */
  function SinceLastPull<T>(ops: seq<Op<T>>): seq<T> {
    if ops == [] then []
    else match ops[|ops| - 1]
      case Push(j) => SinceLastPull(ops[..|ops| - 1]) + [j]
      case Pull => []
  }

  /** The first occurrence of each element, in order. */
  function Firsts<T(==)>(s: seq<T>): seq<T> {
    if s == [] then []
    else
      var init, last := s[..|s| - 1], s[|s| - 1];
      if last in init then Firsts(init) else Firsts(init) + [last]
  }

  lemma {:induction false} FirstsSameElements<T>(s: seq<T>, x: T)
    ensures x in Firsts(s) <==> x in s
  {
    if s != [] {
      var init, last := s[..|s| - 1], s[|s| - 1];
      assert s == init + [last];
      FirstsSameElements(init, x);
      FirstsSameElements(init, last);
    }
  }

  /** Coalescing at every push leaves exactly the first occurrences, in push order. */
  lemma {:induction false} FillingIsFirsts<T>(ops: seq<Op<T>>)
    ensures After(ops).filling == Firsts(SinceLastPull(ops))
  {
    if ops != [] {
      var init := ops[..|ops| - 1];
      FillingIsFirsts(init);
      if ops[|ops| - 1].Push? {
        var job := ops[|ops| - 1].job;
        FirstsSameElements(SinceLastPull(init), job);
        assert SinceLastPull(ops)[..|SinceLastPull(ops)| - 1] == SinceLastPull(init);
      }
    }
  }

  lemma {:induction false} FillingHasNoDuplicates<T(!new)>(ops: seq<Op<T>>)
    ensures NoDuplicates(After(ops).filling)
  {
    if ops != [] {
      FillingHasNoDuplicates(ops[..|ops| - 1]);
    }
  }

  /** A pull hands over the first occurrences of the jobs pushed since the pull before it, and
      pushes never change the batch that is being executed. */
  lemma {:induction false} PulledBatch<T>(ops: seq<Op<T>>, k: nat)
    requires k < |ops| && ops[k].Pull?
    requires forall i :: k < i < |ops| ==> ops[i].Push?
    ensures After(ops).executing == Firsts(SinceLastPull(ops[..k]))
    decreases |ops|
  {
    var init := ops[..|ops| - 1];
    if k == |ops| - 1 {
      FillingIsFirsts(init);
    } else {
      PulledBatch(init, k);
      assert init[..k] == ops[..k];
    }
  }

  /** Every push is answered: the next pull returns an equal job. */
  lemma {:induction false} PushIsPulled<T>(ops: seq<Op<T>>, i: nat, k: nat)
    requires i < k < |ops| && ops[i].Push? && ops[k].Pull?
    requires forall n :: i < n < k ==> ops[n].Push?
    ensures ops[i].job in After(ops[..k + 1]).executing
  {
    var upTo := ops[..k + 1];
    PulledBatch(upTo, k);
    assert upTo[..k] == ops[..k];
    SinceLastPullHas(ops[..k], i);
    FirstsSameElements(SinceLastPull(ops[..k]), ops[i].job);
  }

  lemma {:induction false} SinceLastPullHas<T>(ops: seq<Op<T>>, i: nat)
    requires i < |ops| && ops[i].Push?
    requires forall n :: i < n < |ops| ==> ops[n].Push?
    ensures ops[i].job in SinceLastPull(ops)
    decreases |ops|
  {
    if i < |ops| - 1 {
      SinceLastPullHas(ops[..|ops| - 1], i);
    }
  }

  // ---- A push that has to wait ------------------------------------------------------

  /** The two arrays as the program numbers them. */
  datatype Arrays<T> = Arrays(slot0: seq<T>, slot1: seq<T>, current: bool) {
    function Filling(): seq<T> { if current then slot1 else slot0 }
    function Executing(): seq<T> { if current then slot0 else slot1 }

    function Append(slot: bool, job: T): Arrays<T> {
      if slot then this.(slot1 := slot1 + [job]) else this.(slot0 := slot0 + [job])
    }
  }

  function ArraysStep<T(==)>(a: Arrays<T>, op: Op<T>): Arrays<T> {
    match op
    case Push(j) => if j in a.Filling() then a else a.Append(a.current, j)
    case Pull => if a.current then Arrays([], a.slot1, false) else Arrays(a.slot0, [], true)
  }

  function ArraysAfter<T(==)>(a: Arrays<T>, ops: seq<Op<T>>): Arrays<T>
    decreases |ops|
  {
    if ops == [] then a else ArraysAfter(ArraysStep(a, ops[0]), ops[1..])
  }

  function Pulls<T>(ops: seq<Op<T>>): nat {
    if ops == [] then 0 else (if ops[0].Pull? then 1 else 0) + Pulls(ops[1..])
  }

  /** A push fixes the array it will write before it waits for room. Once it is woken, the job
      lands among the pending ones exactly when an even number of pulls happened meanwhile;
      otherwise it is written into the batch being executed. */
  lemma {:induction false} WaitedPush<T>(a: Arrays<T>, ops: seq<Op<T>>, job: T)
    ensures var woken := ArraysAfter(a, ops);
            var after := woken.Append(a.current, job);
            && (after.Filling() == woken.Filling() + [job] <==> Pulls(ops) % 2 == 0)
            && (after.Executing() == woken.Executing() + [job] <==> Pulls(ops) % 2 == 1)
  {
    CurrentAfter(a, ops);
  }

  lemma {:induction false} CurrentAfter<T>(a: Arrays<T>, ops: seq<Op<T>>)
    ensures ArraysAfter(a, ops).current == a.current <==> Pulls(ops) % 2 == 0
    decreases |ops|
  {
    if ops != [] {
      CurrentAfter(ArraysStep(a, ops[0]), ops[1..]);
    }
  }

  lemma {:induction false} PendingStaysUnique<T(!new)>(a: Arrays<T>, ops: seq<Op<T>>)
    requires NoDuplicates(a.Filling())
    ensures NoDuplicates(ArraysAfter(a, ops).Filling())
    decreases |ops|
  {
    if ops != [] {
      PendingStaysUnique(ArraysStep(a, ops[0]), ops[1..]);
    }
  }

  lemma AppendedTwice<T(!new)>(q: seq<T>, job: T)
    requires NoDuplicates(q)
    ensures NoDuplicates(q + [job]) <==> job !in q
  {
    if job in q {
      var i :| 0 <= i < |q| && q[i] == job;
      assert (q + [job])[i] == (q + [job])[|q|];
    }
  }

  /** The search for an equal job is not repeated after the wait, so this is where the pending jobs
      can come to hold one twice: exactly when an equal job was pushed meanwhile and not pulled. */
  lemma WaitedPushRepeats<T(!new)>(a: Arrays<T>, ops: seq<Op<T>>, job: T)
    requires NoDuplicates(a.Filling())
    ensures var woken := ArraysAfter(a, ops);
            NoDuplicates(woken.Append(a.current, job).Filling())
            <==> !(Pulls(ops) % 2 == 0 && job in woken.Filling())
  {
    PendingStaysUnique(a, ops);
    CurrentAfter(a, ops);
    AppendedTwice(ArraysAfter(a, ops).Filling(), job);
  }

  /** It is also where a job can get lost: the next pull has it exactly when an even number of pulls
      happened meanwhile, or an equal job is pending anyway. Otherwise it was written behind the
      batch being executed, and runs only if the worker has not yet come to the end of that one. */
  lemma WaitedPushIsPulled<T>(a: Arrays<T>, ops: seq<Op<T>>, job: T)
    ensures var woken := ArraysAfter(a, ops);
            job in ArraysStep(woken.Append(a.current, job), Pull).Executing()
            <==> Pulls(ops) % 2 == 0 || job in woken.Filling()
  {
    CurrentAfter(a, ops);
  }

  /** The shortest such case: the queue is full of other jobs, one pull makes room, and the job that
      waited for it is not in the next pull. */
  lemma WaitedPushLost<T>(full: seq<T>, job: T)
    ensures var woken := ArraysAfter(Arrays(full, [], false), [Pull]);
            && woken == Arrays(full, [], true) && woken.Append(false, job).slot0 == full + [job]
            && job !in ArraysStep(woken.Append(false, job), Pull).Executing()
  {
    assert [Op<T>.Pull][1..] == [];
    WaitedPushIsPulled(Arrays(full, [], false), [Pull], job);
  }

  // ---- The queue itself -------------------------------------------------------------

  class Queue<T(==, 0, !new)> {
    var jobs0: array<T>
    var size0: nat
    var jobs1: array<T>
    var size1: nat
    var current: bool
    var stopped: bool
    const maxSize: nat

    ghost predicate Valid()
      reads this, jobs0, jobs1
    {
      && jobs0 != jobs1
      && size0 <= jobs0.Length && size1 <= jobs1.Length
      && |View().Filling()| <= maxSize
      && NoDuplicates(View().Filling())
    }

    ghost function View(): Arrays<T>
      reads this, jobs0, jobs1
      requires size0 <= jobs0.Length && size1 <= jobs1.Length
    {
      Arrays(jobs0[..size0], jobs1[..size1], current)
    }

    ghost function Buffered(): Buffers<T>
      reads this, jobs0, jobs1
      requires size0 <= jobs0.Length && size1 <= jobs1.Length
    {
      Buffers(View().Filling(), View().Executing())
    }

    ghost function Repr(): set<object>
      reads this
    {
      {this, jobs0, jobs1}
    }

    /** There is no room: a push of a job that is not pending yet has to wait. */
    predicate Full()
      reads this
    {
      (if current then size1 else size0) >= maxSize
    }

    constructor (maxSize: nat)
      ensures Valid() && fresh(jobs0) && fresh(jobs1) && this.maxSize == maxSize
      ensures Buffered() == Buffers([], []) && !stopped
    {
      this.maxSize := maxSize;
      jobs0, size0 := new T[0], 0;
      jobs1, size1 := new T[0], 0;
      current, stopped := false, false;
    }

    /** Returns false, changing nothing, when the caller would have to wait for room. */
    method Push(job: T) returns (done: bool)
      requires Valid()
      modifies this`jobs0, this`size0, this`jobs1, this`size1, jobs0, jobs1
      ensures Valid() && fresh({jobs0, jobs1} - old({jobs0, jobs1}))
      ensures done <==> job in old(Buffered().filling) || |old(Buffered().filling)| < maxSize
      ensures Buffered() == if done then Step(old(Buffered()), Op.Push(job)) else old(Buffered())
    {
      var jobs, size := if current then jobs1 else jobs0, if current then size1 else size0;
      var found := Contains(jobs, size, job);
      if found {
        return true;
      }
      if size >= maxSize {
        return false;
      }
      Append(jobs, size, job);
      return true;
    }

    /** Looks for an equal job, the latest first. */
    static method Contains(jobs: array<T>, size: nat, job: T) returns (found: bool)
      requires size <= jobs.Length
      ensures found <==> job in jobs[..size]
    {
      var i := size - 1;
      while i >= 0
        invariant -1 <= i < size
        invariant forall k :: i < k < size ==> jobs[k] != job
      {
        if jobs[i] == job {
          return true;
        }
        i := i - 1;
      }
      return false;
    }

    method Append(jobs: array<T>, size: nat, job: T)
      requires Valid() && job !in Buffered().filling && |Buffered().filling| < maxSize
      requires jobs == (if current then jobs1 else jobs0) && size == if current then size1 else size0
      modifies this`jobs0, this`size0, this`jobs1, this`size1, jobs0, jobs1
      ensures Valid() && fresh({jobs0, jobs1} - old({jobs0, jobs1}))
      ensures Buffered() == Buffers(old(Buffered().filling) + [job], old(Buffered().executing))
    {
      var room := Grown(jobs, size);
      room[size] := job;
      if current {
        jobs1, size1 := room, size + 1;
      } else {
        jobs0, size0 := room, size + 1;
      }
      assert Buffered().filling == old(Buffered().filling) + [job];
    }

    /** Room for one more job: the same array, or a larger copy. */
    method Grown(jobs: array<T>, size: nat) returns (r: array<T>)
      requires size <= jobs.Length
      ensures size < r.Length && r[..size] == jobs[..size]
      ensures r == jobs || fresh(r)
    {
      if size + 1 <= jobs.Length {
        return jobs;
      }
      var capacity := if size + 1 < 10 then 10 else (size + 1) * 3 / 2;
      r := new T[capacity];
      for k := 0 to size
        invariant r[..k] == jobs[..k]
      {
        r[k] := jobs[k];
      }
    }

    /** Returns which array to execute, unless the queue is stopped. The program blocks until
        there is a job or the queue is stopped; the precondition is the end of that wait. */
    method Pull() returns (isStopped: bool, batch: bool)
      requires Valid()
      requires stopped || Buffered().filling != []
      modifies this`size0, this`size1, this`current
      ensures Valid()
      ensures isStopped == stopped && batch == old(current)
      ensures Buffered() == Step(old(Buffered()), Op.Pull)
      ensures jobs0[..] == old(jobs0[..]) && jobs1[..] == old(jobs1[..])
    {
      isStopped, batch := stopped, current;
      current := !current;
      if current {
        size1 := 0;
      } else {
        size0 := 0;
      }
    }

    /** The job at a place of the batch being executed. */
    method JobAt(i: nat) returns (job: T)
      requires Valid() && i < |Buffered().executing|
      ensures job == Buffered().executing[i]
    {
      job := if current then jobs0[i] else jobs1[i];
    }

    method Stop()
      requires Valid()
      modifies this`stopped
      ensures Valid() && stopped && Buffered() == old(Buffered())
    {
      stopped := true;
    }
  }
}
