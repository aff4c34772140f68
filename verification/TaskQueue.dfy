/** The ring-buffer task queue of thread/thread_pool/thread_pool.c. */
module TaskQueue {
  import opened Runs

  /** A callback and its argument (lines 23-27), as plain values. */
  datatype Task = Task(function_: nat, arg: int)

  /** `task_queue`, `queue_front`, `queue_rear` and `queue_size` (lines 37-46);
      `queue_max_size` is |slots|. */
  datatype TaskRing = TaskRing(slots: seq<Task>, front: nat, rear: nat, size: nat) {

    ghost predicate Valid() {
      && |slots| > 0
      && front < |slots|
      && size <= |slots|
      && rear == (front + size) % |slots|
    }

    /** The queued tasks, oldest first. */
    ghost function Contents(): seq<Task>
      requires Valid()
    {
      seq(size, k requires 0 <= k < size => slots[(front + k) % |slots|])
    }

    /** Lines 142-151. */
    function Put(t: Task): TaskRing
      requires |slots| > 0 && rear < |slots|
    {
      TaskRing(slots[rear := t], front, (rear + 1) % |slots|, size + 1)
    }

    /** Lines 198-199. */
    function Front(): Task
      requires front < |slots|
    {
      slots[front]
    }

    /** Lines 200-201. */
    function Take(): TaskRing
      requires |slots| > 0 && size > 0
    {
      TaskRing(slots, (front + 1) % |slots|, rear, size - 1)
    }
  }

  /** Adding to a ring with room appends to its contents. */
  lemma PutAppends(r: TaskRing, t: Task)
    requires r.Valid() && r.size < |r.slots|
    ensures r.Put(t).Valid()
    ensures r.Put(t).Contents() == r.Contents() + [t]
  {
    var n := |r.slots|;
    Wraps(r.front + r.size, n);
    Wraps(r.rear + 1, n);
    Wraps(r.front + r.size + 1, n);
    forall k | 0 <= k < r.size + 1
      ensures r.Put(t).Contents()[k] == (r.Contents() + [t])[k]
    {
      Wraps(r.front + k, n);
    }
  }

  /** Lines 137-140 unlock after a shutdown but do not return, so an add then runs
      lines 142-151 without having waited for room.  If no other thread comes between,
      exactly a full ring is ruined; but the add does not hold the lock any more, so two
      of them at once may also lose an update of `queue_rear` or `queue_size`. */
  lemma AddAfterShutdownKeepsRing(r: TaskRing, t: Task)
    requires r.Valid()
    ensures r.Put(t).Valid() <==> r.size < |r.slots|
  {
    if r.size < |r.slots| {
      PutAppends(r, t);
    }
  }

  /** Taking from a ring removes the oldest of its contents. */
  lemma TakeRemovesOldest(r: TaskRing)
    requires r.Valid() && r.size > 0
    ensures r.Take().Valid()
    ensures r.Contents() == [r.Front()] + r.Take().Contents()
  {
    var n := |r.slots|;
    Wraps(r.front + r.size, n);
    Wraps(r.front + 1, n);
    Wraps(r.front, n);
    if r.front + 1 == n { Wraps(r.size - 1, n); } else { Wraps(r.front + 1 + r.size - 1, n); }
    forall k | 0 <= k < r.size
      ensures r.Contents()[k] == ([r.Front()] + r.Take().Contents())[k]
    {
      Wraps(r.front + k, n);
      if k > 0 {
        if r.front + 1 == n { Wraps(k - 1, n); } else { Wraps(r.front + 1 + k - 1, n); }
      }
    }
  }

  /** The queue as the pool keeps it: an array updated in place. */
  class Queue {
    var slots: array<Task>
    var front: nat
    var rear: nat
    var size: nat

    ghost function Ring(): TaskRing
      reads this, slots
    {
      TaskRing(slots[..], front, rear, size)
    }

    /** Lines 84-98. */
    constructor (queueMaxSize: nat)
      requires queueMaxSize > 0
      ensures Ring().Valid() && Ring().Contents() == [] && slots.Length == queueMaxSize && fresh(slots)
    {
      slots := new Task[queueMaxSize](_ => Task(0, 0));
      front, rear, size := 0, 0, 0;
    }

    /** Lines 142-151, reached with the lock held and room in the ring. */
    method Add(t: Task)
      requires Ring().Valid() && size < slots.Length
      modifies this, slots
      ensures slots == old(slots)
      ensures Ring() == old(Ring()).Put(t)
      ensures Ring().Valid() && Ring().Contents() == old(Ring().Contents()) + [t]
    {
      PutAppends(Ring(), t);
      slots[rear] := t;
      rear := (rear + 1) % slots.Length;
      size := size + 1;
    }

    /** Lines 198-201, reached with the lock held and a task queued. */
    method Take() returns (t: Task)
      requires Ring().Valid() && size > 0
      modifies this
      ensures slots == old(slots)
      ensures Ring() == old(Ring()).Take() && t == old(Ring()).Front()
      ensures Ring().Valid() && old(Ring().Contents()) == [t] + Ring().Contents()
    {
      TakeRemovesOldest(Ring());
      t := slots[front];
      front := (front + 1) % slots.Length;
      size := size - 1;
    }
  }
}
