/** One growth pass of the pool manager, lines 247-258 of
    thread/thread_pool/thread_pool.c, over the `threads` array in place. */
module GrowthPass {
  import opened Runs
  import opened ThreadPool

  /** Line 252, with the thread ids that are alive. */
  predicate Usable(slot: Option<nat>, alive: set<nat>) { slot.None? || slot.value !in alive }

  function UsableSlots(slots: seq<Option<nat>>, alive: set<nat>): nat {
    if slots == [] then 0
    else UsableSlots(slots[..|slots| - 1], alive) + if Usable(slots[|slots| - 1], alive) then 1 else 0
  }

  lemma {:induction false} PrefixHasFewer(slots: seq<Option<nat>>, alive: set<nat>, k: nat)
    requires k <= |slots|
    ensures UsableSlots(slots[..k], alive) <= UsableSlots(slots, alive)
  {
    if k < |slots| {
      assert slots[..|slots| - 1][..k] == slots[..k];
      PrefixHasFewer(slots[..|slots| - 1], alive, k);
    } else {
      assert slots[..k] == slots;
    }
  }

  function Min(a: int, b: int): int { if a < b then a else b }

  /** What a pass adds: at most the step size, the room below the maximum and the usable slots. */
  function Added(room: int, usable: int): int { Min(DEFAULT_THREAD_VARY, Min(room, usable)) }

  class ThreadTable {
    var threads: array<Option<nat>>
    var live: nat

    /** pthread_create gives the new thread the id `next`, `next + 1`, ...  The pass adds
        exactly `Added` threads, each in a slot that was usable, and touches no other slot. */
    method Grow(maxThr: nat, alive: set<nat>, next: nat) returns (add: nat)
      requires threads.Length == maxThr && live <= maxThr
      requires forall t :: t in alive ==> t < next
      modifies this`live, threads
      ensures threads == old(threads)
      ensures add == Added(maxThr - old(live), UsableSlots(old(threads[..]), alive))
      ensures live == old(live) + add
      ensures forall k :: 0 <= k < maxThr && !Usable(old(threads[k]), alive) ==> threads[k] == old(threads[k])
      ensures forall k :: 0 <= k < maxThr ==>
                threads[k] == old(threads[k]) || (threads[k].Some? && next <= threads[k].value < next + add)
      ensures forall t :: next <= t < next + add ==> Some(t) in threads[..]
      ensures forall j, k :: 0 <= j < k < maxThr && threads[j] != old(threads[j]) && threads[k] != old(threads[k]) ==>
                threads[j] != threads[k]
    {
      ghost var before := threads[..];
      ghost var place: seq<nat> := [];
      add := 0;
      var i := 0;
      while i < maxThr && add < DEFAULT_THREAD_VARY && live < maxThr
        invariant 0 <= i <= maxThr && threads == old(threads) && add <= DEFAULT_THREAD_VARY
        invariant live == old(live) + add <= maxThr
        invariant add == UsableSlots(before[..i], alive)
        invariant forall k :: i <= k < maxThr ==> threads[k] == before[k]
        invariant forall k :: 0 <= k < i && !Usable(before[k], alive) ==> threads[k] == before[k]
        invariant |place| == add
        invariant forall k :: 0 <= k < i ==> threads[k] == before[k] || k in place
        invariant forall a :: 0 <= a < add ==> place[a] < i && threads[place[a]] == Some(next + a)
      {
        assert before[..i + 1][..i] == before[..i];
        if Usable(threads[i], alive) {
          threads[i] := Some(next + add);
          place := place + [i];
          add := add + 1;
          live := live + 1;
        }
        i := i + 1;
      }
      PrefixHasFewer(before, alive, i);
      assert i == maxThr ==> before[..i] == before;
      forall k | 0 <= k < maxThr && threads[k] != before[k] ensures exists a :: 0 <= a < add && place[a] == k {
        assert k in place;
      }
      forall t | next <= t < next + add ensures Some(t) in threads[..] {
        assert threads[..][place[t - next]] == Some(t);
      }
    }
  }
}
