/** Runs of a step system: what every schedule of a set of threads keeps. */
module Runs {

  datatype Option<+T> = None | Some(value: T)

  /** The state after a schedule.  A move whose thread is blocked (`None`)
      leaves the state as it is: the scheduler merely tried that thread. */
  function Exec<S, M>(step: (S, M) -> Option<S>, s: S, moves: seq<M>): S
    decreases |moves|
  {
    if moves == [] then s
    else
      var next := match step(s, moves[0]) case None => s case Some(n) => n;
      Exec(step, next, moves[1..])
  }

  /** A property that holds now and that every move keeps holds after every schedule. */
  lemma {:induction false} Invariant<S(!new), M(!new)>(step: (S, M) -> Option<S>, inv: S -> bool, s: S, moves: seq<M>)
    requires inv(s)
    requires forall x, m :: inv(x) && step(x, m).Some? ==> inv(step(x, m).value)
    ensures inv(Exec(step, s, moves))
    decreases |moves|
  {
    if moves != [] {
      var next := match step(s, moves[0]) case None => s case Some(n) => n;
      Invariant(step, inv, next, moves[1..]);
    }
  }

  /** Running one schedule after another. */
  lemma {:induction false} ExecConcat<S, M>(step: (S, M) -> Option<S>, s: S, a: seq<M>, b: seq<M>)
    ensures Exec(step, s, a + b) == Exec(step, Exec(step, s, a), b)
    decreases |a|
  {
    if a == [] {
      assert a + b == b;
    } else {
      var next := match step(s, a[0]) case None => s case Some(n) => n;
      assert (a + b)[1..] == a[1..] + b;
      ExecConcat(step, next, a[1..], b);
    }
  }

  /** Every move of the schedule can be made when its turn comes. */
  predicate Effective<S, M>(step: (S, M) -> Option<S>, s: S, moves: seq<M>)
    decreases |moves|
  {
    moves == [] || (step(s, moves[0]).Some? && Effective(step, step(s, moves[0]).value, moves[1..]))
  }

  lemma {:induction false} EffectiveConcat<S, M>(step: (S, M) -> Option<S>, s: S, a: seq<M>, b: seq<M>)
    requires Effective(step, s, a + b)
    ensures Effective(step, s, a) && Effective(step, Exec(step, s, a), b)
    decreases |a|
  {
    if a == [] {
      assert a + b == b;
    } else {
      assert (a + b)[1..] == a[1..] + b;
      EffectiveConcat(step, step(s, a[0]).value, a[1..], b);
    }
  }

  // ---- The history of a run.

  /** The moves of a schedule that went through. */
  function Made<S, M>(step: (S, M) -> Option<S>, s: S, moves: seq<M>): seq<M>
    decreases |moves|
  {
    if moves == [] then []
    else
      match step(s, moves[0])
      case None => Made(step, s, moves[1..])
      case Some(n) => [moves[0]] + Made(step, n, moves[1..])
  }

  /** What holds of a state and the moves that led to it, and what every further move
      keeps, holds after every schedule. */
  lemma {:induction false} History<S(!new), M(!new)>(
    step: (S, M) -> Option<S>, inv: (S, seq<M>) -> bool, s: S, past: seq<M>, moves: seq<M>)
    requires inv(s, past)
    requires forall x, h, m :: inv(x, h) && step(x, m).Some? ==> inv(step(x, m).value, h + [m])
    ensures inv(Exec(step, s, moves), past + Made(step, s, moves))
    decreases |moves|
  {
    if moves == [] {
      assert past + [] == past;
    } else if step(s, moves[0]).None? {
      History(step, inv, s, past, moves[1..]);
    } else {
      var n := step(s, moves[0]).value;
      History(step, inv, n, past + [moves[0]], moves[1..]);
      assert past + [moves[0]] + Made(step, n, moves[1..]) == past + ([moves[0]] + Made(step, n, moves[1..]));
    }
  }

  /** The moves of a schedule that went through, each with the state it was made in. */
  function Trace<S, M>(step: (S, M) -> Option<S>, s: S, moves: seq<M>): seq<(S, M)>
    decreases |moves|
  {
    if moves == [] then []
    else
      match step(s, moves[0])
      case None => Trace(step, s, moves[1..])
      case Some(n) => [(s, moves[0])] + Trace(step, n, moves[1..])
  }

  /** The same as History, for what refers to the states passed through. */
  lemma {:induction false} Traced<S(!new), M(!new)>(
    step: (S, M) -> Option<S>, inv: (S, seq<(S, M)>) -> bool, s: S, past: seq<(S, M)>, moves: seq<M>)
    requires inv(s, past)
    requires forall x, tr, m :: inv(x, tr) && step(x, m).Some? ==> inv(step(x, m).value, tr + [(x, m)])
    ensures inv(Exec(step, s, moves), past + Trace(step, s, moves))
    decreases |moves|
  {
    if moves == [] {
      assert past + [] == past;
    } else if step(s, moves[0]).None? {
      Traced(step, inv, s, past, moves[1..]);
    } else {
      var n := step(s, moves[0]).value;
      var rest := Trace(step, n, moves[1..]);
      Traced(step, inv, n, past + [(s, moves[0])], moves[1..]);
      assert past + [(s, moves[0])] + rest == past + ([(s, moves[0])] + rest);
    }
  }

  lemma {:induction false} MadeConcat<S, M>(step: (S, M) -> Option<S>, s: S, a: seq<M>, b: seq<M>)
    ensures Made(step, s, a + b) == Made(step, s, a) + Made(step, Exec(step, s, a), b)
    decreases |a|
  {
    if a == [] {
      assert a + b == b;
    } else {
      assert (a + b)[1..] == a[1..] + b;
      MadeConcat(step, match step(s, a[0]) { case None => s case Some(n) => n }, a[1..], b);
    }
  }

  /** In a schedule whose every move can be made, every move is made. */
  lemma {:induction false} EffectiveAreMade<S, M>(step: (S, M) -> Option<S>, s: S, moves: seq<M>)
    requires Effective(step, s, moves)
    ensures Made(step, s, moves) == moves
    decreases |moves|
  {
    if moves != [] {
      EffectiveAreMade(step, step(s, moves[0]).value, moves[1..]);
    }
  }

  /** How often a move has been made. */
  function Count<M(==)>(h: seq<M>, m: M): nat {
    if h == [] then 0 else Count(h[..|h| - 1], m) + if h[|h| - 1] == m then 1 else 0
  }

  lemma CountNext<M>(h: seq<M>, last: M)
    ensures forall m :: Count(h + [last], m) == Count(h, m) + if m == last then 1 else 0
  {
    assert (h + [last])[..|h|] == h;
  }

  /** `%` on a number below twice the modulus wraps at most once. */
  lemma Wraps(x: nat, n: nat)
    requires x < 2 * n
    ensures x % n == if x < n then x else x - n
  {
  }

  // ---- Some schedule leads from one state to another.

  ghost predicate Leads<S(!new), M(!new)>(step: (S, M) -> Option<S>, s: S, n: S) {
    exists moves: seq<M> :: Exec(step, s, moves) == n
  }

  lemma LeadsNowhere<S(!new), M(!new)>(step: (S, M) -> Option<S>, s: S)
    ensures Leads(step, s, s)
  {
    var moves: seq<M> := [];
    assert Exec(step, s, moves) == s;
  }

  lemma LeadsBy<S(!new), M(!new)>(step: (S, M) -> Option<S>, s: S, moves: seq<M>, n: S)
    requires Exec(step, s, moves) == n
    ensures Leads(step, s, n)
  {
  }

  lemma LeadsOn<S(!new), M(!new)>(step: (S, M) -> Option<S>, s: S, t: S, n: S)
    requires Leads(step, s, t) && Leads(step, t, n)
    ensures Leads(step, s, n)
  {
    var a: seq<M> :| Exec(step, s, a) == t;
    var b: seq<M> :| Exec(step, t, b) == n;
    ExecConcat(step, s, a, b);
  }

  lemma LeadsByMove<S(!new), M(!new)>(step: (S, M) -> Option<S>, s: S, t: S, m: M)
    requires Leads(step, s, t) && step(t, m).Some?
    ensures Leads(step, s, step(t, m).value)
  {
    var n := step(t, m).value;
    assert Exec(step, t, [m]) == Exec(step, n, [m][1..]);
    LeadsBy(step, t, [m], n);
    LeadsOn(step, s, t, n);
  }
}
