/**
  Runs of a deterministic system for given actions: the state they lead to and all the states on the way.
 */
module Traces {

  function After<S, A>(step: (S, A) -> S, s: S, actions: seq<A>): S
    decreases |actions|
  {
    if actions == [] then s else After(step, step(s, actions[0]), actions[1..])
  }

  function Trace<S, A>(step: (S, A) -> S, s: S, actions: seq<A>): (t: seq<S>)
    ensures |t| == |actions| + 1 && t[0] == s
    decreases |actions|
  {
    [s] + if actions == [] then [] else Trace(step, step(s, actions[0]), actions[1..])
  }

  /** Each state of a trace is one step from the one before, and the last is what the actions lead to. */
  lemma {:induction false} TraceSteps<S, A>(step: (S, A) -> S, s: S, actions: seq<A>)
    ensures var t := Trace(step, s, actions);
            t[|actions|] == After(step, s, actions)
    ensures var t := Trace(step, s, actions);
            forall k :: 0 <= k < |actions| ==> t[k + 1] == step(t[k], actions[k])
    decreases |actions|
  {
    if actions != [] {
      TraceSteps(step, step(s, actions[0]), actions[1..]);
    }
  }

  lemma {:induction false} AfterConcat<S, A>(step: (S, A) -> S, s: S, a: seq<A>, b: seq<A>)
    ensures After(step, s, a + b) == After(step, After(step, s, a), b)
    decreases |a|
  {
    if a == [] {
      assert a + b == b;
    } else {
      AfterConcat(step, step(s, a[0]), a[1..], b);
      assert (a + b)[1..] == a[1..] + b;
    }
  }

  /** The states on the way are what the prefixes of the actions lead to. */
  lemma {:induction false} TraceAt<S, A>(step: (S, A) -> S, s: S, actions: seq<A>, k: nat)
    requires k <= |actions|
    ensures Trace(step, s, actions)[k] == After(step, s, actions[..k])
    decreases k
  {
    if k > 0 {
      TraceAt(step, step(s, actions[0]), actions[1..], k - 1);
      assert actions[..k][1..] == actions[1..][..k - 1];
    }
  }

  lemma AfterCons<S, A>(step: (S, A) -> S, s: S, a: A, rest: seq<A>)
    ensures After(step, s, [a] + rest) == After(step, step(s, a), rest)
  {
    assert ([a] + rest)[1..] == rest;
  }

  lemma AfterOne<S, A>(step: (S, A) -> S, s: S, a: A)
    ensures After(step, s, [a]) == step(s, a)
  {
    assert [a][1..] == [];
    assert After(step, step(s, a), []) == step(s, a);
  }

  function Repeat<A>(a: A, n: nat): (w: seq<A>)
    ensures |w| == n && forall k :: 0 <= k < n ==> w[k] == a
  {
    seq(n, _ => a)
  }

  lemma AfterRepeat<S, A>(step: (S, A) -> S, s: S, a: A, n: nat)
    ensures After(step, s, Repeat(a, 0)) == s
    ensures After(step, s, Repeat(a, n + 1)) == After(step, step(s, a), Repeat(a, n))
  {
    assert Repeat(a, n + 1)[1..] == Repeat(a, n);
  }

  lemma ConcatPrefix<A>(a: seq<A>, b: seq<A>, k: nat)
    requires k <= |b|
    ensures (a + b)[..|a| + k] == a + b[..k]
  {
  }

  /** A trace goes on from where its first part has led. */
  lemma TraceGoesOn<S, A>(step: (S, A) -> S, s: S, a: seq<A>, b: seq<A>, j: nat)
    requires j <= |b|
    ensures Trace(step, s, a + b)[|a| + j] == Trace(step, After(step, s, a), b)[j]
  {
    TraceAt(step, s, a + b, |a| + j);
    TraceAt(step, After(step, s, a), b, j);
    ConcatPrefix(a, b, j);
    AfterConcat(step, s, a, b[..j]);
  }

  /** One part of every state, or of every action, of a run. */
  function Mapped<S, T>(part: S -> T, ss: seq<S>): (ts: seq<T>)
    ensures |ts| == |ss| && forall k :: 0 <= k < |ss| ==> ts[k] == part(ss[k])
  {
    seq(|ss|, k requires 0 <= k < |ss| => part(ss[k]))
  }

  /** What each action of a run does to one part, where that depends on the state as well. */
  function MappedPairs<S, A, B>(part: (S, A) -> B, ss: seq<S>, actions: seq<A>): (bs: seq<B>)
    requires |actions| <= |ss|
    ensures |bs| == |actions| && forall k :: 0 <= k < |actions| ==> bs[k] == part(ss[k], actions[k])
  {
    seq(|actions|, k requires 0 <= k < |actions| => part(ss[k], actions[k]))
  }
}
