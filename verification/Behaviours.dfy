/** Finite behaviours of a transition relation. */
module Behaviours {
  ghost predicate IsBehaviour<S(!new)>(first: iset<S>, step: iset<(S, S)>, run: seq<S>) {
    && |run| > 0 && run[0] in first
    && forall i :: 0 <= i < |run| - 1 ==> (run[i], run[i + 1]) in step
  }

  /** The behaviours that end in `s`. */
  ghost function RunsTo<S(!new)>(first: iset<S>, step: iset<(S, S)>, s: S): iset<seq<S>> {
    iset run: seq<S> | IsBehaviour(first, step, run) && run[|run| - 1] == s
  }

  lemma RunStarts<S(!new)>(first: iset<S>, step: iset<(S, S)>, s: S)
    requires s in first
    ensures [s] in RunsTo(first, step, s)
  {
  }

  lemma RunGrows<S(!new)>(first: iset<S>, step: iset<(S, S)>, run: seq<S>, mid: S, s: S)
    requires run in RunsTo(first, step, mid) && (mid, s) in step
    ensures run + [s] in RunsTo(first, step, s)
  {
    var longer := run + [s];
    forall i | 0 <= i < |longer| - 1 ensures (longer[i], longer[i + 1]) in step {
      if i < |run| - 1 {
        assert longer[i] == run[i] && longer[i + 1] == run[i + 1];
      }
    }
  }

  /** A behaviour is one initial state, or ends with a step after a shorter behaviour. */
  lemma RunEnds<S(!new)>(first: iset<S>, step: iset<(S, S)>, run: seq<S>, s: S)
    requires run in RunsTo(first, step, s)
    ensures |run| > 0 && (|run| == 1 ==> s in first)
    ensures |run| > 1 ==> var n := |run| - 1; run[..n] in RunsTo(first, step, run[n - 1]) && (run[n - 1], s) in step
  {
    if |run| > 1 {
      var n := |run| - 1;
      assert (run[n - 1], run[n - 1 + 1]) in step;
    }
  }
}
