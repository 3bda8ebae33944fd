/** What the checker's verdict on a table says of the module emitted from it. */
module TlaVerdict {
  import opened Formulas
  import opened Parser
  import opened Models
  import opened Tables
  import opened Search
  import opened Explorer
  import opened Kinds
  import opened Checker
  import opened Tla

  /** The i-th invariant is what its text says, and stays within one kind. */
  lemma ClaimTree(m: Machine, p: Model, i: nat)
    requires Reads(m, p) && i < |m.invariants|
    ensures i < |p.invariants| && Formula(m.invariants[i].formula) == Ok(p.invariants[i]) && m.invariants[i] in m.invariants
  {
    assert ReadsClaim(m.invariants[i], p.invariants[i]);
  }

  lemma AcceptedHolds(m: Machine, p: Model, kinds: Kinding, states: nat, terminals: nat, i: nat)
    requires Reads(m, p) && WellKinded(p, kinds) && ModuleReads(Emit(m)) && Vouches(p, states, terminals)
    requires i < |p.invariants| == |m.invariants| && Kinded(p.invariants[i], kinds)
    ensures TlaInvariant(Emit(m), m.invariants[i].formula)
  {
    KindsTellApart(p, kinds);
    ClaimTree(m, p, i);
    InvariantAgrees(m, p, kinds, m.invariants[i], p.invariants[i]);
    assert Invariant(p, p.invariants[i]);
  }

  lemma FailedFails(m: Machine, p: Model, kinds: Kinding, v: Verdict, i: nat)
    requires Reads(m, p) && WellKinded(p, kinds) && ModuleReads(Emit(m)) && Refutes(p, v)
    requires v.InvariantFailed? && v.index == i < |p.invariants| == |m.invariants| && Kinded(p.invariants[i], kinds)
    ensures !TlaInvariant(Emit(m), m.invariants[i].formula)
  {
    ClaimTree(m, p, i);
    InvariantAgrees(m, p, kinds, m.invariants[i], p.invariants[i]);
    assert Reachable(p, v.state);
  }

  /**
   For a well-kinded table whose module TLA+ accepts: once the checker accepts the table every emitted invariant is true
   in TLA+, and an invariant the checker finds broken is broken there too.
   */
  lemma VerdictCarriesOver(m: Machine, p: Model, kinds: Kinding, fuel: nat, out: Outcome, i: nat)
    requires Reads(m, p) && WellKinded(p, kinds) && ModuleReads(Emit(m)) && Stands(p, fuel, out)
    requires i < |p.invariants| == |m.invariants| && Kinded(p.invariants[i], kinds)
    ensures out.Accepted? ==> TlaInvariant(Emit(m), m.invariants[i].formula)
    ensures out.Failed? && out.verdict.InvariantFailed? && out.verdict.index == i ==>
      !TlaInvariant(Emit(m), m.invariants[i].formula)
  {
    if out.Accepted? {
      AcceptedHolds(m, p, kinds, out.report.states, out.report.terminals, i);
    } else if out.Failed? && out.verdict.InvariantFailed? && out.verdict.index == i {
      FailedFails(m, p, kinds, out.verdict, i);
    }
  }
}
