/** The whole check of one table: build it, explore it, report. */
module Checker {
  import opened Basics
  import opened Formulas
  import opened Compiler
  import opened Models
  import opened Tables
  import opened Search
  import opened Explorer

  datatype Report = Report(name: string, states: nat, terminals: nat, invariants: seq<string>, witnesses: seq<string>)

  datatype Outcome = Accepted(report: Report) | Refused(fault: Fault) | Failed(verdict: Verdict)

  function ClaimNames(claims: seq<Claim>): seq<string> {
    seq(|claims|, i requires 0 <= i < |claims| => claims[i].name)
  }

  /** What an accepted table has been shown to satisfy, for every reachable state. */
  ghost predicate Verified(m: Model) {
    && (forall st :: Reachable(m, st) ==> Clean(m, st) && Lively(m, st))
    && (forall w :: 0 <= w < |m.witnesses| ==>
          exists st :: Reachable(m, st) && Truth(m.fields, m.witnesses[w], st) == Ok(true))
  }

  /** The states and terminal states of a model, counted. */
  ghost predicate Counts(m: Model, states: nat, terminals: nat) {
    exists all: seq<State> ::
      && Distinct(all) && (forall st :: st in all <==> Reachable(m, st))
      && states == |all| && terminals == StuckCount(m, all)
  }

  lemma ConfirmedIsVerified(m: Model, visited: seq<State>, out: Verdict)
    requires Confirms(m, visited, out) && Distinguishable(m)
    requires Distinct(visited) && forall st :: st in visited ==> Reachable(m, st)
    ensures Verified(m) && Counts(m, out.states, out.terminals)
  {
    forall w | 0 <= w < |m.witnesses|
      ensures exists st :: Reachable(m, st) && Truth(m.fields, m.witnesses[w], st) == Ok(true)
    {
      assert Witnessed(m, w, visited);
      var i :| 0 <= i < |visited| && Truth(m.fields, m.witnesses[w], visited[i]) == Ok(true);
      assert visited[i] in visited;
    }
  }

  /** What acceptance claims of the model. */
  ghost predicate Vouches(m: Model, states: nat, terminals: nat) {
    Distinguishable(m) ==> Verified(m) && Counts(m, states, terminals)
  }

  lemma ConfirmedIsVouched(m: Model, visited: seq<State>, out: Verdict)
    requires Confirms(m, visited, out)
    requires Distinct(visited) && forall st :: st in visited ==> Reachable(m, st)
    ensures Vouches(m, out.states, out.terminals)
  {
    if Distinguishable(m) {
      ConfirmedIsVerified(m, visited, out);
    }
  }

  function OutcomeOf(m: Machine, v: Verdict): Outcome {
    if v.Passed? then Accepted(Report(m.name, v.states, v.terminals, ClaimNames(m.invariants), ClaimNames(m.witnesses)))
    else Failed(v)
  }

  lemma OutcomeStands(m: Machine, model: Model, fuel: nat, visited: seq<State>, v: Verdict, out: Outcome)
    requires Means(model, fuel, visited, v) && out == OutcomeOf(m, v)
    requires Distinct(visited) && forall st :: st in visited ==> Reachable(model, st)
    ensures out.Accepted? ==> Vouches(model, out.report.states, out.report.terminals)
    ensures out.Failed? ==> out.verdict.Unfinished? || Refutes(model, out.verdict)
  {
    if v.Passed? {
      ConfirmedIsVouched(model, visited, v);
    }
  }

  /** What an outcome of a table's exploration says. */
  ghost predicate Stands(model: Model, fuel: nat, out: Outcome) {
    && (out.Accepted? ==> Vouches(model, out.report.states, out.report.terminals))
    && (out.Failed? ==> out.verdict.Unfinished? || Refutes(model, out.verdict))
    && (Enough(model, fuel) ==> out != Failed(Unfinished))
  }

  method Examine(m: Machine, model: Model, b: Build, fuel: nat) returns (out: Outcome)
    requires ImplementsModel(model, b)
    ensures !out.Refused? && Stands(model, fuel, out)
    ensures out.Accepted? ==>
      && out.report.name == m.name
      && out.report.invariants == ClaimNames(m.invariants) && out.report.witnesses == ClaimNames(m.witnesses)
  {
    var verdict;
    ghost var visited;
    verdict, visited := Explore(model, b, fuel);
    out := OutcomeOf(m, verdict);
    OutcomeStands(m, model, fuel, visited, verdict, out);
  }

  /**
   A table is refused before exploration exactly for the first check it fails. Otherwise the
   outcome speaks of the model its texts denote: acceptance, for states that can be told
   apart, verifies every claim and counts the states; a failure refutes the table.
   */
  method CheckMachine(m: Machine, fuel: nat) returns (out: Outcome, ghost model: Model)
    ensures TableFault(m) == if out.Refused? then Some(out.fault) else None
    ensures !out.Refused? ==> Reads(m, model)
    ensures out.Accepted? ==>
      && out.report.name == m.name
      && out.report.invariants == ClaimNames(m.invariants) && out.report.witnesses == ClaimNames(m.witnesses)
    ensures out.Refused? || Stands(model, fuel, out)
  {
    var built := BuildTable(m);
    if built.Raise? {
      model := Plan([], [], [], [], [], Flag(""));
      return Refused(built.fault), model;
    }
    model := built.value.0;
    out := Examine(m, built.value.0, built.value.1, fuel);
  }
}
