// Classification of a consistency ratio. The same two thresholds appear
// twice in the application: in the status stored with an expert's
// judgment (app.py:130) and in the verdict shown after the check
// (app.py:647-655). Group analysis keeps a judgment when its ratio is
// below the upper threshold (app.py:722).

module Consistency {
  import opened Sums
  import opened JudgmentMatrix
  import Solver

  /** Below this ratio a judgment is excellent / passes. */
  const ExcellentLimit: real := 0.1
  /** Below this ratio a judgment is still acceptable and is used by the group. */
  const AcceptableLimit: real := 0.2

  /** The status string stored with each judgment (app.py:130). */
  function StoredStatus(cr: real): (status: string)
    ensures status == "excellent" <==> cr < ExcellentLimit
    ensures status == "acceptable" <==> ExcellentLimit <= cr < AcceptableLimit
    ensures status == "unacceptable" <==> AcceptableLimit <= cr
  {
    if cr < 0.1 then "excellent" else if cr < 0.2 then "acceptable" else "unacceptable"
  }

  /** The verdict shown by the consistency check (app.py:647-655):
      pass, acceptable, or fail. */
  datatype Verdict = Pass | Tolerable | Fail

  function DisplayVerdict(cr: real): (v: Verdict)
    ensures v == Pass <==> cr < ExcellentLimit
    ensures v == Tolerable <==> ExcellentLimit <= cr < AcceptableLimit
    ensures v == Fail <==> AcceptableLimit <= cr
  {
    if cr < 0.1 then Pass else if cr < 0.2 then Tolerable else Fail
  }

  /** The stored status and the displayed verdict agree on every ratio. */
  lemma {:induction false} StatusMatchesVerdict(cr: real)
    ensures StoredStatus(cr) == "excellent" <==> DisplayVerdict(cr) == Pass
    ensures StoredStatus(cr) == "acceptable" <==> DisplayVerdict(cr) == Tolerable
    ensures StoredStatus(cr) == "unacceptable" <==> DisplayVerdict(cr) == Fail
  {
  }

  /** A judgment enters the group analysis (cr < 0.2, app.py:722) exactly
      when its stored status is not "unacceptable". */
  lemma {:induction false} GroupFilterMatchesStatus(cr: real)
    ensures cr < AcceptableLimit <==> StoredStatus(cr) != "unacceptable"
  {
  }

  /** A one- or two-criterion matrix always passes: its ratio is 0. */
  lemma {:induction false} SmallMatrixPasses(m: seq<seq<real>>, g: seq<real>)
    requires IsSquare(m) && 1 <= |m| <= 2
    requires Solver.AreGeometricMeans(m, g)
    ensures StoredStatus(Solver.CalculateWeightsAndConsistency(m, g).cr) == "excellent"
    ensures DisplayVerdict(Solver.CalculateWeightsAndConsistency(m, g).cr) == Pass
  {
  }

  /** A perfectly consistent matrix passes. */
  lemma {:induction false} ConsistentMatrixPasses(m: seq<seq<real>>, w: seq<real>, g: seq<real>)
    requires IsSquare(m) && |m| >= 1 && |w| == |m| && AllPositive(w) && Sum(w) == 1.0
    requires Solver.IsConsistentWith(m, w)
    requires Solver.AreGeometricMeans(m, g)
    ensures StoredStatus(Solver.CalculateWeightsAndConsistency(m, g).cr) == "excellent"
  {
    Solver.ConsistentMatrixHasZeroRatio(m, w, g);
  }

  /** The worked four-criterion example passes. */
  lemma {:induction false} ExamplePasses(g: seq<real>)
    requires Solver.AreGeometricMeans(Solver.Example, g)
    ensures IsSquare(Solver.Example)
    ensures StoredStatus(Solver.CalculateWeightsAndConsistency(Solver.Example, g).cr) == "excellent"
  {
    Solver.ExampleRanksFirstRowHighest(g);
  }
}
