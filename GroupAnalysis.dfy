// Group analysis of one level (perform_comprehensive_analysis,
// app.py:710-873): gate on the number of experts, keep the judgments
// whose ratio is acceptable, combine their weight vectors by the
// column-wise geometric mean and renormalise, average their ratios, and
// correlate every unordered pair of experts.
//
// The log/exp geometric mean and the Pearson correlation have no exact
// counterpart over the reals; they are parameters. The geometric mean is
// characterised by IsColumnGeometricMean, the correlation is arbitrary.

module GroupAnalysis {
  import opened Sums
  import opened Pairs
  import Solver
  import Consistency

  /** One expert's stored result for the level (get_expert_judgments,
      app.py:140-156): the expert's name, weights and consistency ratio. */
  datatype Judgment = Judgment(name: string, weights: seq<real>, cr: real)

  /** valid_judgments (app.py:722): the judgments whose ratio is below 0.2,
      in the order they are stored. */
  function ValidJudgments(js: seq<Judgment>): (valid: seq<Judgment>)
    ensures |valid| <= |js|
    ensures forall j :: j in valid <==> j in js && j.cr < Consistency.AcceptableLimit
    decreases |js|
  {
    if |js| == 0 then []
    else
      var last := js[|js| - 1];
      ValidJudgments(js[..|js| - 1]) + (if last.cr < 0.2 then [last] else [])
  }

  /** An acceptable judgment is kept as often as it occurs, any other not at all. */
  lemma {:induction false} ValidJudgmentsCount(js: seq<Judgment>)
    ensures forall j ::
      multiset(ValidJudgments(js))[j] == (if j.cr < Consistency.AcceptableLimit then multiset(js)[j] else 0)
    decreases |js|
  {
    if |js| > 0 {
      var prefix, last := js[..|js| - 1], js[|js| - 1];
      assert js == prefix + [last];
      ValidJudgmentsCount(prefix);
    }
  }

  /** Filtering distributes over concatenation, so the filter keeps order. */
  lemma {:induction false} ValidJudgmentsConcat(a: seq<Judgment>, b: seq<Judgment>)
    ensures ValidJudgments(a + b) == ValidJudgments(a) + ValidJudgments(b)
    decreases |b|
  {
    if |b| == 0 {
      assert a + b == a;
    } else {
      var last := b[|b| - 1];
      assert (a + b)[..|a + b| - 1] == a + b[..|b| - 1];
      ValidJudgmentsConcat(a, b[..|b| - 1]);
    }
  }

  /** Filtering an already filtered list changes nothing. */
  lemma {:induction false} ValidJudgmentsIdempotent(js: seq<Judgment>)
    ensures ValidJudgments(ValidJudgments(js)) == ValidJudgments(js)
    decreases |js|
  {
    if |js| > 0 {
      var prefix, last := js[..|js| - 1], js[|js| - 1];
      var kept := if last.cr < 0.2 then [last] else [];
      ValidJudgmentsIdempotent(prefix);
      ValidJudgmentsConcat(ValidJudgments(prefix), kept);
      if last.cr < 0.2 {
        assert [last][..0] == [];
      }
    }
  }

  /** The weight vectors of a list of judgments (all_weights, app.py:732). */
  function WeightsOf(js: seq<Judgment>): (ws: seq<seq<real>>)
    ensures |ws| == |js|
  {
    seq(|js|, k requires 0 <= k < |js| => js[k].weights)
  }

  /** Their consistency ratios (cr_values, app.py:777). */
  function RatiosOf(js: seq<Judgment>): (crs: seq<real>)
    ensures |crs| == |js|
  {
    seq(|js|, k requires 0 <= k < |js| => js[k].cr)
  }

  /** Their names (expert_names, app.py:778 and app.py:873). */
  function NamesOf(js: seq<Judgment>): (names: seq<string>)
    ensures |names| == |js|
  {
    seq(|js|, k requires 0 <= k < |js| => js[k].name)
  }

  /** Every vector has n positive entries. */
  predicate Uniform(ws: seq<seq<real>>, n: nat)
  {
    forall k :: 0 <= k < |ws| ==> |ws[k]| == n && AllPositive(ws[k])
  }

  /** Column i of a list of vectors. */
  function Column(ws: seq<seq<real>>, i: nat): (column: seq<real>)
    requires forall k :: 0 <= k < |ws| ==> i < |ws[k]|
    ensures |column| == |ws|
  {
    seq(|ws|, k requires 0 <= k < |ws| => ws[k][i])
  }

  /** gm is the column-wise geometric mean of ws, exp(mean(log(ws), axis 0)):
      its i-th entry is the positive |ws|-th root of the product of column i. */
  predicate IsColumnGeometricMean(ws: seq<seq<real>>, n: nat, gm: seq<real>)
    requires Uniform(ws, n)
  {
    && |gm| == n
    && forall i :: 0 <= i < n ==> gm[i] > 0.0 && Pow(gm[i], |ws|) == Product(Column(ws, i))
  }

  /** geoMean computes column-wise geometric means of non-empty lists. */
  ghost predicate IsGroupMeanFunction(geoMean: seq<seq<real>> -> seq<real>, n: nat)
  {
    forall ws :: |ws| >= 1 && Uniform(ws, n) ==> IsColumnGeometricMean(ws, n, geoMean(ws))
  }

  /** The correlations of the expert pairs ps, in the order of ps. */
  function CorrelationsOver(valid: seq<Judgment>, corr: (seq<real>, seq<real>) -> real, ps: seq<(nat, nat)>): (cs: seq<real>)
    requires AboveDiagonal(ps, |valid|)
    ensures |cs| == |ps|
  {
    seq(|ps|, t requires 0 <= t < |ps| => corr(valid[ps[t].0].weights, valid[ps[t].1].weights))
  }

  /** The names of the expert pairs ps, in the order of ps. */
  function NamePairsOver(valid: seq<Judgment>, ps: seq<(nat, nat)>): (names: seq<(string, string)>)
    requires AboveDiagonal(ps, |valid|)
    ensures |names| == |ps|
  {
    seq(|ps|, t requires 0 <= t < |ps| => (valid[ps[t].0].name, valid[ps[t].1].name))
  }

  /** One more expert pair appends its correlation and its names. */
  lemma {:induction false} PairsOverSnoc(valid: seq<Judgment>, corr: (seq<real>, seq<real>) -> real,
                                         ps: seq<(nat, nat)>, i: nat, j: nat)
    requires AboveDiagonal(ps, |valid|) && i < j < |valid|
    ensures AboveDiagonal(ps + [(i, j)], |valid|)
    ensures CorrelationsOver(valid, corr, ps + [(i, j)]) ==
      CorrelationsOver(valid, corr, ps) + [corr(valid[i].weights, valid[j].weights)]
    ensures NamePairsOver(valid, ps + [(i, j)]) == NamePairsOver(valid, ps) + [(valid[i].name, valid[j].name)]
  {
    var ps' := ps + [(i, j)];
    assert forall t :: 0 <= t < |ps| ==> ps'[t] == ps[t];
  }

  /** The expert-pair loop (app.py:825-838): one correlation and one name
      pair for each unordered pair i < j of experts, in row-major order. */
  method PairCorrelations(valid: seq<Judgment>, corr: (seq<real>, seq<real>) -> real)
    returns (correlations: seq<real>, expertPairs: seq<(string, string)>)
    ensures correlations == CorrelationsOver(valid, corr, UpperPairs(|valid|))
    ensures expertPairs == NamePairsOver(valid, UpperPairs(|valid|))
    ensures 2 * |correlations| == |valid| * (|valid| - 1)
  {
    var k := |valid|;
    ghost var visited: seq<(nat, nat)> := [];
    correlations, expertPairs := [], [];
    var i := 0;
    while i < k
      invariant i <= k
      invariant visited == RowsBefore(i, k)
      invariant AboveDiagonal(visited, k)
      invariant correlations == CorrelationsOver(valid, corr, visited)
      invariant expertPairs == NamePairsOver(valid, visited)
    {
      var j := i + 1;
      while j < k
        invariant i + 1 <= j <= k
        invariant visited == RowsBefore(i, k) + Row(i, i + 1, j)
        invariant AboveDiagonal(visited, k)
        invariant correlations == CorrelationsOver(valid, corr, visited)
        invariant expertPairs == NamePairsOver(valid, visited)
      {
        PairsOverSnoc(valid, corr, visited, i, j);
        correlations := correlations + [corr(valid[i].weights, valid[j].weights)];
        expertPairs := expertPairs + [(valid[i].name, valid[j].name)];
        visited := visited + [(i, j)];
        j := j + 1;
      }
      i := i + 1;
    }
  }

  /** avg_correlation (app.py:840): the mean, or 0 for no pairs. */
  function AverageCorrelation(correlations: seq<real>): (avg: real)
    ensures |correlations| > 0 ==> avg * (|correlations| as real) == Sum(correlations)
    ensures |correlations| == 0 ==> avg == 0.0
  {
    if |correlations| > 0 then Mean(correlations) else 0.0
  }

  /** A mean of values below a bound is below it. */
  lemma {:induction false} MeanBelow(s: seq<real>, c: real)
    requires |s| > 0
    requires forall k :: 0 <= k < |s| ==> s[k] < c
    ensures Mean(s) < c
  {
    SumBelow(s, c);
  }

  /** Consensus levels: high above 0.8, medium above 0.6, low otherwise. */
  datatype Consensus = High | Medium | Low

  /** The consensus label of one expert pair (app.py:856) and of the group's
      average correlation (app.py:860-865); both use the same strict thresholds. */
  function ConsensusLevel(c: real): (level: Consensus)
    ensures level == High <==> c > 0.8
    ensures level == Medium <==> 0.6 < c <= 0.8
    ensures level == Low <==> c <= 0.6
  {
    if c > 0.8 then High else if c > 0.6 then Medium else Low
  }

  /** analysis_details (app.py:867-873), without the weight-stability figure. */
  datatype Analysis = Analysis(
    groupWeights: seq<real>,
    expertCount: nat,
    averageConsistency: real,
    consensusLevel: real,
    expertNames: seq<string>)

  /** The two early returns of app.py:716-727 and the completed analysis. */
  datatype Outcome =
    | TooFewJudgments(judged: nat)
    | TooFewAcceptable(acceptable: nat)
    | Analysed(analysis: Analysis, expertPairs: seq<(string, string)>, pairCorrelations: seq<real>)

  /** Every acceptable judgment comes from the list, so its weights are uniform too. */
  lemma {:induction false} ValidWeightsUniform(js: seq<Judgment>, n: nat)
    requires Uniform(WeightsOf(js), n)
    ensures Uniform(WeightsOf(ValidJudgments(js)), n)
    ensures forall k :: 0 <= k < |ValidJudgments(js)| ==> ValidJudgments(js)[k].cr < Consistency.AcceptableLimit
  {
    var valid := ValidJudgments(js);
    forall k | 0 <= k < |valid|
      ensures |valid[k].weights| == n && AllPositive(valid[k].weights)
      ensures valid[k].cr < Consistency.AcceptableLimit
    {
      assert valid[k] in valid;
      var t :| 0 <= t < |js| && js[t] == valid[k];
      assert WeightsOf(js)[t] == js[t].weights;
    }
  }

  /** Two or more experts make at least one pair. */
  lemma {:induction false} PairCountPositive(k: nat)
    requires k >= 2
    ensures k * (k - 1) >= 2
  {
    assert k - 1 >= 1;
  }

  /** The group geometric mean of acceptable judgments is n positive values. */
  lemma {:induction false} GroupMeanPositive(valid: seq<Judgment>, n: nat, geoMean: seq<seq<real>> -> seq<real>)
    requires n >= 1 && |valid| >= 1
    requires Uniform(WeightsOf(valid), n)
    requires IsGroupMeanFunction(geoMean, n)
    ensures |geoMean(WeightsOf(valid))| == n && AllPositive(geoMean(WeightsOf(valid)))
  {
    assert IsColumnGeometricMean(WeightsOf(valid), n, geoMean(WeightsOf(valid)));
  }

  /** The average ratio of acceptable judgments is itself acceptable. */
  lemma {:induction false} AverageRatioBelow(valid: seq<Judgment>)
    requires |valid| >= 1
    requires forall k :: 0 <= k < |valid| ==> valid[k].cr < Consistency.AcceptableLimit
    ensures Mean(RatiosOf(valid)) < Consistency.AcceptableLimit
  {
    var crs := RatiosOf(valid);
    forall k | 0 <= k < |crs|
      ensures crs[k] < Consistency.AcceptableLimit
    {
      assert crs[k] == valid[k].cr;
    }
    MeanBelow(crs, Consistency.AcceptableLimit);
  }

  /** The analysis proper (app.py:732-873) over the acceptable judgments,
      given their column-wise geometric mean gm. */
  method AnalyseAcceptable(
    valid: seq<Judgment>, gm: seq<real>,
    corr: (seq<real>, seq<real>) -> real)
    returns (a: Analysis, expertPairs: seq<(string, string)>, correlations: seq<real>)
    requires |valid| >= 2
    requires |gm| >= 1 && AllPositive(gm)
    requires forall k :: 0 <= k < |valid| ==> valid[k].cr < Consistency.AcceptableLimit
    ensures a.groupWeights == Solver.Normalize(gm)
    ensures |a.groupWeights| == |gm| && AllPositive(a.groupWeights) && Sum(a.groupWeights) == 1.0
    ensures a.expertCount == |valid|
    ensures a.expertNames == NamesOf(valid)
    ensures a.averageConsistency == Mean(RatiosOf(valid)) < Consistency.AcceptableLimit
    ensures correlations == CorrelationsOver(valid, corr, UpperPairs(|valid|))
    ensures expertPairs == NamePairsOver(valid, UpperPairs(|valid|))
    ensures 2 * |correlations| == |valid| * (|valid| - 1) && |correlations| >= 1
    ensures a.consensusLevel == Mean(correlations)
  {
    var groupWeights := Solver.Normalize(gm);
    correlations, expertPairs := PairCorrelations(valid, corr);
    PairCountPositive(|valid|);
    var avgCorrelation := AverageCorrelation(correlations);
    AverageRatioBelow(valid);
    var crs := RatiosOf(valid);
    a := Analysis(groupWeights, |valid|, Mean(crs), avgCorrelation, NamesOf(valid));
  }

  /** perform_comprehensive_analysis for one level (app.py:710-873): n is
      the number of criteria of the level, and every stored weight vector
      has n positive entries (they come from the solver). */
  method PerformComprehensiveAnalysis(
    js: seq<Judgment>, n: nat,
    geoMean: seq<seq<real>> -> seq<real>,
    corr: (seq<real>, seq<real>) -> real)
    returns (outcome: Outcome)
    requires n >= 1
    requires Uniform(WeightsOf(js), n)
    requires IsGroupMeanFunction(geoMean, n)
    ensures |js| < 2 <==> outcome == TooFewJudgments(|js|)
    ensures (|js| >= 2 && |ValidJudgments(js)| < 2) <==> outcome == TooFewAcceptable(|ValidJudgments(js)|)
    ensures outcome.Analysed? <==> |js| >= 2 && |ValidJudgments(js)| >= 2
    ensures outcome.Analysed? ==>
      && outcome.analysis.expertCount == |ValidJudgments(js)|
      && outcome.analysis.expertNames == NamesOf(ValidJudgments(js))
      && outcome.analysis.averageConsistency == Mean(RatiosOf(ValidJudgments(js)))
      && outcome.analysis.averageConsistency < Consistency.AcceptableLimit
      && Uniform(WeightsOf(ValidJudgments(js)), n)
      && IsColumnGeometricMean(WeightsOf(ValidJudgments(js)), n, geoMean(WeightsOf(ValidJudgments(js))))
      && outcome.analysis.groupWeights == Solver.Normalize(geoMean(WeightsOf(ValidJudgments(js))))
      && |outcome.analysis.groupWeights| == n
      && AllPositive(outcome.analysis.groupWeights)
      && Sum(outcome.analysis.groupWeights) == 1.0
      && outcome.pairCorrelations == CorrelationsOver(ValidJudgments(js), corr, UpperPairs(|ValidJudgments(js)|))
      && outcome.expertPairs == NamePairsOver(ValidJudgments(js), UpperPairs(|ValidJudgments(js)|))
      && |outcome.pairCorrelations| >= 1
      && outcome.analysis.consensusLevel == Mean(outcome.pairCorrelations)
  {
    if |js| < 2 {
      return TooFewJudgments(|js|);
    }
    var valid := ValidJudgments(js);
    if |valid| < 2 {
      return TooFewAcceptable(|valid|);
    }
    ValidWeightsUniform(js, n);
    GroupMeanPositive(valid, n, geoMean);
    var gm := geoMean(WeightsOf(valid));
    var analysis, expertPairs, correlations := AnalyseAcceptable(valid, gm, corr);
    outcome := Analysed(analysis, expertPairs, correlations);
  }
}
