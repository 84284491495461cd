// The evaluation system and the composed weight hierarchy of the export
// page (export_comprehensive_results, app.py:899-961): the group weights
// of every analysed level are collected by level name, then each
// top-level criterion contributes a row with its own weight followed, when
// its sub-level was analysed, by one row per sub-criterion whose absolute
// weight is the product of the two.

module Hierarchy {
  import opened Wrappers
  import opened Sums
  import GroupAnalysis

  // ---------------------------------------------------------------------
  // The evaluation system (get_evaluation_system, app.py:214-254)

  /** The key of the top level, also the name of its analysis. */
  const TopLevel: string := "一级指标"
  /** The key under which the sub-criteria are listed, also the level label of sub rows. */
  const SubLevel: string := "二级指标"

  /** The top-level criteria, in the order of the form. */
  const TopCriteria: seq<string> := [
    "B1: 系统性认知",
    "B2: 构建式能力",
    "B3: 创造与思辨",
    "B4: 人本与责任"
  ]

  const B1SubCriteria: seq<string> := [
    "C11: 数据与知识",
    "C12: 算法与模型",
    "C13: 算力与系统",
    "C14: 交叉与应用",
    "C15: 可信与安全"
  ]

  const B2SubCriteria: seq<string> := [
    "C21: 问题抽象与定义",
    "C22: 分解与模块化",
    "C23: 工具选择与模型构建",
    "C24: 验证、评估与迭代",
    "C25: 结果解释与沟通"
  ]

  const B3SubCriteria: seq<string> := [
    "C31: 跨情境迁移与应用",
    "C32: 事实核查与逻辑批判",
    "C33: 自主规划与个性化学习",
    "C34: 主动探索与创造",
    "C35: 学习过程反思与元认知"
  ]

  const B4SubCriteria: seq<string> := [
    "C41: 数据安全与隐私保护",
    "C42: 算法偏差与模型幻觉",
    "C43: AI向善和以人为本",
    "C44: 人机协同的责任界定",
    "C45: 知识普惠与社会公平"
  ]

  /** The sub-criteria of each top criterion. */
  const SubCriteria: map<string, seq<string>> := map[
    "B1: 系统性认知" := B1SubCriteria,
    "B2: 构建式能力" := B2SubCriteria,
    "B3: 创造与思辨" := B3SubCriteria,
    "B4: 人本与责任" := B4SubCriteria
  ]

  // ---------------------------------------------------------------------
  // str.split on a single separator character

  /** Python's s.split(sep): the maximal runs between separators, so one
      more field than there are separators. */
  function Split(s: string, sep: char): (fields: seq<string>)
    ensures |fields| >= 1
    decreases |s|
  {
    if |s| == 0 then [""]
    else
      var rest := Split(s[..|s| - 1], sep);
      var c := s[|s| - 1];
      if c == sep then rest + [""]
      else rest[..|rest| - 1] + [rest[|rest| - 1] + [c]]
  }

  /** A split has one more field than the string has separators. */
  lemma {:induction false} SplitFieldCount(s: string, sep: char)
    ensures |Split(s, sep)| == multiset(s)[sep] + 1
    decreases |s|
  {
    if |s| > 0 {
      var prefix := s[..|s| - 1];
      assert s == prefix + [s[|s| - 1]];
      SplitFieldCount(prefix, sep);
    }
  }

  /** sep.join(fields). */
  function Join(fields: seq<string>, sep: char): string
    requires |fields| >= 1
    decreases |fields|
  {
    if |fields| == 1 then fields[0]
    else Join(fields[..|fields| - 1], sep) + [sep] + fields[|fields| - 1]
  }

  /** Joining one more field appends the separator and that field. */
  lemma {:induction false} JoinSnoc(fields: seq<string>, f: string, sep: char)
    requires |fields| >= 1
    ensures Join(fields + [f], sep) == Join(fields, sep) + [sep] + f
  {
    assert (fields + [f])[..|fields|] == fields;
  }

  /** Extending the last field extends the joined string. */
  lemma {:induction false} JoinExtendLast(fields: seq<string>, t: string, sep: char)
    requires |fields| >= 1
    ensures Join(fields[..|fields| - 1] + [fields[|fields| - 1] + t], sep) == Join(fields, sep) + t
  {
    var r := |fields|;
    var init, last := fields[..r - 1], fields[r - 1];
    if r == 1 {
      assert init + [last + t] == [last + t];
    } else {
      JoinSnoc(init, last + t, sep);
    }
  }

  /** Splitting after one more character that is not the separator
      extends the last field. */
  lemma {:induction false} SplitSnocChar(s: string, c: char, sep: char)
    requires c != sep
    ensures Split(s + [c], sep) ==
      Split(s, sep)[..|Split(s, sep)| - 1] + [Split(s, sep)[|Split(s, sep)| - 1] + [c]]
  {
    assert (s + [c])[..|s|] == s;
  }

  /** Splitting after one more separator starts an empty field. */
  lemma {:induction false} SplitSnocSeparator(s: string, sep: char)
    ensures Split(s + [sep], sep) == Split(s, sep) + [""]
  {
    assert (s + [sep])[..|s|] == s;
  }

  /** Joining the fields of a split gives the string back. */
  lemma {:induction false} SplitJoin(s: string, sep: char)
    ensures Join(Split(s, sep), sep) == s
    decreases |s|
  {
    if |s| > 0 {
      var prefix, c := s[..|s| - 1], s[|s| - 1];
      assert s == prefix + [c];
      SplitJoin(prefix, sep);
      var rest := Split(prefix, sep);
      if c == sep {
        SplitSnocSeparator(prefix, sep);
        JoinSnoc(rest, "", sep);
      } else {
        SplitSnocChar(prefix, c, sep);
        JoinExtendLast(rest, [c], sep);
      }
    }
  }

  /** No field of a split contains the separator. */
  lemma {:induction false} SplitFieldsOmitSeparator(s: string, sep: char)
    ensures forall k :: 0 <= k < |Split(s, sep)| ==> sep !in Split(s, sep)[k]
    decreases |s|
  {
    if |s| > 0 {
      var prefix, c := s[..|s| - 1], s[|s| - 1];
      assert s == prefix + [c];
      SplitFieldsOmitSeparator(prefix, sep);
      var rest := Split(prefix, sep);
      if c == sep {
        SplitSnocSeparator(prefix, sep);
      } else {
        SplitSnocChar(prefix, c, sep);
        assert sep !in rest[|rest| - 1] + [c];
      }
    }
  }

  /** Appending text without a separator extends the last field. */
  lemma {:induction false} SplitAppend(a: string, b: string, sep: char)
    requires sep !in b
    ensures Split(a + b, sep) ==
      Split(a, sep)[..|Split(a, sep)| - 1] + [Split(a, sep)[|Split(a, sep)| - 1] + b]
    decreases |b|
  {
    var f := Split(a, sep);
    var init, last := f[..|f| - 1], f[|f| - 1];
    if |b| == 0 {
      assert a + b == a;
      assert last + b == last;
      assert init + [last] == f;
    } else {
      var b', c := b[..|b| - 1], b[|b| - 1];
      SplitAppend(a, b', sep);
      assert a + b == (a + b') + [c];
      SplitSnocChar(a + b', c, sep);
      var rest := Split(a + b', sep);
      assert rest == init + [last + b'];
      assert rest[..|rest| - 1] == init;
      assert (last + b') + [c] == last + b;
    }
  }

  /** "code:name" with no other separator splits into exactly [code, name]. */
  lemma {:induction false} SplitCodeName(code: string, name: string, sep: char)
    requires sep !in code && sep !in name
    ensures Split(code + [sep] + name, sep) == [code, name]
  {
    SplitAppend([], code, sep);
    assert [] + code == code;
    assert (code + [sep])[..|code|] == code;
    assert Split(code + [sep], sep) == [code, ""];
    SplitAppend(code + [sep], name, sep);
    assert [code, ""][..1] == [code] && "" + name == name;
  }

  /** The code of a criterion, criterion.split(':')[0]. */
  function Code(criterion: string): string
  {
    Split(criterion, ':')[0]
  }

  /** A criterion with a colon has a code and a name. */
  predicate HasCode(criterion: string)
  {
    ':' in criterion
  }

  /** A separator in the string gives at least two fields. */
  lemma {:induction false} SeparatorGivesTwoFields(s: string, sep: char)
    requires sep in s
    ensures |Split(s, sep)| >= 2
    decreases |s|
  {
    var prefix, c := s[..|s| - 1], s[|s| - 1];
    assert s == prefix + [c];
    if c != sep {
      SeparatorGivesTwoFields(prefix, sep);
    }
  }

  /** The name of a criterion, criterion.split(':')[1]; the source fails
      with an index error on a criterion without a colon. */
  function Name(criterion: string): string
    requires HasCode(criterion)
  {
    SeparatorGivesTwoFields(criterion, ':');
    Split(criterion, ':')[1]
  }

  /** "code:name" has that code and that name. */
  lemma {:induction false} CriterionSplits(criterion: string, code: string, name: string)
    requires criterion == code + ":" + name
    requires ':' !in code && ':' !in name
    ensures HasCode(criterion) && Code(criterion) == code && Name(criterion) == name
  {
    SplitCodeName(code, name, ':');
    assert code + ":" + name == code + [':'] + name;
    assert criterion[|code|] == ':';
  }

  /** Every top criterion has a code and a name, and its sub-criteria are listed. */
  lemma {:induction false} TopCriteriaHaveCodes()
    ensures forall c :: c in TopCriteria ==> HasCode(c) && c in SubCriteria
  {
    assert "B1: 系统性认知"[2] == ':';
    assert "B2: 构建式能力"[2] == ':';
    assert "B3: 创造与思辨"[2] == ':';
    assert "B4: 人本与责任"[2] == ':';
  }

  lemma {:induction false} SubCriteriaOfB1HaveCodes()
    ensures forall s :: s in B1SubCriteria ==> HasCode(s)
  {
    forall t | 0 <= t < |B1SubCriteria|
      ensures HasCode(B1SubCriteria[t])
    {
      if t == 0 {
        assert "C11: 数据与知识"[3] == ':';
      } else if t == 1 {
        assert "C12: 算法与模型"[3] == ':';
      } else if t == 2 {
        assert "C13: 算力与系统"[3] == ':';
      } else if t == 3 {
        assert "C14: 交叉与应用"[3] == ':';
      } else {
        assert "C15: 可信与安全"[3] == ':';
      }
    }
  }


  lemma {:induction false} SubCriteriaOfB2HaveCodes()
    ensures forall s :: s in B2SubCriteria ==> HasCode(s)
  {
    forall t | 0 <= t < |B2SubCriteria|
      ensures HasCode(B2SubCriteria[t])
    {
      if t == 0 {
        assert "C21: 问题抽象与定义"[3] == ':';
      } else if t == 1 {
        assert "C22: 分解与模块化"[3] == ':';
      } else if t == 2 {
        assert "C23: 工具选择与模型构建"[3] == ':';
      } else if t == 3 {
        assert "C24: 验证、评估与迭代"[3] == ':';
      } else {
        assert "C25: 结果解释与沟通"[3] == ':';
      }
    }
  }


  lemma {:induction false} SubCriteriaOfB3HaveCodes()
    ensures forall s :: s in B3SubCriteria ==> HasCode(s)
  {
    forall t | 0 <= t < |B3SubCriteria|
      ensures HasCode(B3SubCriteria[t])
    {
      if t == 0 {
        assert "C31: 跨情境迁移与应用"[3] == ':';
      } else if t == 1 {
        assert "C32: 事实核查与逻辑批判"[3] == ':';
      } else if t == 2 {
        assert "C33: 自主规划与个性化学习"[3] == ':';
      } else if t == 3 {
        assert "C34: 主动探索与创造"[3] == ':';
      } else {
        assert "C35: 学习过程反思与元认知"[3] == ':';
      }
    }
  }


  lemma {:induction false} SubCriteriaOfB4HaveCodes()
    ensures forall s :: s in B4SubCriteria ==> HasCode(s)
  {
    forall t | 0 <= t < |B4SubCriteria|
      ensures HasCode(B4SubCriteria[t])
    {
      if t == 0 {
        assert "C41: 数据安全与隐私保护"[3] == ':';
      } else if t == 1 {
        assert "C42: 算法偏差与模型幻觉"[3] == ':';
      } else if t == 2 {
        assert "C43: AI向善和以人为本"[3] == ':';
      } else if t == 3 {
        assert "C44: 人机协同的责任界定"[3] == ':';
      } else {
        assert "C45: 知识普惠与社会公平"[3] == ':';
      }
    }
  }


  /** Every criterion of the evaluation system has a code and a name. */
  lemma {:induction false} EvaluationSystemHasCodes()
    ensures forall c :: c in TopCriteria ==> HasCode(c) && c in SubCriteria
    ensures forall i, j :: 0 <= i < |TopCriteria| && 0 <= j < |SubCriteria[TopCriteria[i]]| ==>
      HasCode(SubCriteria[TopCriteria[i]][j])
  {
    TopCriteriaHaveCodes();
    SubCriteriaOfB1HaveCodes();
    SubCriteriaOfB2HaveCodes();
    SubCriteriaOfB3HaveCodes();
    SubCriteriaOfB4HaveCodes();
    forall i, j | 0 <= i < |TopCriteria| && 0 <= j < |SubCriteria[TopCriteria[i]]|
      ensures HasCode(SubCriteria[TopCriteria[i]][j])
    {
      var subs := SubCriteria[TopCriteria[i]];
      assert subs in [B1SubCriteria, B2SubCriteria, B3SubCriteria, B4SubCriteria];
      assert subs[j] in subs;
    }
  }

  // ---------------------------------------------------------------------
  // Collecting the analysed levels (app.py:906-921)

  /** level_weights: the group weights of every level whose analysis
      completed, under the level's name; a later level of the same name
      replaces an earlier one, as a dictionary assignment does. */
  function CollectLevelWeights(levels: seq<string>, outcomes: seq<GroupAnalysis.Outcome>): (lw: map<string, seq<real>>)
    requires |levels| == |outcomes|
    ensures forall key :: key in lw <==>
      exists k :: 0 <= k < |levels| && levels[k] == key && outcomes[k].Analysed?
    decreases |levels|
  {
    if |levels| == 0 then map[]
    else
      var n := |levels| - 1;
      var earlier := CollectLevelWeights(levels[..n], outcomes[..n]);
      if outcomes[n].Analysed? then earlier[levels[n] := outcomes[n].analysis.groupWeights]
      else earlier
  }

  /** A completed analysis that no later level of the same name follows
      is the one whose weights are kept. */
  lemma {:induction false} LatestAnalysisKept(levels: seq<string>, outcomes: seq<GroupAnalysis.Outcome>, k: nat)
    requires |levels| == |outcomes| && k < |levels|
    requires outcomes[k].Analysed?
    requires forall k' :: k < k' < |levels| ==> levels[k'] != levels[k]
    ensures levels[k] in CollectLevelWeights(levels, outcomes)
    ensures CollectLevelWeights(levels, outcomes)[levels[k]] == outcomes[k].analysis.groupWeights
    decreases |levels|
  {
    var n := |levels| - 1;
    var before, earlier := levels[..n], outcomes[..n];
    var lw := CollectLevelWeights(before, earlier);
    assert CollectLevelWeights(levels, outcomes) ==
      if outcomes[n].Analysed? then lw[levels[n] := outcomes[n].analysis.groupWeights] else lw;
    if k < n {
      assert before[k] == levels[k] && earlier[k] == outcomes[k];
      assert forall k' :: k < k' < n ==> before[k'] == levels[k'];
      LatestAnalysisKept(before, earlier, k);
      assert levels[n] != levels[k];
    }
  }

  // ---------------------------------------------------------------------
  // The hierarchy rows (app.py:929-961)

  /** The level column of a row: the top level's label or the sub level's. */
  datatype Level = Top | Sub

  function LevelLabel(level: Level): string
  {
    if level == Top then TopLevel else SubLevel
  }

  /** One row of the exported table: level label, code, name, absolute
      weight, relative weight (1 for a top criterion, its own sub weight
      for a sub-criterion) and the explanatory note. */
  datatype HierarchyRow = HierarchyRow(
    level: Level, code: string, name: string,
    absolute: real, relative: real, note: string)

  function TopRow(criterion: string, weight: real): HierarchyRow
    requires HasCode(criterion)
  {
    HierarchyRow(Top, Code(criterion), Name(criterion), weight, 1.0, "核心能力维度")
  }

  function SubRow(criterion: string, topWeight: real, subCriterion: string, subWeight: real): HierarchyRow
    requires HasCode(subCriterion)
  {
    HierarchyRow(Sub, Code(subCriterion), Name(subCriterion), topWeight * subWeight, subWeight,
      criterion + "的具体表现")
  }

  /** What the export needs of its inputs: a top weight per top criterion,
      and for every analysed top criterion its sub-criteria and a weight
      for each of them; every criterion carries a colon. A missing key or a
      short weight vector makes the source fail. */
  predicate WellFormed(lw: map<string, seq<real>>, top: seq<string>, sub: map<string, seq<string>>)
  {
    && (TopLevel in lw ==> |lw[TopLevel]| >= |top|)
    && (forall i :: 0 <= i < |top| ==> HasCode(top[i]))
    && (forall i :: 0 <= i < |top| && top[i] in lw ==>
          top[i] in sub && |lw[top[i]]| >= |sub[top[i]]|
          && forall j :: 0 <= j < |sub[top[i]]| ==> HasCode(sub[top[i]][j]))
  }

  /** The sub rows of one criterion, for its first `upto` sub-criteria. */
  function SubRows(criterion: string, topWeight: real, names: seq<string>, weights: seq<real>, upto: nat): (rows: seq<HierarchyRow>)
    requires upto <= |names| <= |weights|
    requires forall j :: 0 <= j < |names| ==> HasCode(names[j])
    ensures |rows| == upto
  {
    if upto == 0 then []
    else SubRows(criterion, topWeight, names, weights, upto - 1) + [SubRow(criterion, topWeight, names[upto - 1], weights[upto - 1])]
  }

  /** Sub row j is sub-criterion j's row: its level, code and name, the
      product of the two weights as absolute weight, its own weight as
      relative weight. */
  lemma {:induction false} SubRowsEntries(criterion: string, topWeight: real, names: seq<string>, weights: seq<real>, upto: nat)
    requires upto <= |names| <= |weights|
    requires forall j :: 0 <= j < |names| ==> HasCode(names[j])
    ensures forall j :: 0 <= j < upto ==>
      SubRows(criterion, topWeight, names, weights, upto)[j] == SubRow(criterion, topWeight, names[j], weights[j])
  {
    if upto > 0 {
      SubRowsEntries(criterion, topWeight, names, weights, upto - 1);
    }
  }

  /** The rows contributed by top criterion i. */
  function Block(lw: map<string, seq<real>>, top: seq<string>, sub: map<string, seq<string>>, i: nat): seq<HierarchyRow>
    requires TopLevel in lw && WellFormed(lw, top, sub) && i < |top|
  {
    var criterion, weight := top[i], lw[TopLevel][i];
    [TopRow(criterion, weight)] +
      if criterion in lw then SubRows(criterion, weight, sub[criterion], lw[criterion], |sub[criterion]|) else []
  }

  /** The rows of the first `upto` top criteria. */
  function RowsUpTo(lw: map<string, seq<real>>, top: seq<string>, sub: map<string, seq<string>>, upto: nat): seq<HierarchyRow>
    requires TopLevel in lw && WellFormed(lw, top, sub) && upto <= |top|
  {
    if upto == 0 then [] else RowsUpTo(lw, top, sub, upto - 1) + Block(lw, top, sub, upto - 1)
  }

  /** The whole table: no rows without a top-level analysis. */
  function HierarchyRows(lw: map<string, seq<real>>, top: seq<string>, sub: map<string, seq<string>>): seq<HierarchyRow>
    requires WellFormed(lw, top, sub)
  {
    if TopLevel in lw then RowsUpTo(lw, top, sub, |top|) else []
  }

  /** The export loop of app.py:922-961: nothing to export without any
      analysed level; otherwise the rows, built by appending. */
  method ExportHierarchy(lw: map<string, seq<real>>, top: seq<string>, sub: map<string, seq<string>>)
    returns (result: Option<seq<HierarchyRow>>)
    requires WellFormed(lw, top, sub)
    ensures result.None? <==> |lw| == 0
    ensures result.Some? ==> result.value == HierarchyRows(lw, top, sub)
    ensures TopLevel !in lw ==> result.None? || result.value == []
  {
    if |lw| == 0 {
      return None;
    }
    var rows: seq<HierarchyRow> := [];
    if TopLevel in lw {
      var topWeights := lw[TopLevel];
      var i := 0;
      while i < |top|
        invariant i <= |top|
        invariant rows == RowsUpTo(lw, top, sub, i)
      {
        var criterion := top[i];
        var weight := topWeights[i];
        rows := rows + [TopRow(criterion, weight)];
        if criterion in lw {
          var subWeights := lw[criterion];
          var subNames := sub[criterion];
          var j := 0;
          while j < |subNames|
            invariant j <= |subNames|
            invariant rows == RowsUpTo(lw, top, sub, i) + [TopRow(criterion, weight)]
              + SubRows(criterion, weight, subNames, subWeights, j)
          {
            rows := rows + [SubRow(criterion, weight, subNames[j], subWeights[j])];
            j := j + 1;
          }
        }
        i := i + 1;
      }
    }
    return Some(rows);
  }

  // ---------------------------------------------------------------------
  // Properties of the table

  /** The number of sub rows the first `upto` top criteria contribute. */
  function SubRowCount(lw: map<string, seq<real>>, top: seq<string>, sub: map<string, seq<string>>, upto: nat): nat
    requires WellFormed(lw, top, sub) && upto <= |top|
  {
    if upto == 0 then 0
    else SubRowCount(lw, top, sub, upto - 1) + (if top[upto - 1] in lw then |sub[top[upto - 1]]| else 0)
  }

  /** One row per top criterion plus one per sub-criterion of each analysed one. */
  lemma {:induction false} RowCount(lw: map<string, seq<real>>, top: seq<string>, sub: map<string, seq<string>>, upto: nat)
    requires TopLevel in lw && WellFormed(lw, top, sub) && upto <= |top|
    ensures |RowsUpTo(lw, top, sub, upto)| == upto + SubRowCount(lw, top, sub, upto)
  {
    if upto > 0 {
      RowCount(lw, top, sub, upto - 1);
    }
  }

  /** The layout of one block: the top criterion's row with its own weight
      first, then exactly when its sub-level was analysed one row per
      sub-criterion with absolute weight top weight x sub weight. */
  lemma {:induction false} BlockShape(lw: map<string, seq<real>>, top: seq<string>, sub: map<string, seq<string>>, i: nat)
    requires TopLevel in lw && WellFormed(lw, top, sub) && i < |top|
    ensures Block(lw, top, sub, i)[0] == TopRow(top[i], lw[TopLevel][i])
    ensures Block(lw, top, sub, i)[0].absolute == lw[TopLevel][i]
    ensures top[i] !in lw ==> |Block(lw, top, sub, i)| == 1
    ensures top[i] in lw ==>
      && |Block(lw, top, sub, i)| == 1 + |sub[top[i]]|
      && forall j :: 0 <= j < |sub[top[i]]| ==>
           Block(lw, top, sub, i)[1 + j].level == Sub &&
           Block(lw, top, sub, i)[1 + j].absolute == lw[TopLevel][i] * lw[top[i]][j]
  {
    var c, w := top[i], lw[TopLevel][i];
    if c in lw {
      var subs := SubRows(c, w, sub[c], lw[c], |sub[c]|);
      SubRowsEntries(c, w, sub[c], lw[c], |sub[c]|);
      assert Block(lw, top, sub, i) == [TopRow(c, w)] + subs;
      assert forall j :: 0 <= j < |sub[c]| ==> Block(lw, top, sub, i)[1 + j] == subs[j];
    }
  }

  /** Sum of the absolute weights of the rows at one level. */
  function LevelTotal(rows: seq<HierarchyRow>, level: Level): real
    decreases |rows|
  {
    if |rows| == 0 then 0.0
    else LevelTotal(rows[..|rows| - 1], level) + (if rows[|rows| - 1].level == level then rows[|rows| - 1].absolute else 0.0)
  }

  lemma {:induction false} LevelTotalConcat(a: seq<HierarchyRow>, b: seq<HierarchyRow>, level: Level)
    ensures LevelTotal(a + b, level) == LevelTotal(a, level) + LevelTotal(b, level)
    decreases |b|
  {
    if |b| == 0 {
      assert a + b == a;
    } else {
      assert (a + b)[..|a + b| - 1] == a + b[..|b| - 1];
      LevelTotalConcat(a, b[..|b| - 1], level);
    }
  }

  /** The absolute weights of a run of rows. */
  function Absolutes(rows: seq<HierarchyRow>): (a: seq<real>)
    ensures |a| == |rows|
  {
    seq(|rows|, i requires 0 <= i < |rows| => rows[i].absolute)
  }

  /** Rows all at one level total their absolute weights there, and nothing
      at any other level. */
  lemma {:induction false} OneLevelTotal(rows: seq<HierarchyRow>, level: Level, other: Level)
    requires forall i :: 0 <= i < |rows| ==> rows[i].level == level
    requires other != level
    ensures LevelTotal(rows, level) == Sum(Absolutes(rows))
    ensures LevelTotal(rows, other) == 0.0
    decreases |rows|
  {
    if |rows| > 0 {
      var n := |rows| - 1;
      OneLevelTotal(rows[..n], level, other);
      assert Absolutes(rows)[..n] == Absolutes(rows[..n]);
    }
  }

  /** The sub rows of a criterion add up to its top weight times the sum of
      its sub weights, and contribute nothing to the top-level total. */
  lemma {:induction false} SubRowsTotal(criterion: string, topWeight: real, names: seq<string>, weights: seq<real>, upto: nat)
    requires upto <= |names| <= |weights|
    requires forall j :: 0 <= j < |names| ==> HasCode(names[j])
    ensures LevelTotal(SubRows(criterion, topWeight, names, weights, upto), Sub) == Sum(weights[..upto]) * topWeight
    ensures LevelTotal(SubRows(criterion, topWeight, names, weights, upto), Top) == 0.0
  {
    var rows := SubRows(criterion, topWeight, names, weights, upto);
    var absolutes, subWeights := Absolutes(rows), weights[..upto];
    assert forall j :: 0 <= j < upto ==> rows[j].level == Sub && absolutes[j] == subWeights[j] * topWeight by {
      SubRowsEntries(criterion, topWeight, names, weights, upto);
    }
    assert LevelTotal(rows, Sub) == Sum(absolutes) && LevelTotal(rows, Top) == 0.0 by {
      OneLevelTotal(rows, Sub, Top);
    }
    assert Sum(absolutes) == Sum(subWeights) * topWeight by {
      SumScaled(absolutes, subWeights, topWeight);
    }
  }

  /** A block's top row carries the top weight; when the sub-level's
      weights sum to 1, its sub rows add up to the top weight too. */
  lemma {:induction false} BlockTotals(lw: map<string, seq<real>>, top: seq<string>, sub: map<string, seq<string>>, i: nat)
    requires TopLevel in lw && WellFormed(lw, top, sub) && i < |top|
    ensures LevelTotal(Block(lw, top, sub, i), Top) == lw[TopLevel][i]
    ensures top[i] in lw && |lw[top[i]]| == |sub[top[i]]| && Sum(lw[top[i]]) == 1.0 ==>
      LevelTotal(Block(lw, top, sub, i), Sub) == lw[TopLevel][i]
  {
    var c, w := top[i], lw[TopLevel][i];
    var head := [TopRow(c, w)];
    var subs := if c in lw then SubRows(c, w, sub[c], lw[c], |sub[c]|) else [];
    assert Block(lw, top, sub, i) == head + subs;
    assert LevelTotal(head, Top) == w && LevelTotal(head, Sub) == 0.0 by {
      assert head[..0] == [];
    }
    LevelTotalConcat(head, subs, Top);
    LevelTotalConcat(head, subs, Sub);
    if c in lw {
      SubRowsTotal(c, w, sub[c], lw[c], |sub[c]|);
      if |lw[c]| == |sub[c]| {
        assert lw[c][..|sub[c]|] == lw[c];
      }
    }
  }

  /** Every top criterion analysed, each sub-level's weights summing to 1. */
  predicate FullyAnalysed(lw: map<string, seq<real>>, top: seq<string>, sub: map<string, seq<string>>)
    requires WellFormed(lw, top, sub)
  {
    forall i :: 0 <= i < |top| ==> top[i] in lw && |lw[top[i]]| == |sub[top[i]]| && Sum(lw[top[i]]) == 1.0
  }

  /** The top rows carry the top weights, and when every sub-level is
      analysed the sub rows' absolute weights add up to the same total. */
  lemma {:induction false} LevelTotals(lw: map<string, seq<real>>, top: seq<string>, sub: map<string, seq<string>>, upto: nat)
    requires TopLevel in lw && WellFormed(lw, top, sub) && upto <= |top|
    ensures LevelTotal(RowsUpTo(lw, top, sub, upto), Top) == Sum(lw[TopLevel][..upto])
    ensures FullyAnalysed(lw, top, sub) ==>
      LevelTotal(RowsUpTo(lw, top, sub, upto), Sub) == Sum(lw[TopLevel][..upto])
  {
    if upto > 0 {
      var i := upto - 1;
      var before, block := RowsUpTo(lw, top, sub, i), Block(lw, top, sub, i);
      assert RowsUpTo(lw, top, sub, upto) == before + block;
      LevelTotals(lw, top, sub, i);
      BlockTotals(lw, top, sub, i);
      LevelTotalConcat(before, block, Top);
      LevelTotalConcat(before, block, Sub);
      SumPrefix(lw[TopLevel], upto);
    }
  }

  /** With normalised top weights, the top rows sum to 1, and so do the
      sub rows when every sub-level is analysed with normalised weights. */
  lemma {:induction false} HierarchyTotals(lw: map<string, seq<real>>, top: seq<string>, sub: map<string, seq<string>>)
    requires WellFormed(lw, top, sub)
    requires TopLevel in lw && |lw[TopLevel]| == |top| && Sum(lw[TopLevel]) == 1.0
    ensures LevelTotal(HierarchyRows(lw, top, sub), Top) == 1.0
    ensures FullyAnalysed(lw, top, sub) ==> LevelTotal(HierarchyRows(lw, top, sub), Sub) == 1.0
  {
    LevelTotals(lw, top, sub, |top|);
    assert lw[TopLevel][..|top|] == lw[TopLevel];
  }
}
