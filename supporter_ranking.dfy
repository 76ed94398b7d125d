/** The supporter ranking page: for the criterion of the selected tab, each
    supporter's average over the evaluations that scored that criterion,
    supporters sorted by that average (highest first), and the evaluations
    whose evidence is shown under an expanded supporter. */
module SupporterRanking {
  import opened Seqs
  import opened Text
  import opened Domain
  import EvaluationForm

  /** The criterion of each tab. */
  const CriteriaList: seq<string> := [
    "Năng lượng",
    "Thái độ",
    "Kỹ năng giải quyết vấn đề",
    "Kỹ năng làm việc nhóm",
    "Sự chủ động"
  ]

  /** An evaluation as the backend returns it: its id, its criterion entries
      and the name of the evaluating admin (`None` when not populated). */
  datatype Evaluation = Evaluation(id: string, criteria: seq<CriterionScore>, evaluatorName: Option<string>)

  /** The participants the page ranks: those of type `supporter`, in order. */
  function SupportersOnly(participants: seq<Participant>): (r: seq<Participant>)
    ensures IsSubsequence(r, participants)
    ensures forall p :: p in r <==> p in participants && p.kind == Supporter
    ensures forall p :: multiset(r)[p] == if p.kind == Supporter then multiset(participants)[p] else 0
  {
    var keep := (p: Participant) => p.kind == Supporter;
    FilterMultiplicity(participants, keep);
    Filter(participants, keep)
  }

  /** `evaluation.criteria.find(c => c.name === name)`: the first entry with
      that name. */
  function FindCriterion(criteria: seq<CriterionScore>, name: string): (r: Option<CriterionScore>)
    ensures r.None? <==> forall c :: c in criteria ==> c.name != name
    ensures r.Some? ==> exists i :: 0 <= i < |criteria| && criteria[i] == r.value && r.value.name == name
                                   && forall j :: 0 <= j < i ==> criteria[j].name != name
  {
    if criteria == [] then None
    else if criteria[0].name == name then Some(criteria[0])
    else FindCriterion(criteria[1..], name)
  }

  /** The score one evaluation adds to the average of a criterion: that of
      its first entry with the criterion's name, when that score is truthy. */
  function CountedScore(e: Evaluation, name: string): (r: Option<int>)
    ensures r.Some? ==> r.value != 0
    ensures r.Some? <==> FindCriterion(e.criteria, name).Some? && IsScored(FindCriterion(e.criteria, name).value.score)
  {
    match FindCriterion(e.criteria, name)
    case Some(c) => if IsScored(c.score) then Some(c.score.value) else None
    case None => None
  }

  /** The scores the average is taken over, in evaluation order. */
  function CountedScores(evals: seq<Evaluation>, name: string): (r: seq<int>)
    ensures |r| <= |evals|
    ensures forall k :: 0 <= k < |r| ==> r[k] != 0
  {
    if evals == [] then []
    else
      var init := CountedScores(evals[..|evals| - 1], name);
      match CountedScore(evals[|evals| - 1], name)
      case Some(v) => init + [v]
      case None => init
  }

  /** The evaluations that contribute to a criterion's average. */
  function CountsFor(name: string): Evaluation -> bool
  {
    (e: Evaluation) => CountedScore(e, name).Some?
  }

  /** The score a contributing evaluation adds. */
  function ScoreFor(name: string): Evaluation -> int
  {
    (e: Evaluation) => CountedScore(e, name).GetOr(0)
  }

  /** The averaged scores are exactly, in order, the counted score of each
      evaluation whose first entry with the name has a truthy score: each
      such evaluation adds one element, every other evaluation none. */
  lemma {:induction false} CountedScoresListsExactly(evals: seq<Evaluation>, name: string)
    ensures CountedScores(evals, name) == Map(Filter(evals, CountsFor(name)), ScoreFor(name))
    decreases |evals|
  {
    if evals != [] {
      var init := evals[..|evals| - 1];
      var last := evals[|evals| - 1];
      assert evals == init + [last];
      CountedScoresListsExactly(init, name);
      FilterAppend(init, [last], CountsFor(name));
      MapAppend(Filter(init, CountsFor(name)), Filter([last], CountsFor(name)), ScoreFor(name));
      assert [last][1..] == [];
    }
  }

  /** The sum of a list of scores. */
  function Sum(s: seq<int>): int
  {
    if s == [] then 0 else Sum(s[..|s| - 1]) + s[|s| - 1]
  }

  /** The smallest score of a non-empty list. */
  function Lowest(s: seq<int>): (r: int)
    requires s != []
    ensures r in s && forall k :: 0 <= k < |s| ==> r <= s[k]
  {
    if |s| == 1 then s[0]
    else var m := Lowest(s[..|s| - 1]); if s[|s| - 1] < m then s[|s| - 1] else m
  }

  /** The largest score of a non-empty list. */
  function Highest(s: seq<int>): (r: int)
    requires s != []
    ensures r in s && forall k :: 0 <= k < |s| ==> s[k] <= r
  {
    if |s| == 1 then s[0]
    else var m := Highest(s[..|s| - 1]); if s[|s| - 1] > m then s[|s| - 1] else m
  }

  /** `count > 0 ? totalScore / count : 0`. */
  function AverageOf(scores: seq<int>): real
  {
    if |scores| == 0 then 0.0 else Sum(scores) as real / |scores| as real
  }

  /** A list whose scores are all at least `lo` sums to at least its
      length times `lo`. */
  lemma {:induction false} SumAtLeast(s: seq<int>, lo: int)
    requires forall k :: 0 <= k < |s| ==> lo <= s[k]
    ensures (|s| as real) * (lo as real) <= Sum(s) as real
  {
    if s != [] {
      var init := s[..|s| - 1];
      SumAtLeast(init, lo);
      var n, l := |init| as real, lo as real;
      assert (n + 1.0) * l == n * l + l;
    }
  }

  /** A list whose scores are all at most `hi` sums to at most its length
      times `hi`. */
  lemma {:induction false} SumAtMost(s: seq<int>, hi: int)
    requires forall k :: 0 <= k < |s| ==> s[k] <= hi
    ensures Sum(s) as real <= (|s| as real) * (hi as real)
  {
    if s != [] {
      var init := s[..|s| - 1];
      SumAtMost(init, hi);
      var n, h := |init| as real, hi as real;
      assert (n + 1.0) * h == n * h + h;
    }
  }

  /** The average lies between the smallest and the largest counted score. */
  lemma {:induction false} AverageBounds(s: seq<int>)
    requires s != []
    ensures Lowest(s) as real <= AverageOf(s) <= Highest(s) as real
  {
    var lo, hi := Lowest(s), Highest(s);
    SumAtLeast(s, lo);
    SumAtMost(s, hi);
    QuotientBounds(Sum(s) as real, |s| as real, lo as real, hi as real);
  }

  lemma QuotientBounds(x: real, n: real, lo: real, hi: real)
    requires n > 0.0 && n * lo <= x <= n * hi
    ensures lo <= x / n <= hi
  {
    assert x / n - lo == (x - n * lo) / n;
    assert hi - x / n == (n * hi - x) / n;
  }

  /** `evaluations[supporterId] || []`. */
  function EvaluationsOf(evaluations: map<string, seq<Evaluation>>, supporterId: string): seq<Evaluation>
  {
    if supporterId in evaluations then evaluations[supporterId] else []
  }

  /** `calculateAverageScore`: 0 without evaluations or without a counted
      score, otherwise a value between the smallest and the largest
      counted score. */
  function AverageScore(evaluations: map<string, seq<Evaluation>>, supporterId: string, criterionIndex: nat): (r: real)
    requires criterionIndex < |CriteriaList|
    ensures var scores := CountedScores(EvaluationsOf(evaluations, supporterId), CriteriaList[criterionIndex]);
            (scores == [] ==> r == 0.0)
            && (scores != [] ==> Lowest(scores) as real <= r <= Highest(scores) as real)
  {
    var evals := EvaluationsOf(evaluations, supporterId);
    if |evals| == 0 then 0.0
    else
      var scores := CountedScores(evals, CriteriaList[criterionIndex]);
      assert scores != [] ==> Lowest(scores) as real <= AverageOf(scores) <= Highest(scores) as real by {
        if scores != [] { AverageBounds(scores); }
      }
      AverageOf(scores)
  }

  /** `calculateAverageScore(supporterId, criterionIndex)`. */
  method CalculateAverageScore(evaluations: map<string, seq<Evaluation>>, supporterId: string, criterionIndex: nat)
    returns (average: real)
    requires criterionIndex < |CriteriaList|
    ensures average == AverageScore(evaluations, supporterId, criterionIndex)
  {
    var supporterEvaluations := if supporterId in evaluations then evaluations[supporterId] else [];
    if |supporterEvaluations| == 0 {
      return 0.0;
    }
    var criterionName := CriteriaList[criterionIndex];
    var totalScore, count := AccumulateScores(supporterEvaluations, criterionName);
    average := if count > 0 then totalScore as real / count as real else 0.0;
  }

  /** The `forEach` of `calculateAverageScore`: the sum and the number of
      the counted scores. */
  method AccumulateScores(supporterEvaluations: seq<Evaluation>, criterionName: string)
    returns (totalScore: int, count: nat)
    ensures totalScore == Sum(CountedScores(supporterEvaluations, criterionName))
    ensures count == |CountedScores(supporterEvaluations, criterionName)|
  {
    totalScore := 0;
    count := 0;
    var i := 0;
    while i < |supporterEvaluations|
      invariant 0 <= i <= |supporterEvaluations|
      invariant totalScore == Sum(CountedScores(supporterEvaluations[..i], criterionName))
      invariant count == |CountedScores(supporterEvaluations[..i], criterionName)|
    {
      ghost var before := CountedScores(supporterEvaluations[..i], criterionName);
      CountedScoresStep(supporterEvaluations, i, criterionName);
      var criterionData := FindCriterion(supporterEvaluations[i].criteria, criterionName);
      assert CountedScore(supporterEvaluations[i], criterionName) ==
             if criterionData.Some? && IsScored(criterionData.value.score) then Some(criterionData.value.score.value) else None;
      if criterionData.Some? && IsScored(criterionData.value.score) {
        SumSnoc(before, criterionData.value.score.value);
        totalScore := totalScore + criterionData.value.score.value;
        count := count + 1;
      }
      i := i + 1;
    }
    assert supporterEvaluations[..i] == supporterEvaluations;
  }

  lemma SumSnoc(s: seq<int>, v: int)
    ensures Sum(s + [v]) == Sum(s) + v
  {
    assert (s + [v])[..|s|] == s;
  }

  lemma CountedScoresStep(evals: seq<Evaluation>, i: nat, name: string)
    requires i < |evals|
    ensures CountedScore(evals[i], name).None? ==> CountedScores(evals[..i + 1], name) == CountedScores(evals[..i], name)
    ensures CountedScore(evals[i], name).Some? ==>
              CountedScores(evals[..i + 1], name) == CountedScores(evals[..i], name) + [CountedScore(evals[i], name).value]
  {
    assert evals[..i + 1][..i] == evals[..i];
  }

  // ---------------------------------------------------------------------
  // The evaluations shown under an expanded supporter

  /** A row of the expanded view: evaluation id, score, evidence and the
      evaluator's name. */
  datatype EvidenceRow = EvidenceRow(id: string, score: int, evidence: string, evaluator: string)

  /** `evaluation.evaluatorId?.name || 'Unknown'`. */
  function EvaluatorLabel(name: Option<string>): string
  {
    if name.Some? && name.value != "" then name.value else "Unknown"
  }

  /** The `.map` step: a row for an evaluation with a truthy score for the
      criterion, `None` (the source's `null`) otherwise. */
  function RowOf(e: Evaluation, name: string): (r: Option<EvidenceRow>)
    ensures r.Some? <==> CountedScore(e, name).Some?
    ensures r.Some? ==> r.value.id == e.id && Some(r.value.score) == CountedScore(e, name)
                        && r.value.evidence == FindCriterion(e.criteria, name).value.evidence
  {
    match FindCriterion(e.criteria, name)
    case Some(c) =>
      if IsScored(c.score) then Some(EvidenceRow(e.id, c.score.value, c.evidence, EvaluatorLabel(e.evaluatorName)))
      else None
    case None => None
  }

  /** The `.filter` step: a row whose evidence is not blank. */
  predicate ShowsEvidence(row: Option<EvidenceRow>)
  {
    row.Some? && row.value.evidence != "" && Trim(row.value.evidence) != ""
  }

  /** `getCriterionEvaluations`: map every evaluation to a row or `null`,
      then keep the rows with evidence. */
  function CriterionEvidence(evals: seq<Evaluation>, name: string): (r: seq<EvidenceRow>)
    ensures |r| <= |evals|
    ensures forall k :: 0 <= k < |r| ==> r[k].score != 0 && !IsBlank(r[k].evidence)
  {
    if evals == [] then []
    else
      var row := RowOf(evals[0], name);
      if ShowsEvidence(row) then
        TrimEmptyIffBlank(row.value.evidence);
        [row.value] + CriterionEvidence(evals[1..], name)
      else CriterionEvidence(evals[1..], name)
  }

  /** An evaluation is listed under a criterion when it gives it a truthy
      score and evidence that is not blank. */
  predicate Listed(e: Evaluation, name: string)
  {
    CountedScore(e, name).Some? && !IsBlank(FindCriterion(e.criteria, name).value.evidence)
  }

  /** The listing predicate for one criterion, as a function value. */
  function ListedFor(name: string): Evaluation -> bool
  {
    (e: Evaluation) => Listed(e, name)
  }

  /** The row of a listed evaluation. */
  function ListedRowFor(name: string): Evaluation -> EvidenceRow
  {
    (e: Evaluation) => RowOf(e, name).GetOr(EvidenceRow("", 0, "", ""))
  }

  /** Mapping then filtering, as the page does, lists exactly the rows of
      the listed evaluations, in input order. */
  lemma {:induction false} CriterionEvidenceListsExactly(evals: seq<Evaluation>, name: string)
    ensures CriterionEvidence(evals, name) == Map(Filter(evals, ListedFor(name)), ListedRowFor(name))
  {
    if evals != [] {
      CriterionEvidenceListsExactly(evals[1..], name);
      var row := RowOf(evals[0], name);
      if row.Some? {
        TrimEmptyIffBlank(row.value.evidence);
      }
      assert ShowsEvidence(row) <==> ListedFor(name)(evals[0]);
    }
  }

  // ---------------------------------------------------------------------
  // Sorting

  /** The list is sorted by `key`, highest first. */
  ghost predicate NonIncreasing(s: seq<Participant>, key: Participant -> real)
  {
    forall i, j :: 0 <= i < j < |s| ==> key(s[i]) >= key(s[j])
  }

  /** Insert `x` before the first element whose key is not above its own. */
  function InsertDescending(x: Participant, s: seq<Participant>, key: Participant -> real): (r: seq<Participant>)
    requires NonIncreasing(s, key)
    ensures multiset(r) == multiset(s) + multiset{x}
    ensures NonIncreasing(r, key)
  {
    if s == [] || key(s[0]) <= key(x) then
      [x] + s
    else
      var rest := InsertDescending(x, s[1..], key);
      HeadAboveInserted(x, s, key, rest);
      assert s == [s[0]] + s[1..];
      [s[0]] + rest
  }

  /** The head of a sorted list whose key is above `x`'s stays above every
      element of the rest with `x` inserted. */
  lemma HeadAboveInserted(x: Participant, s: seq<Participant>, key: Participant -> real, rest: seq<Participant>)
    requires s != [] && NonIncreasing(s, key) && key(s[0]) > key(x)
    requires multiset(rest) == multiset(s[1..]) + multiset{x}
    requires NonIncreasing(rest, key)
    ensures NonIncreasing([s[0]] + rest, key)
  {
    forall j | 0 <= j < |rest| ensures key(s[0]) >= key(rest[j]) {
      var y := rest[j];
      assert y in multiset(s[1..]) + multiset{x};
      if y != x {
        var i :| 0 <= i < |s[1..]| && s[1..][i] == y;
        assert s[i + 1] == y;
      }
    }
  }

  /** The elements whose key is `k`. */
  function SameKey(key: Participant -> real, k: real): Participant -> bool
  {
    (p: Participant) => key(p) == k
  }

  /** Inserting `x` puts it ahead of every element with the same key and
      leaves the order of the others alone. */
  lemma {:induction false} InsertBeforeEqualKeys(x: Participant, s: seq<Participant>, key: Participant -> real, k: real)
    requires NonIncreasing(s, key)
    ensures Filter(InsertDescending(x, s, key), SameKey(key, k)) ==
              (if key(x) == k then [x] else []) + Filter(s, SameKey(key, k))
  {
    var same := SameKey(key, k);
    if s == [] || key(s[0]) <= key(x) {
      FilterAppend([x], s, same);
      assert [x][1..] == [];
    } else {
      InsertBeforeEqualKeys(x, s[1..], key, k);
      var rest := InsertDescending(x, s[1..], key);
      var head := Filter([s[0]], same);
      assert [s[0]][1..] == [];
      assert head == if key(s[0]) == k then [s[0]] else [];
      FilterAppend([s[0]], rest, same);
      assert s == [s[0]] + s[1..];
      FilterAppend([s[0]], s[1..], same);
      assert key(x) == k ==> head == [];
    }
  }

  /** `[...s].sort((a, b) => key(b) - key(a))`: a permutation of `s`,
      highest key first. */
  function SortDescending(s: seq<Participant>, key: Participant -> real): (r: seq<Participant>)
    ensures multiset(r) == multiset(s)
    ensures NonIncreasing(r, key)
  {
    if s == [] then []
    else
      var rest := SortDescending(s[1..], key);
      assert s == [s[0]] + s[1..];
      InsertDescending(s[0], rest, key)
  }

  /** The sort is stable, as JavaScript's `Array.prototype.sort` is: the
      elements with any one key keep their original order. */
  lemma {:induction false} SortIsStable(s: seq<Participant>, key: Participant -> real, k: real)
    ensures Filter(SortDescending(s, key), SameKey(key, k)) == Filter(s, SameKey(key, k))
  {
    if s != [] {
      SortIsStable(s[1..], key, k);
      InsertBeforeEqualKeys(s[0], SortDescending(s[1..], key), key, k);
    }
  }

  /** A supporter's average for the criterion, as a sort key. */
  function AverageKey(evaluations: map<string, seq<Evaluation>>, criterionIndex: nat): Participant -> real
    requires criterionIndex < |CriteriaList|
  {
    (p: Participant) => AverageScore(evaluations, p.id, criterionIndex)
  }

  /** `getSortedSupporters`: the supporters, reordered by average, highest
      first; supporters with the same average keep their loading order. */
  function SortedSupporters(supporters: seq<Participant>, evaluations: map<string, seq<Evaluation>>, criterionIndex: nat)
    : (r: seq<Participant>)
    requires criterionIndex < |CriteriaList|
    ensures multiset(r) == multiset(supporters)
    ensures forall i, j :: 0 <= i < j < |r| ==>
              AverageScore(evaluations, r[i].id, criterionIndex) >= AverageScore(evaluations, r[j].id, criterionIndex)
    ensures forall k :: Filter(r, SameKey(AverageKey(evaluations, criterionIndex), k))
                        == Filter(supporters, SameKey(AverageKey(evaluations, criterionIndex), k))
  {
    var key := AverageKey(evaluations, criterionIndex);
    assert forall k :: Filter(SortDescending(supporters, key), SameKey(key, k)) == Filter(supporters, SameKey(key, k)) by {
      forall k ensures Filter(SortDescending(supporters, key), SameKey(key, k)) == Filter(supporters, SameKey(key, k)) {
        SortIsStable(supporters, key, k);
      }
    }
    SortDescending(supporters, key)
  }

  // ---------------------------------------------------------------------
  // Criterion names against the supporter rubric

  /** Of the five tab criteria only the first, "Năng lượng", is a criterion
      of the supporter rubric. */
  lemma TabCriteriaAgainstRubric()
    ensures CriteriaList[0] in EvaluationForm.Names(EvaluationForm.SupporterCriteria)
    ensures forall k :: 1 <= k < |CriteriaList| ==> CriteriaList[k] !in EvaluationForm.Names(EvaluationForm.SupporterCriteria)
  {
    var names := EvaluationForm.Names(EvaluationForm.SupporterCriteria);
    assert names[0] == CriteriaList[0];
    // The names differ in length from the other four tab criteria.
    assert |names| == 7;
    assert |names[0]| == 10 && |names[1]| == 22 && |names[2]| == 18 && |names[3]| == 16;
    assert |names[4]| == 8 && |names[5]| == 19 && |names[6]| == 22;
    assert |CriteriaList[1]| == 7 && |CriteriaList[2]| == 25 && |CriteriaList[3]| == 21 && |CriteriaList[4]| == 11;
  }

  /** Evaluations named after the supporter rubric give every tab but the
      first an average of 0. */
  lemma {:induction false} RubricEvaluationsScoreZeroOnOtherTabs(evals: seq<Evaluation>, k: nat)
    requires 1 <= k < |CriteriaList|
    requires forall e, c :: e in evals && c in e.criteria ==> c.name in EvaluationForm.Names(EvaluationForm.SupporterCriteria)
    ensures CountedScores(evals, CriteriaList[k]) == []
    ensures forall id :: AverageScore(map[id := evals], id, k) == 0.0
  {
    TabCriteriaAgainstRubric();
    if evals != [] {
      var init := evals[..|evals| - 1];
      assert forall e :: e in init ==> e in evals;
      RubricEvaluationsScoreZeroOnOtherTabs(init, k);
      var last := evals[|evals| - 1];
      assert last in evals;
      assert FindCriterion(last.criteria, CriteriaList[k]).None?;
    }
  }

  // ---------------------------------------------------------------------
  // The page state

  /** The page's state. */
  class RankingView {
    var supporters: seq<Participant>
    var evaluations: map<string, seq<Evaluation>>
    var selectedCriterion: nat
    var expandedSupporter: Option<string>
    var loading: bool

    ghost predicate Valid()
      reads this
    {
      selectedCriterion < |CriteriaList|
    }

    constructor ()
      ensures Valid()
      ensures supporters == [] && evaluations == map[] && selectedCriterion == 0
      ensures expandedSupporter == None && loading
    {
      supporters := [];
      evaluations := map[];
      selectedCriterion := 0;
      expandedSupporter := None;
      loading := true;
    }

    /** The mount-time fetch: the participant list (`None` when the request
        fails, which stores nothing), then each supporter's evaluations
        (`fetch` answers `None` for a failed request, stored as `[]`). */
    method Load(fetchedParticipants: Option<seq<Participant>>, fetch: string -> Option<seq<Evaluation>>)
      modifies this`supporters, this`evaluations, this`loading
      ensures !loading
      ensures fetchedParticipants.None? ==> supporters == old(supporters) && evaluations == old(evaluations)
      ensures fetchedParticipants.Some? ==>
                supporters == SupportersOnly(fetchedParticipants.value)
                && (forall id :: id in evaluations <==> exists s :: s in supporters && s.id == id)
                && (forall s :: s in supporters ==> evaluations[s.id] == fetch(s.id).GetOr([]))
    {
      loading := true;
      if fetchedParticipants.Some? {
        var supportersOnly := SupportersOnly(fetchedParticipants.value);
        var evaluationsMap := BuildEvaluationsMap(supportersOnly, fetch);
        supporters := supportersOnly;
        evaluations := evaluationsMap;
      }
      loading := false;
    }

    /** `handleTabChange`: select the tab and collapse any expanded supporter. */
    method HandleTabChange(newValue: nat)
      requires newValue < |CriteriaList|
      modifies this`selectedCriterion, this`expandedSupporter
      ensures Valid()
      ensures selectedCriterion == newValue && expandedSupporter == None
    {
      selectedCriterion := newValue;
      expandedSupporter := None;
    }

    /** `toggleExpandSupporter`: collapse the expanded supporter, or make
        another one the single expanded supporter. */
    method ToggleExpandSupporter(supporterId: string)
      modifies this`expandedSupporter
      ensures old(expandedSupporter) == Some(supporterId) ==> expandedSupporter == None
      ensures old(expandedSupporter) != Some(supporterId) ==> expandedSupporter == Some(supporterId)
    {
      expandedSupporter := if expandedSupporter == Some(supporterId) then None else Some(supporterId);
    }

    /** The supporters in the order the selected tab shows them. */
    function SortedView(): (r: seq<Participant>)
      reads this
      requires Valid()
      ensures multiset(r) == multiset(supporters)
      ensures forall i, j :: 0 <= i < j < |r| ==>
                AverageScore(evaluations, r[i].id, selectedCriterion) >= AverageScore(evaluations, r[j].id, selectedCriterion)
      ensures forall k :: Filter(r, SameKey(AverageKey(evaluations, selectedCriterion), k))
                          == Filter(supporters, SameKey(AverageKey(evaluations, selectedCriterion), k))
    {
      SortedSupporters(supporters, evaluations, selectedCriterion)
    }
  }

  /** The `forEach` that fills `evaluationsMap`: every supporter's fetched
      evaluations, `[]` where the fetch failed. */
  method BuildEvaluationsMap(supporters: seq<Participant>, fetch: string -> Option<seq<Evaluation>>)
    returns (m: map<string, seq<Evaluation>>)
    ensures forall id :: id in m <==> exists s :: s in supporters && s.id == id
    ensures forall s :: s in supporters ==> m[s.id] == fetch(s.id).GetOr([])
  {
    m := map[];
    var i := 0;
    while i < |supporters|
      invariant 0 <= i <= |supporters|
      invariant forall id :: id in m <==> exists k :: 0 <= k < i && supporters[k].id == id
      invariant forall k :: 0 <= k < i ==> m[supporters[k].id] == fetch(supporters[k].id).GetOr([])
    {
      var id := supporters[i].id;
      m := m[id := fetch(id).GetOr([])];
      i := i + 1;
    }
  }
}
