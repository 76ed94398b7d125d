/** The evaluation form: a fixed rubric chosen by the participant's type,
    one entry (score and evidence) per criterion, and a submit step that
    sends only the entries whose evidence is not blank. */
module EvaluationForm {
  import opened Seqs
  import opened Text
  import opened Domain

  /** A rubric criterion: its name and the help text shown under it. */
  datatype RubricItem = RubricItem(name: string, description: string)

  const LeaderCriteria: seq<RubricItem> := [
    RubricItem("Năng lượng", "Mức độ tích cực, nhiệt tình trong hoạt động"),
    RubricItem("Kỷ luật", "Tuân thủ nội quy, quy định và thời gian"),
    RubricItem("Mức độ quan tâm/sẵn sàng", "Sự quan tâm đến người khác và sẵn sàng tham gia"),
    RubricItem("Giải quyết vấn đề", "Khả năng xử lý tình huống, giải quyết khó khăn"),
    RubricItem("Làm việc nhóm", "Khả năng hợp tác, chia sẻ và hỗ trợ người khác"),
    RubricItem("Giao tiếp", "Khả năng truyền đạt thông tin và lắng nghe"),
    RubricItem("Tâm lý độ tuổi kid", "Hiểu biết và ứng xử phù hợp với tâm lý trẻ em"),
    RubricItem("CISV Skills", "Kỹ năng đặc thù của CISV")
  ]

  const SupporterCriteria: seq<RubricItem> := [
    RubricItem("Năng lượng", "Mức độ tích cực, nhiệt tình trong hoạt động"),
    RubricItem("Thái độ & sự tập trung", "Thái độ tôn trọng, lịch sự và khả năng tập trung"),
    RubricItem("Nhận thức bản thân", "Khả năng nhận biết điểm mạnh, điểm yếu và cảm xúc của bản thân"),
    RubricItem("Tư duy phản biện", "Khả năng phân tích, đánh giá và đưa ra ý kiến độc lập"),
    RubricItem("Teamwork", "Khả năng làm việc nhóm, hợp tác và đóng góp"),
    RubricItem("Giao tiếp & kết nối", "Khả năng giao tiếp, kết nối với người khác"),
    RubricItem("Truyền đạt kinh nghiệm", "Khả năng chia sẻ kinh nghiệm và kiến thức với người khác")
  ]

  /** The message shown when no entry has evidence. */
  const MissingEvidenceError: string := "Vui lòng nhập ít nhất một minh chứng"

  /** The names of a rubric, in order. */
  function Names(items: seq<RubricItem>): (r: seq<string>)
    ensures |r| == |items|
    ensures forall i :: 0 <= i < |items| ==> r[i] == items[i].name
  {
    Map(items, (item: RubricItem) => item.name)
  }

  /** No two criteria of a rubric share a name. */
  predicate DistinctNames(items: seq<RubricItem>)
  {
    forall i, j :: 0 <= i < j < |items| ==> items[i].name != items[j].name
  }

  /** The rubric for a participant: leaders get the eight leader criteria,
      every other type the seven supporter criteria; both open with
      "Năng lượng" and neither repeats a name. */
  function CriteriaFor(kind: string): (r: seq<RubricItem>)
    ensures |r| == if kind == Leader then 8 else 7
    ensures DistinctNames(r)
    ensures r[0].name == "Năng lượng"
  {
    if kind == Leader then LeaderCriteria else SupporterCriteria
  }

  /** The entries the form starts with: one per criterion, same names in the
      same order, score 0 and empty evidence. */
  function InitialEntries(criteria: seq<RubricItem>): (r: seq<CriterionScore>)
    ensures |r| == |criteria|
    ensures forall i :: 0 <= i < |r| ==> r[i] == CriterionScore(criteria[i].name, Some(0), "")
  {
    Map(criteria, (c: RubricItem) => CriterionScore(c.name, Some(0), ""))
  }

  /** `evaluation.evidence.trim() !== ''`. */
  predicate HasEvidence(entry: CriterionScore)
  {
    Trim(entry.evidence) != ""
  }

  /** The entries `handleSubmit` sends: those with evidence, in form order. */
  function WithEvidence(entries: seq<CriterionScore>): (r: seq<CriterionScore>)
    ensures IsSubsequence(r, entries)
    ensures forall e :: e in r <==> e in entries && HasEvidence(e)
    ensures forall e :: multiset(r)[e] == if HasEvidence(e) then multiset(entries)[e] else 0
  {
    FilterMultiplicity(entries, HasEvidence);
    Filter(entries, HasEvidence)
  }

  /** An entry is sent exactly when its evidence has a non-whitespace
      character; a scored entry with blank evidence is dropped. */
  lemma SentIffEvidenceNotBlank(entries: seq<CriterionScore>, e: CriterionScore)
    requires e in entries
    ensures e in WithEvidence(entries) <==> !IsBlank(e.evidence)
  {
    TrimEmptyIffBlank(e.evidence);
  }

  /** Nothing is sent exactly when every evidence is blank. */
  lemma NothingSentIffAllBlank(entries: seq<CriterionScore>)
    ensures WithEvidence(entries) == [] <==> forall e :: e in entries ==> IsBlank(e.evidence)
  {
    forall e | e in entries
      ensures HasEvidence(e) <==> !IsBlank(e.evidence)
    {
      TrimEmptyIffBlank(e.evidence);
    }
    if WithEvidence(entries) != [] {
      assert WithEvidence(entries)[0] in WithEvidence(entries);
    }
  }

  /** The names of the sent entries follow the order of the form's names. */
  lemma {:induction false} SentNamesFollowForm(entries: seq<CriterionScore>)
    ensures IsSubsequence(EntryNames(WithEvidence(entries)), EntryNames(entries))
  {
    SubsequenceNames(WithEvidence(entries), entries);
  }

  /** The names of a list of entries. */
  function EntryNames(entries: seq<CriterionScore>): (r: seq<string>)
    ensures |r| == |entries|
    ensures forall i :: 0 <= i < |entries| ==> r[i] == entries[i].name
  {
    Map(entries, (e: CriterionScore) => e.name)
  }

  lemma {:induction false} SubsequenceNames(a: seq<CriterionScore>, b: seq<CriterionScore>)
    requires IsSubsequence(a, b)
    ensures IsSubsequence(EntryNames(a), EntryNames(b))
    decreases |b|
  {
    if a != [] {
      var na, nb := EntryNames(a), EntryNames(b);
      assert EntryNames(a[1..]) == na[1..];
      assert EntryNames(b[1..]) == nb[1..];
      if a[0] == b[0] && IsSubsequence(a[1..], b[1..]) {
        SubsequenceNames(a[1..], b[1..]);
      } else {
        SubsequenceNames(a, b[1..]);
      }
    }
  }

  /** The form's state: its rubric, the entries being edited and the error
      line. */
  class FormState {
    const participant: Participant
    const criteria: seq<RubricItem>
    var evaluations: seq<CriterionScore>
    var error: string

    /** The entries line up with the rubric, name by name. */
    ghost predicate Valid()
      reads this
    {
      |evaluations| == |criteria| && forall i :: 0 <= i < |criteria| ==> evaluations[i].name == criteria[i].name
    }

    constructor (participant: Participant)
      ensures this.participant == participant
      ensures criteria == CriteriaFor(participant.kind)
      ensures evaluations == InitialEntries(criteria) && error == ""
      ensures Valid()
    {
      var rubric := CriteriaFor(participant.kind);
      this.participant := participant;
      criteria := rubric;
      evaluations := InitialEntries(rubric);
      error := "";
    }

    /** `handleScoreChange(index, newValue)`: copy the entries and set the
        score of entry `index` (`None` when the rating is cleared). */
    method HandleScoreChange(index: nat, newValue: Option<int>)
      requires Valid() && index < |evaluations|
      modifies this`evaluations
      ensures Valid()
      ensures |evaluations| == |old(evaluations)|
      ensures evaluations[index] == old(evaluations[index]).(score := newValue)
      ensures forall i :: 0 <= i < |evaluations| && i != index ==> evaluations[i] == old(evaluations[i])
    {
      var copy := CopyOf(evaluations);
      copy[index] := copy[index].(score := newValue);
      evaluations := copy[..];
    }

    /** `handleEvidenceChange(index, event)`: copy the entries and set the
        evidence of entry `index` to the text field's value. */
    method HandleEvidenceChange(index: nat, value: string)
      requires Valid() && index < |evaluations|
      modifies this`evaluations
      ensures Valid()
      ensures |evaluations| == |old(evaluations)|
      ensures evaluations[index] == old(evaluations[index]).(evidence := value)
      ensures forall i :: 0 <= i < |evaluations| && i != index ==> evaluations[i] == old(evaluations[i])
    {
      var copy := CopyOf(evaluations);
      copy[index] := copy[index].(evidence := value);
      evaluations := copy[..];
    }

    /** `handleSubmit`: without any evidence, set the error and send
        nothing; otherwise clear the error and send the entries with
        evidence. */
    method HandleSubmit() returns (sent: Option<seq<CriterionScore>>)
      modifies this`error
      ensures WithEvidence(evaluations) == [] ==> sent == None && error == MissingEvidenceError
      ensures WithEvidence(evaluations) != [] ==> sent == Some(WithEvidence(evaluations)) && error == ""
    {
      var withEvidence := WithEvidence(evaluations);
      if withEvidence == [] {
        error := MissingEvidenceError;
        return None;
      }
      error := "";
      sent := Some(withEvidence);
    }
  }

  /** `[...entries]`: a fresh array holding the entries. */
  method CopyOf(entries: seq<CriterionScore>) returns (a: array<CriterionScore>)
    ensures fresh(a) && a[..] == entries
  {
    a := new CriterionScore[|entries|](i requires 0 <= i < |entries| => entries[i]);
  }
}
