/** Records the pages share: participants as the REST backend returns them,
    and the per-criterion entries of an evaluation (what the evaluation form
    submits and what the ranking page reads back). */
module Domain {
  import opened Seqs

  /** The two participant types and slot groups. */
  const Leader: string := "leader"
  const Supporter: string := "supporter"

  /** A participant record (`_id`, `name`, `type`, `checkInStatus`,
      `checkInPhoto`); `kind` is the record's `type` field. */
  datatype Participant = Participant(
    id: string,
    name: string,
    kind: string,
    checkInStatus: bool,
    checkInPhoto: string)

  /** One criterion of an evaluation: its name, its star score (`None` for the
      `null` a cleared rating gives) and its free-text evidence. */
  datatype CriterionScore = CriterionScore(name: string, score: Option<int>, evidence: string)

  /** JavaScript truthiness of a score: `null` and `0` are falsy. */
  predicate IsScored(score: Option<int>)
  {
    score.Some? && score.value != 0
  }

  /** `participants.find(p => p._id === id)`: the first participant with
      that id, or `None`. */
  function FindById(participants: seq<Participant>, id: string): (r: Option<Participant>)
    ensures r.None? <==> forall p :: p in participants ==> p.id != id
    ensures r.Some? ==> r.value in participants && r.value.id == id
    ensures r.Some? ==> exists i :: 0 <= i < |participants| && participants[i] == r.value
                                   && forall j :: 0 <= j < i ==> participants[j].id != id
  {
    if participants == [] then None
    else if participants[0].id == id then Some(participants[0])
    else FindById(participants[1..], id)
  }
}
