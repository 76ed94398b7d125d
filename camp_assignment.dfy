/** The camp assignment page: six fixed camps, each with a `leader` and a
    `supporter` slot group; participants are dragged between the unassigned
    areas and the slot groups, and every move is pushed to the backend before
    the in-memory `assignments` dictionary (participant id to camp and slot
    group) is updated. */
module CampAssignment {
  import opened Seqs
  import opened Text
  import opened Domain

  /** A camp of the fixed, client-side camp list. */
  datatype Camp = Camp(id: string, name: string)

  const Camps: seq<Camp> := [
    Camp("camp1", "Trại 1"),
    Camp("camp2", "Trại 2"),
    Camp("camp3", "Trại 3"),
    Camp("camp4", "Trại 4"),
    Camp("camp5", "Trại 5"),
    Camp("camp6", "Trại 6")
  ]

  /** The value stored under a participant id: the camp and the slot group
      (`position` is the group name `leader` or `supporter`, not an index). */
  datatype Assignment = Assignment(campId: string, position: string)

  /** The number of places in a slot group: 8 for `leader`, 3 for anything else. */
  function Capacity(position: string): (n: nat)
    ensures n == 8 || n == 3
    ensures n == 8 <==> position == Leader
  {
    if position == Leader then 8 else 3
  }

  // ---------------------------------------------------------------------
  // Loading

  /** A row of the assignment list the backend returns: the populated
      participant's `_id` (`None` when the reference is `null`), the camp
      and the slot group. */
  datatype AssignmentRow = AssignmentRow(participantId: Option<string>, campId: string, position: string)

  /** Row `i` is the last row about its participant. */
  ghost predicate IsLastRowFor(rows: seq<AssignmentRow>, i: int)
    requires 0 <= i < |rows|
  {
    forall j :: i < j < |rows| ==> rows[j].participantId != rows[i].participantId
  }

  /** Some row is about participant `id`. */
  ghost predicate HasRowFor(rows: seq<AssignmentRow>, id: string)
  {
    exists i :: 0 <= i < |rows| && rows[i].participantId == Some(id)
  }

  /** Some row has a `null` participant reference. */
  ghost predicate HasNullRow(rows: seq<AssignmentRow>)
  {
    exists i :: 0 <= i < |rows| && rows[i].participantId.None?
  }

  /** The dictionary the load builds from the rows, or `None` when a row
      with a `null` participant makes the build throw; otherwise its keys are
      exactly the participants the rows mention. */
  function AssignmentMapOf(rows: seq<AssignmentRow>): (r: Option<map<string, Assignment>>)
    ensures r.None? <==> HasNullRow(rows)
    ensures r.Some? ==> forall id :: id in r.value <==> HasRowFor(rows, id)
  {
    if rows == [] then Some(map[])
    else
      var init := rows[..|rows| - 1];
      var last := rows[|rows| - 1];
      assert forall i :: 0 <= i < |init| ==> init[i] == rows[i];
      match AssignmentMapOf(init)
      case None => None
      case Some(m) =>
        if last.participantId.None? then None
        else Some(m[last.participantId.value := Assignment(last.campId, last.position)])
  }

  /** Each participant is stored with the camp and group of the LAST row
      about it: later rows overwrite earlier ones. */
  lemma {:induction false} LastRowWins(rows: seq<AssignmentRow>, i: int)
    requires 0 <= i < |rows| && IsLastRowFor(rows, i)
    requires AssignmentMapOf(rows).Some?
    ensures rows[i].participantId.Some?
    ensures var m := AssignmentMapOf(rows).value;
            rows[i].participantId.value in m
            && m[rows[i].participantId.value] == Assignment(rows[i].campId, rows[i].position)
  {
    var init := rows[..|rows| - 1];
    var last := rows[|rows| - 1];
    assert forall k :: 0 <= k < |init| ==> init[k] == rows[k];
    if i < |rows| - 1 {
      assert IsLastRowFor(init, i);
      LastRowWins(init, i);
      assert last.participantId != rows[i].participantId;
    }
  }

  /** The load-time `forEach` that fills `assignmentMap`; a `null` participant
      reference throws, which abandons the build. */
  method BuildAssignmentMap(rows: seq<AssignmentRow>) returns (r: Option<map<string, Assignment>>)
    ensures r == AssignmentMapOf(rows)
  {
    var m: map<string, Assignment> := map[];
    var i := 0;
    while i < |rows|
      invariant 0 <= i <= |rows|
      invariant AssignmentMapOf(rows[..i]) == Some(m)
    {
      assert rows[..i + 1][..i] == rows[..i];
      var row := rows[i];
      if row.participantId.None? {
        assert rows[..i + 1][i] == row;
        PrefixFailureIsFinal(rows, i + 1);
        return None;
      }
      m := m[row.participantId.value := Assignment(row.campId, row.position)];
      i := i + 1;
    }
    assert rows[..i] == rows;
    r := Some(m);
  }

  /** Once a prefix of the rows fails to build, the whole list fails. */
  lemma PrefixFailureIsFinal(rows: seq<AssignmentRow>, n: nat)
    requires n <= |rows|
    requires AssignmentMapOf(rows[..n]).None?
    ensures AssignmentMapOf(rows).None?
  {
    var i :| 0 <= i < n && rows[..n][i].participantId.None?;
    assert rows[i].participantId.None?;
  }

  // ---------------------------------------------------------------------
  // Drop targets

  /** A droppable area, as `handleDragEnd` reads its id. */
  datatype Target =
    | UnassignedArea(group: Option<string>)              // `unassigned-<type>`
    | CampSlot(campId: string, group: Option<string>)    // `<campId>-<group>`
    | UnassignedPool                                      // the literal `unassigned`

  /** `parts[i]`, or `None` (JavaScript's `undefined`) past the end. */
  function Part(parts: seq<string>, i: nat): (r: Option<string>)
    ensures r.Some? <==> i < |parts|
    ensures r.Some? ==> r.value == parts[i]
  {
    if i < |parts| then Some(parts[i]) else None
  }

  /** How `handleDragEnd` classifies a droppable id: ids starting with
      `unassigned-` name an unassigned area by the piece after the first
      `-`; any other id except `unassigned` is split on `-` into a camp id
      and a group. */
  function Route(droppableId: string): (r: Target)
    ensures r.UnassignedArea? <==> StartsWith(droppableId, "unassigned-")
    ensures r.UnassignedPool? <==> droppableId == "unassigned"
    ensures r.CampSlot? ==> '-' !in r.campId && (r.group.Some? ==> '-' !in r.group.value)
  {
    var parts := Split(droppableId, '-');
    if StartsWith(droppableId, "unassigned-") then UnassignedArea(Part(parts, 1))
    else if droppableId != "unassigned" then CampSlot(parts[0], Part(parts, 1))
    else UnassignedPool
  }

  /** The droppable id the page renders for a camp's slot group. */
  function SlotDroppableId(campId: string, group: string): string
  {
    campId + "-" + group
  }

  /** The droppable id the page renders for an unassigned area. */
  function UnassignedDroppableId(group: string): string
  {
    "unassigned-" + group
  }

  /** Every droppable id the page renders is routed back to the camp and
      group it was built from: no camp id contains `-` or starts like
      `unassigned-`, and neither group name contains `-`. */
  lemma {:induction false} RenderedDroppablesRoute(camp: Camp, group: string)
    requires camp in Camps
    requires group == Leader || group == Supporter
    ensures Route(SlotDroppableId(camp.id, group)) == CampSlot(camp.id, Some(group))
    ensures Route(UnassignedDroppableId(group)) == UnassignedArea(Some(group))
  {
    assert '-' !in group;
    assert '-' !in camp.id && |camp.id| == 5 && camp.id[0] == 'c';
    var slot := SlotDroppableId(camp.id, group);
    assert slot == camp.id + ['-'] + group;
    SplitPair(camp.id, group, '-');
    assert slot[0] == 'c';
    assert !StartsWith(slot, "unassigned-");
    assert slot != "unassigned";
    var area := UnassignedDroppableId(group);
    assert area == "unassigned" + ['-'] + group;
    SplitPair("unassigned", group, '-');
    assert StartsWith(area, "unassigned-") by {
      assert area[..11] == "unassigned-";
    }
  }

  // ---------------------------------------------------------------------
  // The capacity guard, with JavaScript's strict equality made explicit

  /** The JavaScript values the capacity guard compares. */
  datatype JsValue = Undefined | Bool(b: bool) | Str(s: string)

  /** `x === y`: values of different types are never strictly equal. */
  predicate StrictEquals(x: JsValue, y: JsValue)
  {
    match (x, y)
    case (Undefined, Undefined) => true
    case (Bool(a), Bool(b)) => a == b
    case (Str(a), Str(b)) => a == b
    case _ => false
  }

  /** JavaScript truthiness. */
  predicate Truthy(v: JsValue)
  {
    match v
    case Undefined => false
    case Bool(b) => b
    case Str(s) => s != ""
  }

  /** `assignments[id]?.campId`. */
  function CampIdOf(m: map<string, Assignment>, id: string): JsValue
  {
    if id in m then Str(m[id].campId) else Undefined
  }

  /** The number of dictionary entries placed in `(campId, position)`. */
  function Occupancy(m: map<string, Assignment>, campId: string, position: string): nat
  {
    |set k | k in m && m[k] == Assignment(campId, position)|
  }

  /** Which capacity guard `Decide` applies: the one in the page, or the
      one its authors evidently meant. */
  datatype GuardVersion = AsWritten | Intended

  /** The capacity guard before an update. As written it reads
      `!assignments[id]?.campId === campId`, which compares a boolean with a
      string; the intended guard is `assignments[id]?.campId !== campId`. */
  predicate GuardFires(m: map<string, Assignment>, id: string, campId: string, position: string, guard: GuardVersion)
  {
    Occupancy(m, campId, position) >= Capacity(position) &&
    match guard
    case AsWritten => StrictEquals(Bool(!Truthy(CampIdOf(m, id))), Str(campId))
    case Intended => !StrictEquals(CampIdOf(m, id), Str(campId))
  }

  /** The guard as written never fires, whatever the dictionary holds. */
  lemma CapacityGuardNeverFires(m: map<string, Assignment>, id: string, campId: string, position: string)
    ensures !GuardFires(m, id, campId, position, AsWritten)
  {
  }

  // ---------------------------------------------------------------------
  // The drag-end transition

  /** Where a draggable sat or landed: droppable id and index. */
  datatype Location = Location(droppableId: string, index: int)

  /** What react-beautiful-dnd reports when a drag ends. */
  datatype DropResult = DropResult(draggableId: string, source: Location, destination: Option<Location>)

  /** Why a drag changes nothing without a request. */
  datatype Skip = NoDestination | SamePlace | UnknownParticipant | NotAssigned

  /** What `handleDragEnd` decides before its request: do nothing, reject
      with a notice, or ask the backend to put or remove an assignment. */
  datatype Decision =
    | Ignore(why: Skip)
    | RejectWrongArea
    | RejectFull
    | Put(id: string, assignment: Assignment)
    | Remove(id: string)

  /** The decision `handleDragEnd` takes for a drop, given the loaded
      participants and the current dictionary. */
  function Decide(participants: seq<Participant>, m: map<string, Assignment>, drop: DropResult, guard: GuardVersion): (d: Decision)
    ensures drop.destination.None? ==> d == Ignore(NoDestination)
    ensures drop.destination.Some? && drop.destination.value == drop.source ==> d == Ignore(SamePlace)
    ensures (forall p :: p in participants ==> p.id != drop.draggableId) ==> d.Ignore?
    ensures d.Put? ==> d.id == drop.draggableId
                       && exists p :: p in participants && p.id == d.id && d.assignment.position == p.kind
    ensures d.Remove? ==> d.id == drop.draggableId && d.id in m
    ensures d.Put? || d.Remove? || d.RejectWrongArea? || d.RejectFull? ==> drop.destination.Some?
  {
    if drop.destination.None? then Ignore(NoDestination)
    else
      var dest := drop.destination.value;
      if drop.source.droppableId == dest.droppableId && drop.source.index == dest.index then Ignore(SamePlace)
      else
        var id := drop.draggableId;
        match FindById(participants, id)
        case None => Ignore(UnknownParticipant)
        case Some(p) =>
          match Route(dest.droppableId)
          case UnassignedArea(t) =>
            if t != Some(p.kind) then RejectWrongArea
            else if id in m then Remove(id)
            else Ignore(NotAssigned)
          case CampSlot(campId, group) =>
            if group != Some(p.kind) then RejectWrongArea
            else if GuardFires(m, id, campId, p.kind, guard) then RejectFull
            else Put(id, Assignment(campId, p.kind))
          case UnassignedPool =>
            if id in m then Remove(id) else Ignore(NotAssigned)
  }

  /** The dictionary after the decision's request settles: a put or a remove
      takes effect only when the request succeeds. */
  function Apply(m: map<string, Assignment>, d: Decision, requestOk: bool): (r: map<string, Assignment>)
    ensures requestOk && d.Put? ==> r.Keys == m.Keys + {d.id} && r[d.id] == d.assignment
                                    && forall k :: k in m && k != d.id ==> r[k] == m[k]
    ensures requestOk && d.Remove? ==> r.Keys == m.Keys - {d.id}
                                       && forall k :: k in r ==> r[k] == m[k]
    ensures !requestOk || !(d.Put? || d.Remove?) ==> r == m
  {
    match d
    case Put(id, a) => if requestOk then m[id := a] else m
    case Remove(id) => if requestOk then m - {id} else m
    case _ => m
  }

  /** The page's main move: a known participant dropped on a slot group of
      a camp, the group of its own type, is put into that camp and group,
      and a successful request stores exactly that assignment. */
  lemma DropIntoCampPuts(participants: seq<Participant>, m: map<string, Assignment>, drop: DropResult,
                         camp: Camp, p: Participant)
    requires camp in Camps
    requires FindById(participants, drop.draggableId) == Some(p)
    requires p.kind == Leader || p.kind == Supporter
    requires drop.destination.Some? && drop.destination.value != drop.source
    requires drop.destination.value.droppableId == SlotDroppableId(camp.id, p.kind)
    ensures Decide(participants, m, drop, AsWritten) == Put(p.id, Assignment(camp.id, p.kind))
    ensures Apply(m, Decide(participants, m, drop, AsWritten), true) == m[p.id := Assignment(camp.id, p.kind)]
  {
    RenderedDroppablesRoute(camp, p.kind);
    CapacityGuardNeverFires(m, drop.draggableId, camp.id, p.kind);
  }

  /** A known participant dropped on the unassigned area of its own type,
      or on the plain `unassigned` pool, is removed when it has an
      assignment and ignored otherwise. */
  lemma DropOnUnassignedRemoves(participants: seq<Participant>, m: map<string, Assignment>, drop: DropResult,
                                p: Participant, guard: GuardVersion)
    requires FindById(participants, drop.draggableId) == Some(p)
    requires p.kind == Leader || p.kind == Supporter
    requires drop.destination.Some? && drop.destination.value != drop.source
    requires drop.destination.value.droppableId in {UnassignedDroppableId(p.kind), "unassigned"}
    ensures Decide(participants, m, drop, guard) == if p.id in m then Remove(p.id) else Ignore(NotAssigned)
    ensures Apply(m, Decide(participants, m, drop, guard), true) == m - {p.id}
  {
    RenderedDroppablesRoute(Camps[0], p.kind);
    assert !StartsWith("unassigned", "unassigned-");
  }

  /** Dropping into an area of the other participant type is rejected, and
      the dictionary stays as it was whatever the network does. */
  lemma RoleMismatchRejected(participants: seq<Participant>, m: map<string, Assignment>, drop: DropResult,
                             guard: GuardVersion, requestOk: bool)
    requires drop.destination.Some? && drop.destination.value != drop.source
    requires FindById(participants, drop.draggableId).Some?
    requires var p := FindById(participants, drop.draggableId).value;
             match Route(drop.destination.value.droppableId)
             case UnassignedArea(t) => t != Some(p.kind)
             case CampSlot(_, g) => g != Some(p.kind)
             case UnassignedPool => false
    ensures Decide(participants, m, drop, guard) == RejectWrongArea
    ensures Apply(m, Decide(participants, m, drop, guard), requestOk) == m
  {
  }

  /** As written, the page never rejects a drop because a group is full. */
  lemma AsWrittenNeverFull(participants: seq<Participant>, m: map<string, Assignment>, drop: DropResult)
    ensures Decide(participants, m, drop, AsWritten) != RejectFull
  {
    if drop.destination.Some? {
      match Route(drop.destination.value.droppableId)
      case CampSlot(campId, _) =>
        if FindById(participants, drop.draggableId).Some? {
          CapacityGuardNeverFires(m, drop.draggableId, campId, FindById(participants, drop.draggableId).value.kind);
        }
      case _ =>
    }
  }

  /** Moving a participant inside the slot group it already occupies (a
      reorder) sends an update but leaves the dictionary as it was: no
      positions are renumbered. */
  lemma ReorderWithinGroupKeepsMap(participants: seq<Participant>, m: map<string, Assignment>, drop: DropResult,
                                   camp: Camp, requestOk: bool)
    requires camp in Camps
    requires FindById(participants, drop.draggableId).Some?
    requires var p := FindById(participants, drop.draggableId).value;
             (p.kind == Leader || p.kind == Supporter)
             && drop.draggableId in m && m[drop.draggableId] == Assignment(camp.id, p.kind)
             && drop.destination.Some?
             && drop.destination.value.droppableId == SlotDroppableId(camp.id, p.kind)
             && drop.destination.value != drop.source
    ensures Decide(participants, m, drop, AsWritten).Put?
    ensures Apply(m, Decide(participants, m, drop, AsWritten), requestOk) == m
  {
    var p := FindById(participants, drop.draggableId).value;
    RenderedDroppablesRoute(camp, p.kind);
    CapacityGuardNeverFires(m, drop.draggableId, camp.id, p.kind);
  }

  // ---------------------------------------------------------------------
  // Invariants of the dictionary

  /** Every group holds at most its capacity. */
  ghost predicate WithinCapacity(m: map<string, Assignment>)
  {
    forall campId, position :: Occupancy(m, campId, position) <= Capacity(position)
  }

  /** Every loaded participant that has an assignment sits in the slot group
      of its own type. */
  ghost predicate TypedPlacement(participants: seq<Participant>, m: map<string, Assignment>)
  {
    forall p :: p in participants && p.id in m ==> m[p.id].position == p.kind
  }

  /** No two loaded participants share an id. */
  ghost predicate UniqueIds(participants: seq<Participant>)
  {
    forall i, j :: 0 <= i < j < |participants| ==> participants[i].id != participants[j].id
  }

  /** A drop never puts a participant into the group of the other type: the
      placement invariant survives every drag, with either guard. */
  lemma DropKeepsTypedPlacement(participants: seq<Participant>, m: map<string, Assignment>, drop: DropResult,
                                guard: GuardVersion, requestOk: bool)
    requires UniqueIds(participants) && TypedPlacement(participants, m)
    ensures TypedPlacement(participants, Apply(m, Decide(participants, m, drop, guard), requestOk))
  {
    var d := Decide(participants, m, drop, guard);
    var m' := Apply(m, d, requestOk);
    if d.Put? && requestOk {
      forall q | q in participants && q.id in m'
        ensures m'[q.id].position == q.kind
      {
        if q.id == d.id {
          var p :| p in participants && p.id == d.id && d.assignment.position == p.kind;
          var i :| 0 <= i < |participants| && participants[i] == p;
          var j :| 0 <= j < |participants| && participants[j] == q;
          assert i == j;
        }
      }
    }
  }

  /** Removing a key or changing keys other than those in a group's set
      cannot grow the group beyond the original set plus the changed key. */
  lemma OccupancyAfterPut(m: map<string, Assignment>, id: string, a: Assignment, campId: string, position: string)
    ensures a != Assignment(campId, position) ==> Occupancy(m[id := a], campId, position) <= Occupancy(m, campId, position)
    ensures a == Assignment(campId, position) ==> Occupancy(m[id := a], campId, position) <= Occupancy(m, campId, position) + 1
    ensures a == Assignment(campId, position) && id in m && m[id] == a ==>
              Occupancy(m[id := a], campId, position) == Occupancy(m, campId, position)
  {
    var m' := m[id := a];
    var target := Assignment(campId, position);
    var before := set k | k in m && m[k] == target;
    var after := set k | k in m' && m'[k] == target;
    if a != target {
      assert after <= before;
      SubsetCardinality(after, before);
    } else {
      assert after == before + {id};
      if id in m && m[id] == a {
        assert after == before;
      }
    }
  }

  /** A removal never grows a group. */
  lemma OccupancyAfterRemove(m: map<string, Assignment>, id: string, campId: string, position: string)
    ensures Occupancy(m - {id}, campId, position) <= Occupancy(m, campId, position)
  {
    var target := Assignment(campId, position);
    var before := set k | k in m && m[k] == target;
    var after := set k | k in m - {id} && (m - {id})[k] == target;
    assert after <= before;
    SubsetCardinality(after, before);
  }

  lemma SubsetCardinality(a: set<string>, b: set<string>)
    requires a <= b
    ensures |a| <= |b|
  {
    assert b == a + (b - a);
  }

  /** With the intended guard, a drag never overfills a group, provided the
      loaded participants sit in the groups of their own types. */
  lemma IntendedDropKeepsCapacity(participants: seq<Participant>, m: map<string, Assignment>, drop: DropResult,
                                  requestOk: bool)
    requires WithinCapacity(m) && TypedPlacement(participants, m)
    ensures WithinCapacity(Apply(m, Decide(participants, m, drop, Intended), requestOk))
  {
    var d := Decide(participants, m, drop, Intended);
    var m' := Apply(m, d, requestOk);
    forall campId, position
      ensures Occupancy(m', campId, position) <= Capacity(position)
    {
      assert Occupancy(m, campId, position) <= Capacity(position);
      if requestOk && d.Put? {
        OccupancyAfterPut(m, d.id, d.assignment, campId, position);
        if d.assignment == Assignment(campId, position) {
          var p := FindById(participants, d.id).value;
          assert d.assignment.position == p.kind;
          if Occupancy(m, campId, position) >= Capacity(position) {
            assert !GuardFires(m, d.id, campId, position, Intended);
            assert d.id in m && m[d.id].campId == campId;
            assert m[d.id] == d.assignment;
          }
        }
      } else if requestOk && d.Remove? {
        OccupancyAfterRemove(m, d.id, campId, position);
      }
    }
  }

  /** As written, a full group still accepts another participant of its
      type: the guard lets the drop through and a successful update leaves
      the group one over capacity. */
  lemma AsWrittenOverfillsGroup(participants: seq<Participant>, m: map<string, Assignment>, drop: DropResult, camp: Camp)
    requires camp in Camps
    requires FindById(participants, drop.draggableId).Some?
    requires FindById(participants, drop.draggableId).value.kind == Leader
    requires drop.draggableId !in m
    requires Occupancy(m, camp.id, Leader) == Capacity(Leader)
    requires drop.destination == Some(Location(SlotDroppableId(camp.id, Leader), 0))
    requires drop.source.droppableId == UnassignedDroppableId(Leader)
    ensures Decide(participants, m, drop, AsWritten) == Put(drop.draggableId, Assignment(camp.id, Leader))
    ensures Occupancy(Apply(m, Decide(participants, m, drop, AsWritten), true), camp.id, Leader) == Capacity(Leader) + 1
    ensures Decide(participants, m, drop, Intended) == RejectFull
  {
    RenderedDroppablesRoute(camp, Leader);
    assert drop.source != drop.destination.value by {
      assert SlotDroppableId(camp.id, Leader)[0] == 'c';
      assert UnassignedDroppableId(Leader)[0] == 'u';
    }
    CapacityGuardNeverFires(m, drop.draggableId, camp.id, Leader);
    OccupancyAfterNewPut(m, drop.draggableId, camp.id, Leader);
  }

  /** Placing a participant that had no assignment adds one to its group. */
  lemma OccupancyAfterNewPut(m: map<string, Assignment>, id: string, campId: string, position: string)
    requires id !in m
    ensures Occupancy(m[id := Assignment(campId, position)], campId, position) == Occupancy(m, campId, position) + 1
  {
    var target := Assignment(campId, position);
    var before := set k | k in m && m[k] == target;
    var m' := m[id := target];
    var after := set k | k in m' && m'[k] == target;
    assert after == before + {id};
  }

  // ---------------------------------------------------------------------
  // The lists the page renders

  /** `getUnassignedParticipantsByType(t)`: participants of type `t` that
      have no assignment, in loading order. */
  function UnassignedOfKind(participants: seq<Participant>, m: map<string, Assignment>, t: string): (r: seq<Participant>)
    ensures IsSubsequence(r, participants)
    ensures forall p :: p in r <==> p in participants && p.id !in m && p.kind == t
    ensures forall p :: multiset(r)[p] == if p.id !in m && p.kind == t then multiset(participants)[p] else 0
  {
    var keep := (p: Participant) => p.id !in m && p.kind == t;
    FilterMultiplicity(participants, keep);
    Filter(participants, keep)
  }

  /** `getParticipantsByCampAndPosition(campId, position)`: participants
      assigned to that camp and group whose own type is that group, in
      loading order. */
  function InCampGroup(participants: seq<Participant>, m: map<string, Assignment>, campId: string, position: string): (r: seq<Participant>)
    ensures IsSubsequence(r, participants)
    ensures forall p :: p in r <==> p in participants && p.id in m && m[p.id] == Assignment(campId, position) && p.kind == position
    ensures forall p :: multiset(r)[p] ==
              if p.id in m && m[p.id] == Assignment(campId, position) && p.kind == position then multiset(participants)[p] else 0
  {
    var keep := (p: Participant) => p.id in m && m[p.id] == Assignment(campId, position) && p.kind == position;
    FilterMultiplicity(participants, keep);
    Filter(participants, keep)
  }

  /** No participant is shown in two places: the unassigned lists and the
      slot-group lists are pairwise disjoint. */
  lemma ListsDisjoint(participants: seq<Participant>, m: map<string, Assignment>,
                      t: string, t2: string, campId: string, position: string, campId2: string, position2: string)
    ensures forall p :: p in UnassignedOfKind(participants, m, t) ==> p !in InCampGroup(participants, m, campId, position)
    ensures t != t2 ==> forall p :: p in UnassignedOfKind(participants, m, t) ==> p !in UnassignedOfKind(participants, m, t2)
    ensures (campId, position) != (campId2, position2) ==>
              forall p :: p in InCampGroup(participants, m, campId, position) ==> p !in InCampGroup(participants, m, campId2, position2)
  {
  }

  /** A participant whose stored group is not its own type is in no list at
      all: the page silently hides it. */
  lemma MisplacedParticipantHidden(participants: seq<Participant>, m: map<string, Assignment>, p: Participant,
                                   t: string, campId: string, position: string)
    requires p.id in m && m[p.id].position != p.kind
    ensures p !in UnassignedOfKind(participants, m, t)
    ensures p !in InCampGroup(participants, m, campId, position)
  {
  }

  // ---------------------------------------------------------------------
  // Empty slots

  /** The key of an empty slot placeholder, `empty-<campId>-<position>-<i>`. */
  datatype SlotKey = SlotKey(campId: string, position: string, i: nat)

  /** `Math.max(0, maxSlots - filledCount)`: the filled and empty slots of a
      group together make up its capacity, and an overfull group shows no
      empty slot. */
  function EmptySlotCount(position: string, filledCount: nat): (n: nat)
    ensures filledCount <= Capacity(position) ==> filledCount + n == Capacity(position)
    ensures filledCount >= Capacity(position) ==> n == 0
  {
    Max(0, Capacity(position) - filledCount)
  }

  /** `renderEmptySlots`: one placeholder per free place, keyed by its index. */
  method RenderEmptySlots(campId: string, position: string, filledCount: nat) returns (slots: seq<SlotKey>)
    ensures |slots| == EmptySlotCount(position, filledCount)
    ensures forall i :: 0 <= i < |slots| ==> slots[i] == SlotKey(campId, position, i)
  {
    var maxSlots := if position == Leader then 8 else 3;
    var remaining := if maxSlots - filledCount < 0 then 0 else maxSlots - filledCount;
    slots := [];
    var i := 0;
    while i < remaining
      invariant 0 <= i <= remaining
      invariant |slots| == i
      invariant forall k :: 0 <= k < i ==> slots[k] == SlotKey(campId, position, k)
    {
      slots := slots + [SlotKey(campId, position, i)];
      i := i + 1;
    }
  }

  // ---------------------------------------------------------------------
  // The page state

  /** The page's state: the loaded participants and the `assignments`
      dictionary. */
  class AssignmentBoard {
    var participants: seq<Participant>
    var assignments: map<string, Assignment>
    var loading: bool

    constructor ()
      ensures participants == [] && assignments == map[] && loading
    {
      participants := [];
      assignments := map[];
      loading := true;
    }

    /** The mount-time fetch: both lists must arrive before anything is
        stored; the participants are stored before the dictionary is built,
        so a build that throws leaves the dictionary as it was. */
    method Load(fetchedParticipants: Option<seq<Participant>>, fetchedRows: Option<seq<AssignmentRow>>)
      modifies this
      ensures !loading
      ensures fetchedParticipants.None? || fetchedRows.None? ==>
                participants == old(participants) && assignments == old(assignments)
      ensures fetchedParticipants.Some? && fetchedRows.Some? ==>
                participants == fetchedParticipants.value
                && assignments == AssignmentMapOf(fetchedRows.value).GetOr(old(assignments))
    {
      loading := true;
      if fetchedParticipants.Some? && fetchedRows.Some? {
        participants := fetchedParticipants.value;
        var built := BuildAssignmentMap(fetchedRows.value);
        if built.Some? {
          assignments := built.value;
        }
      }
      loading := false;
    }

    /** `handleDragEnd`: decide, send the request (its outcome is
        `requestOk`), and update the dictionary only after it succeeds. */
    method HandleDragEnd(drop: DropResult, requestOk: bool) returns (d: Decision)
      modifies this`assignments
      ensures d == Decide(participants, old(assignments), drop, AsWritten)
      ensures assignments == Apply(old(assignments), d, requestOk)
    {
      if drop.destination.None? {
        return Ignore(NoDestination);
      }
      var dest := drop.destination.value;
      if drop.source.droppableId == dest.droppableId && drop.source.index == dest.index {
        return Ignore(SamePlace);
      }
      var found := FindById(participants, drop.draggableId);
      if found.None? {
        return Ignore(UnknownParticipant);
      }
      var participant := found.value;
      var id := drop.draggableId;
      var parts := Split(dest.droppableId, '-');
      if StartsWith(dest.droppableId, "unassigned-") {
        var targetType := Part(parts, 1);
        if targetType != Some(participant.kind) {
          return RejectWrongArea;
        }
        d := RemoveAssignment(id, requestOk);
      } else if dest.droppableId != "unassigned" {
        var campId, position := parts[0], Part(parts, 1);
        if position != Some(participant.kind) {
          return RejectWrongArea;
        }
        var inDestination := Occupancy(assignments, campId, participant.kind);
        var maxCount := if participant.kind == Leader then 8 else 3;
        if inDestination >= maxCount && StrictEquals(Bool(!Truthy(CampIdOf(assignments, id))), Str(campId)) {
          return RejectFull;
        }
        d := Put(id, Assignment(campId, participant.kind));
        if requestOk {
          assignments := assignments[id := Assignment(campId, participant.kind)];
        }
      } else {
        d := RemoveAssignment(id, requestOk);
      }
    }

    /** Delete the participant's assignment, if it has one, once the delete
        request succeeds. */
    method RemoveAssignment(id: string, requestOk: bool) returns (d: Decision)
      modifies this`assignments
      ensures d == if id in old(assignments) then Remove(id) else Ignore(NotAssigned)
      ensures assignments == Apply(old(assignments), d, requestOk)
    {
      if id in assignments {
        d := Remove(id);
        if requestOk {
          assignments := assignments - {id};
        }
      } else {
        d := Ignore(NotAssigned);
      }
    }
  }
}
