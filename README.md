# CISV review console: a Dafny model of its page logic

The CISV review console is a React front end over a REST backend. This
project models the state and logic of five parts of it in Dafny and proves
properties about them:

- **Camp assignment** (`CampAssignment`, camp_assignment.dfy). There are six
  fixed camps, each with a `leader` group of 8 places and a `supporter`
  group of 3. The `assignments` dictionary maps a participant id to a camp
  and group. At load time it is built from the backend's rows. Each drag
  end is classified (ignored, rejected, put or remove), and the dictionary
  changes only after the backend request succeeds. The page's capacity
  guard is modelled exactly as written. It is proved never to fire, and the
  guard the authors evidently intended is proved to keep every group within
  capacity.
- **Supporter ranking** (`SupporterRanking`, supporter_ranking.dfy). Covers:
  - the per-criterion average over the evaluations that give the criterion
    a truthy score;
  - the stable descending sort by that average;
  - the evidence list of an expanded supporter;
  - the tab and expand/collapse state.
- **Evaluation form** (`EvaluationForm`, evaluation_form.dfy). The rubric is
  chosen by participant type. The form has per-index edits of an entry copy
  and a submit that keeps only entries whose evidence is not blank.
- **Admin selection** (`AdminSelection`, admin_selection.dfy). Covers:
  - the first submit, which routes an admin to the PIN dialog or logs them
    in directly;
  - the four-cell digit buffer and its focus movement;
  - the PIN check: local for "Quân Hoàng" against "1408", by the backend
    for everyone else.
- **Check-in** (`CheckIn`, check_in.dfy). Covers:
  - the case-insensitive name search, which the evaluation page uses too;
  - the dialog and camera state;
  - the capture button's enable condition;
  - the capture handler, whose check-in answer replaces the participant's
    record by id.

Shared pieces:
- seqs.dfy: `Option`, subsequences, `filter` and `map`.
- text.dfy: JavaScript's `trim`, `split`, `startsWith`, `includes`, ASCII
  `toLowerCase`, the `/^\d+$/` test and `join('')`.
- domain.dfy: the participant and criterion-score records, plus
  `find`-by-id.

Every network call is an input to the method that makes it. The input says
whether the call succeeded and, where the page reads the answer, what the
answer was. A JavaScript exception that the page does not catch leaves the
state as it was. One that it catches takes the `catch` branch.

## Model

| member | source | states |
|---|---|---|
| Domain.FindById | src/pages/CampAssignmentPage.jsx:95 | `find` by `_id`: `None` exactly when no participant has the id; otherwise a member with that id and no earlier match |
| Text.Trim | src/components/EvaluationForm.jsx:62 | `trim()`: no longer than the input, and it neither starts nor ends with JavaScript whitespace |
| Text.TrimIsInfix | src/components/EvaluationForm.jsx:62 | the input is a blank prefix, the trimmed text and a blank suffix, in that order |
| Text.TrimEmptyIffBlank | src/components/EvaluationForm.jsx:62 | `s.trim() === ''` exactly when every character of `s` is JavaScript whitespace |
| Text.SplitPair | src/pages/CampAssignmentPage.jsx:134 | two pieces without `-`, joined by one `-`, split back into exactly those two pieces |
| Text.SplitJoin | src/pages/CampAssignmentPage.jsx:107 | `split` loses nothing: joining the pieces with the separator gives back the id |
| Text.Split | src/pages/CampAssignmentPage.jsx:134 | `split('-')` gives at least one piece, and no piece contains the separator |
| Text.Lower | src/pages/CheckInPage.jsx:66 | `toLowerCase()` keeps the length, maps `A`-`Z` to lower case and leaves every other character alone (ASCII only) |
| Text.IsDigits | src/pages/AdminSelection.jsx:129 | `/^\d+$/.test(v)`: `v` is non-empty and every character is `0`-`9` |
| Text.Concat | src/pages/AdminSelection.jsx:70 | `join('')`: the length is the sum of the pieces' lengths (order: `AdminSelection.ConcatSingleCharacters`) |
| Text.IncludesEmpty | src/pages/CheckInPage.jsx:66 | every string includes the empty string |
| CampAssignment.Capacity | src/pages/CampAssignmentPage.jsx:147 | a group has 8 places exactly when it is `leader`, otherwise 3 |
| CampAssignment.AssignmentMapOf | src/pages/CampAssignmentPage.jsx:52-59 | the build fails exactly when some row has a `null` participant; otherwise the keys are exactly the participants the rows mention |
| CampAssignment.LastRowWins | src/pages/CampAssignmentPage.jsx:54-58 | a participant's entry comes from the last row about it |
| CampAssignment.BuildAssignmentMap | src/pages/CampAssignmentPage.jsx:53-59 | the `forEach` loop builds `AssignmentMapOf(rows)` and stops at a `null` participant |
| CampAssignment.RenderedDroppablesRoute | src/pages/CampAssignmentPage.jsx:105-134 | each rendered droppable id (`campN-leader`, `campN-supporter`, `unassigned-<type>`) parses back to the camp and group it was built from |
| CampAssignment.Route | src/pages/CampAssignmentPage.jsx:105-134 | an id starting with `unassigned-` is an unassigned area; the exact id `unassigned` is the pool; any other id is a camp slot whose camp id and group contain no `-` |
| CampAssignment.Occupancy | src/pages/CampAssignmentPage.jsx:143-145 | the number of dictionary entries whose camp and group are the destination's (definition; its changes are stated by `OccupancyAfterPut` and `OccupancyAfterNewPut`) |
| CampAssignment.GuardFires | src/pages/CampAssignmentPage.jsx:147-148 | the group is at capacity and, as written, `!assignments[id]?.campId === campId` holds, or, as intended, `assignments[id]?.campId !== campId` (definition; see `CapacityGuardNeverFires`) |
| CampAssignment.CapacityGuardNeverFires | src/pages/CampAssignmentPage.jsx:148 | `!assignments[id]?.campId === campId` is false for every dictionary, id and camp |
| CampAssignment.Decide | src/pages/CampAssignmentPage.jsx:82-193 | no destination, or the same droppable and index, is ignored; an unknown id is ignored; a put carries the participant's own type as its group; a remove needs an existing key (the main moves: `DropIntoCampPuts`, `DropOnUnassignedRemoves`) |
| CampAssignment.DropIntoCampPuts | src/pages/CampAssignmentPage.jsx:133-165 | a known leader or supporter dropped on `<camp>-<its own type>` gives `Put(id, Assignment(camp, type))`, and a successful request stores exactly that entry |
| CampAssignment.DropOnUnassignedRemoves | src/pages/CampAssignmentPage.jsx:105-132 | a known participant dropped on `unassigned-<its own type>` is removed when it has an entry and ignored otherwise; a successful request leaves the dictionary without its id |
| CampAssignment.Apply | src/pages/CampAssignmentPage.jsx:115-191 | a successful put sets exactly that key; a successful remove deletes exactly that key; a failed request or any other decision leaves the dictionary unchanged |
| CampAssignment.RoleMismatchRejected | src/pages/CampAssignmentPage.jsx:105-140 | dropping into the unassigned area or slot group of the other type is rejected, and the dictionary is unchanged |
| CampAssignment.AsWrittenNeverFull | src/pages/CampAssignmentPage.jsx:143-151 | the "group is full" rejection is unreachable as written |
| CampAssignment.ReorderWithinGroupKeepsMap | src/pages/CampAssignmentPage.jsx:153-165 | reordering inside the occupied group sends an update but leaves the dictionary unchanged (no renumbering) |
| CampAssignment.DropKeepsTypedPlacement | src/pages/CampAssignmentPage.jsx:133-165 | if every assigned participant sits in its own type's group, this still holds after any drop, with either guard |
| CampAssignment.IntendedDropKeepsCapacity | src/pages/CampAssignmentPage.jsx:143-151 | with the intended guard `assignments[id]?.campId !== campId`, no drop takes a group over capacity |
| CampAssignment.AsWrittenOverfillsGroup | src/pages/CampAssignmentPage.jsx:148 | as written, a full leader group accepts a ninth leader and its occupancy becomes 9; the intended guard rejects the same drop |
| CampAssignment.UnassignedOfKind | src/pages/CampAssignmentPage.jsx:196-198 | an order-preserving subsequence of the participants, containing exactly the unassigned participants of the type, each as often as in the input |
| CampAssignment.InCampGroup | src/pages/CampAssignmentPage.jsx:201-207 | an order-preserving subsequence, containing exactly the participants stored in that camp and group whose type is the group, each as often as in the input |
| CampAssignment.ListsDisjoint | src/pages/CampAssignmentPage.jsx:196-207 | no participant appears in two of the rendered lists |
| CampAssignment.MisplacedParticipantHidden | src/pages/CampAssignmentPage.jsx:196-207 | a participant stored in the other type's group appears in no list |
| CampAssignment.EmptySlotCount | src/pages/CampAssignmentPage.jsx:280-281 | filled plus empty places equal the capacity, and an overfull group shows no empty place |
| CampAssignment.RenderEmptySlots | src/pages/CampAssignmentPage.jsx:278-306 | the loop pushes `EmptySlotCount` placeholders, keyed `0, 1, …` |
| CampAssignment.AssignmentBoard.constructor | src/pages/CampAssignmentPage.jsx:32-34 | no participants, an empty dictionary, loading |
| CampAssignment.AssignmentBoard.Load | src/pages/CampAssignmentPage.jsx:40-71 | nothing is stored unless both fetches succeed; participants are stored before the build, and a failed build keeps the old dictionary |
| CampAssignment.AssignmentBoard.HandleDragEnd | src/pages/CampAssignmentPage.jsx:82-193 | the handler takes `Decide(…, AsWritten)` and leaves the dictionary as `Apply` of it |
| CampAssignment.AssignmentBoard.RemoveAssignment | src/pages/CampAssignmentPage.jsx:115-128 | an assigned participant is removed once the delete succeeds; an unassigned one causes no request and no change |
| SupporterRanking.SupportersOnly | src/pages/SupporterRankingPage.jsx:43-45 | exactly the participants of type `supporter`, in order, each as often as in the input |
| SupporterRanking.FindCriterion | src/pages/SupporterRankingPage.jsx:122 | the first criterion entry with the name, or `None` when there is none |
| SupporterRanking.CountedScore | src/pages/SupporterRankingPage.jsx:122-126 | an evaluation contributes exactly when its first entry with the name has a truthy score; that score is non-zero |
| SupporterRanking.CountedScores | src/pages/SupporterRankingPage.jsx:121-127 | at most one score per evaluation, none of them zero (which ones: `CountedScoresListsExactly`) |
| SupporterRanking.CountedScoresListsExactly | src/pages/SupporterRankingPage.jsx:121-127 | the averaged scores are, in order, the counted score of each evaluation whose first entry with the name has a truthy score; every other evaluation adds nothing |
| SupporterRanking.AverageBounds | src/pages/SupporterRankingPage.jsx:117-129 | the average of a non-empty list lies between its smallest and largest score |
| SupporterRanking.EvaluationsOf | src/pages/SupporterRankingPage.jsx:111 | `evaluations[id] \|\| []` (definition) |
| SupporterRanking.AverageOf | src/pages/SupporterRankingPage.jsx:129 | `count > 0 ? totalScore / count : 0` over exact reals (definition; bounds: `AverageBounds`) |
| SupporterRanking.AverageScore | src/pages/SupporterRankingPage.jsx:110-130 | 0 with no evaluations or no counted score; otherwise between the smallest and largest counted score |
| SupporterRanking.CalculateAverageScore | src/pages/SupporterRankingPage.jsx:110-130 | the method returns `AverageScore` |
| SupporterRanking.AccumulateScores | src/pages/SupporterRankingPage.jsx:117-127 | the `forEach` leaves `totalScore` as the sum of the counted scores and `count` as their number |
| SupporterRanking.RowOf | src/pages/SupporterRankingPage.jsx:138-149 | a row exactly when the evaluation has a counted score; the row carries the evaluation's id and that score |
| SupporterRanking.ShowsEvidence | src/pages/SupporterRankingPage.jsx:151 | the row is not `null` and its evidence is non-empty with a non-whitespace character (definition) |
| SupporterRanking.CriterionEvidence | src/pages/SupporterRankingPage.jsx:133-152 | at most one row per evaluation; every row has a non-zero score and evidence that is not blank |
| SupporterRanking.CriterionEvidenceListsExactly | src/pages/SupporterRankingPage.jsx:133-152 | map-then-filter lists exactly the rows of the evaluations with a counted score and non-blank evidence, in input order |
| SupporterRanking.InsertDescending | src/pages/SupporterRankingPage.jsx:155-161 | inserting into a non-increasing list gives a non-increasing permutation of the list plus the element |
| SupporterRanking.SortDescending | src/pages/SupporterRankingPage.jsx:155-161 | the result is a permutation of the input, non-increasing by key |
| SupporterRanking.SortIsStable | src/pages/SupporterRankingPage.jsx:155-161 | elements with equal keys keep their input order, as in JavaScript's stable `sort` |
| SupporterRanking.SortedSupporters | src/pages/SupporterRankingPage.jsx:155-161 | a permutation of the supporters, non-increasing by average for the selected criterion; supporters with equal averages keep their loading order |
| SupporterRanking.TabCriteriaAgainstRubric | src/pages/SupporterRankingPage.jsx:17-24 | of the five tab names, only "Năng lượng" is a supporter rubric criterion, despite the comment that they match |
| SupporterRanking.RubricEvaluationsScoreZeroOnOtherTabs | src/pages/SupporterRankingPage.jsx:117-129 | evaluations using the supporter rubric's names average 0 on every tab but the first |
| SupporterRanking.BuildEvaluationsMap | src/pages/SupporterRankingPage.jsx:60-63 | the map's keys are exactly the supporters' ids; each holds that supporter's fetched evaluations, or `[]` where the fetch failed |
| SupporterRanking.RankingView.constructor | src/pages/SupporterRankingPage.jsx:27-33 | empty lists, first tab, nothing expanded, loading |
| SupporterRanking.RankingView.Load | src/pages/SupporterRankingPage.jsx:35-76 | a failed participant fetch stores nothing; otherwise the supporters and their evaluation map are stored; loading ends |
| SupporterRanking.RankingView.HandleTabChange | src/pages/SupporterRankingPage.jsx:86-89 | the new tab is selected and the expansion is reset |
| SupporterRanking.RankingView.ToggleExpandSupporter | src/pages/SupporterRankingPage.jsx:105-107 | toggling the expanded supporter collapses it; toggling another makes it the single expanded one |
| SupporterRanking.RankingView.SortedView | src/pages/SupporterRankingPage.jsx:155-161 | the rendered order is a permutation of the stored supporters, non-increasing by average for the selected tab, with equal averages in loading order |
| EvaluationForm.CriteriaFor | src/components/EvaluationForm.jsx:9-33 | 8 criteria for `leader`, 7 for any other type; no repeated name; both rubrics start with "Năng lượng" |
| EvaluationForm.InitialEntries | src/components/EvaluationForm.jsx:35-41 | one entry per criterion, same name and order, score 0, empty evidence |
| EvaluationForm.HasEvidence | src/components/EvaluationForm.jsx:62 | `evidence.trim() !== ''` (definition; meaning: `SentIffEvidenceNotBlank`) |
| EvaluationForm.WithEvidence | src/components/EvaluationForm.jsx:61-63 | an order-preserving subsequence, containing exactly the entries whose trimmed evidence is not empty, each as often as in the form |
| EvaluationForm.SentIffEvidenceNotBlank | src/components/EvaluationForm.jsx:61-63 | an entry is sent exactly when its evidence has a non-whitespace character, whatever its score |
| EvaluationForm.NothingSentIffAllBlank | src/components/EvaluationForm.jsx:60-69 | nothing is sent exactly when every evidence is blank |
| EvaluationForm.SentNamesFollowForm | src/components/EvaluationForm.jsx:61-73 | the names of the sent entries follow the form's order |
| EvaluationForm.CopyOf | src/components/EvaluationForm.jsx:46 | `[...evaluations]` is a fresh array with the same entries |
| EvaluationForm.FormState.constructor | src/components/EvaluationForm.jsx:31-43 | the rubric for the participant's type, its initial entries, no error |
| EvaluationForm.FormState.HandleScoreChange | src/components/EvaluationForm.jsx:45-49 | only entry `index`'s score changes; the length and every other entry are kept |
| EvaluationForm.FormState.HandleEvidenceChange | src/components/EvaluationForm.jsx:51-55 | only entry `index`'s evidence changes; the length and every other entry are kept |
| EvaluationForm.FormState.HandleSubmit | src/components/EvaluationForm.jsx:57-74 | with no evidence anywhere, the error is set and nothing is sent; otherwise the error is cleared and the non-blank entries are sent |
| AdminSelection.FindAdmin | src/pages/AdminSelection.jsx:49 | `find` by `_id`: `None` exactly when no admin has the id; otherwise an admin with that id and no earlier match |
| AdminSelection.NeedsPassword | src/pages/AdminSelection.jsx:52 | the admin is named "Quân Hoàng" or has the super-admin flag (definition) |
| AdminSelection.CellOk | src/pages/AdminSelection.jsx:129 | a cell value is accepted when it is empty or `/^\d+$/` holds (definition) |
| AdminSelection.Complete | src/pages/AdminSelection.jsx:64 | no cell is the empty string (definition) |
| AdminSelection.LocalLogin | src/pages/AdminSelection.jsx:78-104 | success exactly when the password is "1408"; the stored record keeps the admin's id and name |
| AdminSelection.ConcatSingleCharacters | src/pages/AdminSelection.jsx:70 | the password lists the cells' digits in cell order |
| AdminSelection.FilledCellsLength | src/pages/AdminSelection.jsx:64-70 | a password from filled cells is at least as long as the number of cells, and equally long only when each cell holds one digit |
| AdminSelection.PinMatchesExactly | src/pages/AdminSelection.jsx:64-104 | with four filled cells, the password is "1408" exactly when the cells are "1", "4", "0", "8" |
| AdminSelection.AdminLogin.constructor | src/pages/AdminSelection.jsx:17-22 | no admins, no selection, four empty cells, dialog closed, no error, not loading |
| AdminSelection.AdminLogin.Mount | src/pages/AdminSelection.jsx:26-44 | a stored admin redirects without fetching; otherwise a successful fetch becomes the admin list |
| AdminSelection.AdminLogin.HandleSubmit | src/pages/AdminSelection.jsx:46-58 | no selection does nothing; "Quân Hoàng" or a super admin opens the dialog; anyone else is stored and redirected |
| AdminSelection.AdminLogin.HandleLogin | src/pages/AdminSelection.jsx:160-168 | loading, the admin is stored, redirect scheduled |
| AdminSelection.AdminLogin.HandleDigitChange | src/pages/AdminSelection.jsx:127-148 | a non-digit value changes nothing; otherwise only cell `index` changes and cells stay digits-or-empty; a non-empty value before the last cell moves focus to the next |
| AdminSelection.AdminLogin.HandleKeyDown | src/pages/AdminSelection.jsx:150-158 | Backspace on an empty cell after the first moves focus to the previous cell, and nothing else does |
| AdminSelection.AdminLogin.HandlePasswordSubmit | src/pages/AdminSelection.jsx:60-125 | an empty cell gives the "4 digits" error with no attempt; "Quân Hoàng" is checked locally; others go to the backend; every failure sets the wrong-PIN error and stops loading |
| AdminSelection.AdminLogin.HandleClosePasswordDialog | src/pages/AdminSelection.jsx:170-175 | the dialog closes, the cells are four empty strings and so not complete (a submit straight after only asks for four digits), the error is cleared, loading stops |
| CheckIn.NameMatches | src/pages/CheckInPage.jsx:66 | the lowercased name includes the lowercased query (definition) |
| CheckIn.FilteredParticipants | src/pages/CheckInPage.jsx:65-67 | an order-preserving subsequence, containing exactly the participants whose lowercased name includes the lowercased query, each as often as in the list (also the filter of src/pages/EvaluationPage.jsx) |
| CheckIn.EmptyQueryShowsAll | src/pages/CheckInPage.jsx:65-67 | an empty query shows every participant, in order |
| CheckIn.SearchIgnoresQueryCase | src/pages/CheckInPage.jsx:65-67 | a query and its lowercase form show the same list |
| CheckIn.ReplaceById | src/pages/CheckInPage.jsx:167-171 | same length; entries with the id become the server record; the others are unchanged |
| CheckIn.ReplaceByIdIdempotent | src/pages/CheckInPage.jsx:167-171 | applying the same answer twice equals applying it once |
| CheckIn.ReplacedRecordIsFound | src/pages/CheckInPage.jsx:167-171 | when the record keeps the id, looking the id up afterwards finds the new record |
| CheckIn.Toggled | src/pages/CheckInPage.jsx:95-97 | the result is always "user" or "environment", and "environment" exactly when the mode was "user" |
| CheckIn.ToggleTwiceRestores | src/pages/CheckInPage.jsx:95-97 | toggling twice from "user" or "environment" returns to it |
| CheckIn.CaptureDisabled | src/pages/CheckInPage.jsx:837 | the capture button's `disabled` expression (definition; meaning: `EnabledUploadHasFile`) |
| CheckIn.EnabledUploadHasFile | src/pages/CheckInPage.jsx:837 | an enabled capture button means not loading, a ready camera on the camera tab, and a file on the upload tab |
| CheckIn.CheckInPage.constructor | src/pages/CheckInPage.jsx:31-42 | the initial state, facing mode "environment" |
| CheckIn.CheckInPage.Load | src/pages/CheckInPage.jsx:44-57 | a successful fetch becomes the list; a failed one keeps it |
| CheckIn.CheckInPage.Shown | src/pages/CheckInPage.jsx:65-67 | the shown list is an order-preserving subsequence containing exactly the participants whose name matches the query, each as often as in the list; an empty query shows them all |
| CheckIn.CheckInPage.HandleSearchChange | src/pages/CheckInPage.jsx:60-62 | the query becomes the typed value |
| CheckIn.CheckInPage.HandleCameraClick | src/pages/CheckInPage.jsx:77-83 | opens the dialog for the participant on the camera tab, with no file and the given re-check-in flag |
| CheckIn.CheckInPage.HandleTabChange | src/pages/CheckInPage.jsx:85-87 | the tab becomes the new value |
| CheckIn.CheckInPage.HandleFileChange | src/pages/CheckInPage.jsx:89-93 | the first chosen file becomes the selection; no file keeps the old one |
| CheckIn.CheckInPage.ClearSelectedFile | src/pages/CheckInPage.jsx:774 | the selection is cleared |
| CheckIn.CheckInPage.ToggleCamera | src/pages/CheckInPage.jsx:95-97 | the facing mode becomes `Toggled` of the old one |
| CheckIn.CheckInPage.HandleUserMedia | src/pages/CheckInPage.jsx:696 | the camera becomes ready |
| CheckIn.CheckInPage.HandleCloseDialog | src/pages/CheckInPage.jsx:194-200 | nothing changes while loading; otherwise the dialog closes and the participant, file and re-check-in flag are cleared |
| CheckIn.CheckInPage.HandleCapture | src/pages/CheckInPage.jsx:99-192 | without a participant, nothing; otherwise the requests sent, and the state: the record replaced and the dialog closed after a full success, nothing changed after any failure, loading false at the end |

## Findings

| source | as written | input that shows it | evidently intended | confidence | as-written member | corrected member |
|---|---|---|---|---|---|---|
| src/pages/CampAssignmentPage.jsx:148 | `!assignments[draggableId]?.campId === campId` negates first, then compares a boolean with a string, so it is always false | a `leader` group of `camp1` holding 8 leaders, and an unassigned leader dragged onto `camp1-leader`: the drop is accepted and the group holds 9 | `assignments[draggableId]?.campId !== campId`: reject when the group is full and the participant is not already in that camp | high (not executed) | CampAssignment.AsWrittenOverfillsGroup | CampAssignment.IntendedDropKeepsCapacity |

`CampAssignment.Decide` takes the guard as a parameter. The page method
`AssignmentBoard.HandleDragEnd` uses the guard as written, because that is
how the page behaves. `Decide(…, Intended)` is the corrected transition, and
`IntendedDropKeepsCapacity` proves the capacity invariant for it.

## Left out

- REST calls are not modelled as calls. Each is an input of the method that makes it (success or failure, and the answer where it is read). The backend's own behaviour is not part of this model, and neither is src/utils/api.js.
- src/utils/imageUtils.js (canvas and `FileReader` image compression) is not part of this model. A failed compression is folded into the failed-upload input of `CheckIn.CheckInPage.HandleCapture`.
- Concurrency is left out. Overlapping async handlers, and the gap between the `assignments` a drag handler reads and the `prev` its `setAssignments` updater receives, are not modelled; every handler runs to completion on the state it started from.
- Rendering, MUI styling, react-beautiful-dnd, the webcam component, snackbar messages, timers, navigation and `localStorage` are left out. Storage and a scheduled redirect appear only as the `stored` and `redirecting` fields of `AdminSelection.AdminLogin`.
- Text.Lower: only ASCII letters are lowercased; JavaScript's full Unicode `toLowerCase` is not modelled.
- SupporterRanking.AverageScore: scores are integers and averages exact reals; floating-point rounding and `toFixed` display are left out.
- EvaluationForm.FormState.HandleScoreChange: the source's shallow copy shares entry objects with the previous state array, and that aliasing is not modelled; the new entries are computed as values.
- EvaluationForm.FormState.HandleEvidenceChange: same shallow-copy aliasing as above.
- The evaluation date (`toLocaleString`) and the evaluator lookup beyond its name are left out of `SupporterRanking.EvidenceRow`.
- Image dialogs (`handleImageClick`, `handleCloseImageDialog`), snackbar handlers, avatars and `AdminManagementPage.jsx` are left out: they only render or call the backend.
- Exceptions the page does not catch (reading `name` of an admin that is not in the list in `handleSubmit`) are modelled as leaving the state unchanged. React's error reporting is not modelled. A `null` participant reference during the assignment load throws inside the `try`; it is caught, so the participants already stored stay, the dictionary is unchanged and loading ends, as `CampAssignment.AssignmentBoard.Load` states.
