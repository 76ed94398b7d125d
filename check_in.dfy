/** The check-in page: a name search over the participants, a dialog that
    takes a photo (camera tab) or an uploaded file (upload tab), and the
    check-in request whose answer replaces the participant's record in the
    list. The evaluation page filters its participants by name the same
    way, so it uses `FilteredParticipants` as well. */
module CheckIn {
  import opened Seqs
  import opened Text
  import opened Domain

  /** The two webcam facing modes. */
  const UserMode: string := "user"
  const EnvironmentMode: string := "environment"

  /** The dialog's tabs. */
  const CameraTab: int := 0
  const UploadTab: int := 1

  // ---------------------------------------------------------------------
  // Search

  /** `participant.name.toLowerCase().includes(query.toLowerCase())`. */
  predicate NameMatches(p: Participant, query: string)
  {
    Includes(Lower(p.name), Lower(query))
  }

  /** The search filter as a function value. */
  function MatchesQuery(query: string): Participant -> bool
  {
    (p: Participant) => NameMatches(p, query)
  }

  /** `filteredParticipants`: the participants whose name contains the
      query, ignoring ASCII case, in list order. */
  function FilteredParticipants(participants: seq<Participant>, query: string): (r: seq<Participant>)
    ensures IsSubsequence(r, participants)
    ensures forall p :: p in r <==> p in participants && Includes(Lower(p.name), Lower(query))
    ensures forall p :: multiset(r)[p] == if NameMatches(p, query) then multiset(participants)[p] else 0
  {
    FilterMultiplicity(participants, MatchesQuery(query));
    Filter(participants, MatchesQuery(query))
  }

  /** An empty search shows every participant, in order. */
  lemma EmptyQueryShowsAll(participants: seq<Participant>)
    ensures FilteredParticipants(participants, "") == participants
  {
    forall p | p in participants ensures MatchesQuery("")(p) {
      IncludesEmpty(Lower(p.name));
    }
    FilterKeepsAll(participants, MatchesQuery(""));
  }

  /** Lowercasing twice is lowercasing once. */
  lemma LowerIdempotent(s: string)
    ensures Lower(Lower(s)) == Lower(s)
  {
  }

  /** The search ignores the query's case: a query and its lowercase form
      show the same participants. */
  lemma SearchIgnoresQueryCase(participants: seq<Participant>, query: string)
    ensures FilteredParticipants(participants, query) == FilteredParticipants(participants, Lower(query))
  {
    LowerIdempotent(query);
    FilterCongruent(participants, MatchesQuery(query), MatchesQuery(Lower(query)));
  }

  // ---------------------------------------------------------------------
  // The list after a check-in

  /** `participants.map(p => p._id === id ? updated : p)`. */
  function ReplaceById(participants: seq<Participant>, id: string, updated: Participant): (r: seq<Participant>)
    ensures |r| == |participants|
    ensures forall k :: 0 <= k < |r| && participants[k].id != id ==> r[k] == participants[k]
    ensures forall k :: 0 <= k < |r| && participants[k].id == id ==> r[k] == updated
  {
    Map(participants, (p: Participant) => if p.id == id then updated else p)
  }

  /** Applying the same answer twice changes nothing more. */
  lemma ReplaceByIdIdempotent(participants: seq<Participant>, id: string, updated: Participant)
    ensures ReplaceById(ReplaceById(participants, id, updated), id, updated) == ReplaceById(participants, id, updated)
  {
  }

  /** When the server's record keeps the participant's id, a later lookup
      by that id finds the new record. */
  lemma ReplacedRecordIsFound(participants: seq<Participant>, id: string, updated: Participant)
    requires updated.id == id && FindById(participants, id).Some?
    ensures FindById(ReplaceById(participants, id, updated), id) == Some(updated)
  {
    var r := ReplaceById(participants, id, updated);
    var i :| 0 <= i < |participants| && participants[i] == FindById(participants, id).value
             && forall j :: 0 <= j < i ==> participants[j].id != id;
    assert r[i] == updated;
    var found := FindById(r, id).value;
    var m :| 0 <= m < |r| && r[m] == found && forall j :: 0 <= j < m ==> r[j].id != id;
    assert m <= i;
    assert participants[m].id == id;
  }

  // ---------------------------------------------------------------------
  // Camera and capture button

  /** `toggleCamera`: "user" becomes "environment", anything else "user". */
  function Toggled(mode: string): (r: string)
    ensures r == UserMode || r == EnvironmentMode
    ensures r == EnvironmentMode <==> mode == UserMode
  {
    if mode == UserMode then EnvironmentMode else UserMode
  }

  /** Toggling twice from either mode comes back to it. */
  lemma ToggleTwiceRestores(mode: string)
    requires mode == UserMode || mode == EnvironmentMode
    ensures Toggled(Toggled(mode)) == mode
  {
  }

  /** The capture button's `disabled`: while loading, on the camera tab
      before the camera is ready, on the upload tab with no file. */
  predicate CaptureDisabled(tab: int, isCaptureReady: bool, hasFile: bool, loading: bool)
  {
    (tab == CameraTab && !isCaptureReady) || (tab == UploadTab && !hasFile) || loading
  }

  /** An enabled capture button on the upload tab means a file is
      selected, so the handler's "choose a file" warning is not reached
      from the button. */
  lemma EnabledUploadHasFile(tab: int, isCaptureReady: bool, hasFile: bool, loading: bool)
    requires !CaptureDisabled(tab, isCaptureReady, hasFile, loading)
    ensures !loading
    ensures tab == UploadTab ==> hasFile
    ensures tab == CameraTab ==> isCaptureReady
  {
  }

  // ---------------------------------------------------------------------
  // The page state

  /** What the world answers during a capture: the webcam screenshot
      (`None` for `null`), the upload (`None` when compressing or uploading
      fails, otherwise the `url` of the answer, `None` when it has none),
      the stored admin's id (`None` when no admin is stored) and the
      check-in answer (`None` when the request fails). */
  datatype CaptureEnv = CaptureEnv(
    screenshot: Option<string>,
    upload: Option<Option<string>>,
    currentAdminId: Option<string>,
    checkIn: Option<Participant>)

  /** A request the capture sends: an upload (of the screenshot or of the
      file), then the check-in of a participant with the photo's url
      (`None` for `undefined`) and the admin's id. */
  datatype Request =
    | UploadPhoto(fromCamera: bool)
    | CheckInRequest(participantId: string, photoUrl: Option<string>, checkedInBy: string)

  /** A url that JavaScript treats as present (`undefined` and `''` are
      falsy). */
  predicate HasUrl(url: Option<string>)
  {
    url.Some? && url.value != ""
  }

  class CheckInPage {
    var participants: seq<Participant>
    var currentParticipant: Option<Participant>
    var showDialog: bool
    var isCaptureReady: bool
    var tabValue: int
    var selectedFile: Option<string>
    var loading: bool
    var facingMode: string
    var searchQuery: string
    var isRecheckin: bool

    constructor ()
      ensures participants == [] && currentParticipant == None && !showDialog && !isCaptureReady
      ensures tabValue == CameraTab && selectedFile == None && !loading
      ensures facingMode == EnvironmentMode && searchQuery == "" && !isRecheckin
    {
      participants := [];
      currentParticipant := None;
      showDialog := false;
      isCaptureReady := false;
      tabValue := CameraTab;
      selectedFile := None;
      loading := false;
      facingMode := EnvironmentMode;
      searchQuery := "";
      isRecheckin := false;
    }

    /** The mount-time fetch (`None` when it fails, keeping the list). */
    method Load(fetched: Option<seq<Participant>>)
      modifies this`participants
      ensures participants == fetched.GetOr(old(participants))
    {
      if fetched.Some? {
        participants := fetched.value;
      }
    }

    /** The participants the page lists. */
    function Shown(): (r: seq<Participant>)
      reads this
      ensures IsSubsequence(r, participants)
      ensures forall p :: p in r <==> p in participants && NameMatches(p, searchQuery)
      ensures forall p :: multiset(r)[p] == if NameMatches(p, searchQuery) then multiset(participants)[p] else 0
      ensures searchQuery == "" ==> r == participants
    {
      EmptyQueryShowsAll(participants);
      FilteredParticipants(participants, searchQuery)
    }

    /** `handleSearchChange`, and the clear button with `""`. */
    method HandleSearchChange(value: string)
      modifies this`searchQuery
      ensures searchQuery == value
    {
      searchQuery := value;
    }

    /** `handleCameraClick`: open the dialog for the participant on the
        camera tab, with no file and the given re-check-in flag. */
    method HandleCameraClick(participant: Participant, recheckin: bool)
      modifies this`currentParticipant, this`showDialog, this`tabValue, this`selectedFile, this`isRecheckin
      ensures currentParticipant == Some(participant) && showDialog && tabValue == CameraTab
      ensures selectedFile == None && isRecheckin == recheckin
    {
      currentParticipant := Some(participant);
      showDialog := true;
      tabValue := CameraTab;
      selectedFile := None;
      isRecheckin := recheckin;
    }

    /** `handleTabChange`. */
    method HandleTabChange(newValue: int)
      modifies this`tabValue
      ensures tabValue == newValue
    {
      tabValue := newValue;
    }

    /** `handleFileChange`: the first chosen file, if any, becomes the
        selected one. */
    method HandleFileChange(files: seq<string>)
      modifies this`selectedFile
      ensures files != [] ==> selectedFile == Some(files[0])
      ensures files == [] ==> selectedFile == old(selectedFile)
    {
      if |files| > 0 {
        selectedFile := Some(files[0]);
      }
    }

    /** The button that removes the chosen file. */
    method ClearSelectedFile()
      modifies this`selectedFile
      ensures selectedFile == None
    {
      selectedFile := None;
    }

    /** `toggleCamera`. */
    method ToggleCamera()
      modifies this`facingMode
      ensures facingMode == Toggled(old(facingMode))
    {
      facingMode := if facingMode == UserMode then EnvironmentMode else UserMode;
    }

    /** The webcam's `onUserMedia`: the camera is ready. */
    method HandleUserMedia()
      modifies this`isCaptureReady
      ensures isCaptureReady
    {
      isCaptureReady := true;
    }

    /** `handleCloseDialog`: nothing while a capture is in progress;
        otherwise close the dialog and forget the participant, the file and
        the re-check-in flag. */
    method HandleCloseDialog()
      modifies this`showDialog, this`currentParticipant, this`selectedFile, this`isRecheckin
      ensures old(loading) ==> showDialog == old(showDialog) && currentParticipant == old(currentParticipant)
                               && selectedFile == old(selectedFile) && isRecheckin == old(isRecheckin)
      ensures !old(loading) ==> !showDialog && currentParticipant == None && selectedFile == None && !isRecheckin
    {
      if loading {
        return;
      }
      showDialog := false;
      currentParticipant := None;
      selectedFile := None;
      isRecheckin := false;
    }

    /** The capture button's `disabled` for the current state. */
    predicate CaptureButtonDisabled()
      reads this
    {
      CaptureDisabled(tabValue, isCaptureReady, selectedFile.Some?, loading)
    }

    /** `handleCapture`: with no participant nothing happens. The camera tab
        needs a screenshot and uploads it, taking whatever url comes back;
        the upload tab needs a selected file, uploads it and needs a url
        back. Then the check-in is sent with the stored admin's id; its
        answer replaces the participant's record and the dialog closes.
        Every failure leaves the list and dialog as they were, and every
        path that started ends with `loading` false. */
    method HandleCapture(env: CaptureEnv) returns (requests: seq<Request>)
      modifies this`loading, this`participants, this`showDialog, this`currentParticipant,
               this`selectedFile, this`isRecheckin
      ensures old(currentParticipant).None? ==> requests == [] && loading == old(loading)
      ensures old(currentParticipant).Some? ==> !loading
      ensures var cameraTab := old(tabValue) == CameraTab;
              var uploaded := if cameraTab then env.screenshot.Some? else old(selectedFile).Some?;
              var photoUrl := if env.upload.Some? then env.upload.value else None;
              var urlOk := env.upload.Some? && (cameraTab || HasUrl(photoUrl));
              var who := old(currentParticipant);
              who.Some? ==>
                requests ==
                  (if !uploaded then []
                   else [UploadPhoto(cameraTab)]
                        + (if urlOk && env.currentAdminId.Some?
                           then [CheckInRequest(who.value.id, photoUrl, env.currentAdminId.value)]
                           else []))
                && (if uploaded && urlOk && env.currentAdminId.Some? && env.checkIn.Some? then
                      participants == ReplaceById(old(participants), who.value.id, env.checkIn.value)
                      && !showDialog && currentParticipant == None && selectedFile == None && !isRecheckin
                    else
                      participants == old(participants) && showDialog == old(showDialog)
                      && currentParticipant == old(currentParticipant) && selectedFile == old(selectedFile)
                      && isRecheckin == old(isRecheckin))
    {
      if currentParticipant.None? {
        return [];
      }
      var participant := currentParticipant.value;
      loading := true;
      requests := [];
      var photoUrl: Option<string>;
      if tabValue == CameraTab {
        if env.screenshot.None? {
          loading := false;
          return;
        }
        requests := requests + [UploadPhoto(true)];
        if env.upload.None? {
          loading := false;
          return;
        }
        photoUrl := env.upload.value;
      } else {
        if selectedFile.None? {
          loading := false;
          return;
        }
        requests := requests + [UploadPhoto(false)];
        if env.upload.None? {
          loading := false;
          return;
        }
        photoUrl := env.upload.value;
        if !HasUrl(photoUrl) {
          loading := false;
          return;
        }
      }
      if env.currentAdminId.None? {
        loading := false;
        return;
      }
      requests := requests + [CheckInRequest(participant.id, photoUrl, env.currentAdminId.value)];
      if env.checkIn.None? {
        loading := false;
        return;
      }
      participants := ReplaceById(participants, participant.id, env.checkIn.value);
      showDialog := false;
      currentParticipant := None;
      selectedFile := None;
      isRecheckin := false;
      loading := false;
    }
  }
}
