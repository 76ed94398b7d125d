/** The admin selection page: pick an admin, log in directly or, for the
    super admin, through a four-cell PIN dialog; the PIN of the admin named
    "Quân Hoàng" is checked locally against a fixed value, every other PIN
    by the backend. */
module AdminSelection {
  import opened Seqs
  import opened Text

  /** An admin record (`_id`, `name`, `role`, `isSuperAdmin`). */
  datatype Admin = Admin(id: string, name: string, role: string, isSuperAdmin: bool)

  /** The admin whose PIN is checked on the page itself, and that PIN. */
  const SuperAdminName: string := "Quân Hoàng"
  const SuperAdminPin: string := "1408"

  const IncompletePinError: string := "Vui lòng nhập đủ 4 chữ số"
  const WrongPinError: string := "Mật khẩu không đúng. Vui lòng thử lại."

  /** The four empty cells the dialog starts with. */
  const EmptyDigits: seq<string> := ["", "", "", ""]

  /** The key whose press on an empty cell moves focus back. */
  const Backspace: string := "Backspace"

  /** `admins.find(admin => admin._id === id)`. */
  function FindAdmin(admins: seq<Admin>, id: string): (r: Option<Admin>)
    ensures r.None? <==> forall a :: a in admins ==> a.id != id
    ensures r.Some? ==> r.value in admins && r.value.id == id
    ensures r.Some? ==> exists k :: 0 <= k < |admins| && admins[k] == r.value
                                   && forall j :: 0 <= j < k ==> admins[j].id != id
  {
    if admins == [] then None
    else if admins[0].id == id then Some(admins[0])
    else FindAdmin(admins[1..], id)
  }

  /** The admins that must enter a PIN: the one named "Quân Hoàng" and
      every admin flagged as super admin. */
  predicate NeedsPassword(admin: Admin)
  {
    admin.name == SuperAdminName || admin.isSuperAdmin
  }

  /** A cell holds nothing or ASCII digits only. */
  predicate CellOk(cell: string)
  {
    cell == "" || IsDigits(cell)
  }

  /** `!passwordDigits.some(digit => digit === '')`. */
  predicate Complete(digits: seq<string>)
  {
    forall k :: 0 <= k < |digits| ==> digits[k] != ""
  }

  /** The record the page stores for "Quân Hoàng" when the PIN matches:
      the admin's id and name, role `superadmin`, super-admin flag set;
      `None` when the PIN does not match. */
  function LocalLogin(admin: Admin, password: string): (r: Option<Admin>)
    ensures r.Some? <==> password == SuperAdminPin
    ensures r.Some? ==> r.value.id == admin.id && r.value.name == admin.name
                        && r.value.role == "superadmin" && r.value.isSuperAdmin
  {
    if password == SuperAdminPin then Some(Admin(admin.id, admin.name, "superadmin", true)) else None
  }

  /** Cells of one character each concatenate to their characters in
      order. */
  lemma {:induction false} ConcatSingleCharacters(cells: seq<string>)
    requires forall k :: 0 <= k < |cells| ==> |cells[k]| == 1
    ensures |Concat(cells)| == |cells|
    ensures forall k :: 0 <= k < |cells| ==> Concat(cells)[k] == cells[k][0]
  {
    if cells != [] {
      ConcatSingleCharacters(cells[1..]);
      assert Concat(cells) == cells[0] + Concat(cells[1..]);
    }
  }

  /** Four filled cells have at least one character each, so their
      concatenation has exactly four only when each holds one digit. */
  lemma {:induction false} FilledCellsLength(cells: seq<string>)
    requires Complete(cells)
    ensures |Concat(cells)| >= |cells|
    ensures |Concat(cells)| == |cells| ==> forall k :: 0 <= k < |cells| ==> |cells[k]| == 1
  {
    if cells != [] {
      FilledCellsLength(cells[1..]);
      assert |Concat(cells)| == |cells[0]| + |Concat(cells[1..])|;
      if |Concat(cells)| == |cells| {
        forall k | 0 <= k < |cells| ensures |cells[k]| == 1 {
          if k > 0 { assert cells[k] == cells[1..][k - 1]; }
        }
      }
    }
  }

  /** With four filled cells, the password matches "1408" exactly when the
      cells are "1", "4", "0" and "8". */
  lemma PinMatchesExactly(cells: seq<string>)
    requires |cells| == 4 && Complete(cells)
    ensures Concat(cells) == SuperAdminPin <==> cells == ["1", "4", "0", "8"]
  {
    var pin := ["1", "4", "0", "8"];
    assert Concat(pin) == SuperAdminPin by {
      assert pin[1..] == ["4", "0", "8"] && pin[1..][1..] == ["0", "8"] && pin[1..][1..][1..] == ["8"];
    }
    FilledCellsLength(cells);
    if Concat(cells) == SuperAdminPin {
      ConcatSingleCharacters(cells);
      assert cells[0] == [cells[0][0]] && cells[1] == [cells[1][0]];
      assert cells[2] == [cells[2][0]] && cells[3] == [cells[3][0]];
    }
  }

  /** What `handlePasswordSubmit` asked for: nothing, the local PIN check,
      or the backend's `POST /api/users/auth` with a name and password. */
  datatype AuthAttempt = NoAttempt | LocalCheck | ServerCheck(name: string, password: string)

  /** The page's state; `stored` is the `currentAdmin` record in local
      storage and `redirecting` says a move to the check-in page is
      scheduled. */
  class AdminLogin {
    var admins: seq<Admin>
    var selectedAdmin: string
    var passwordDigits: seq<string>
    var showPasswordDialog: bool
    var passwordError: string
    var loading: bool
    var stored: Option<Admin>
    var redirecting: bool

    /** Four cells, each empty or digits. */
    ghost predicate Valid()
      reads this
    {
      |passwordDigits| == 4 && forall k :: 0 <= k < 4 ==> CellOk(passwordDigits[k])
    }

    constructor ()
      ensures Valid()
      ensures admins == [] && selectedAdmin == "" && passwordDigits == EmptyDigits
      ensures !showPasswordDialog && passwordError == "" && !loading
      ensures stored == None && !redirecting
    {
      admins := [];
      selectedAdmin := "";
      passwordDigits := EmptyDigits;
      showPasswordDialog := false;
      passwordError := "";
      loading := false;
      stored := None;
      redirecting := false;
    }

    /** The mount effect: an admin already in storage redirects at once;
        otherwise the fetched list (`None` when the request fails, which
        keeps the list) becomes `admins`. */
    method Mount(storedAdmin: Option<Admin>, fetched: Option<seq<Admin>>)
      modifies this`admins, this`stored, this`redirecting
      ensures storedAdmin.Some? ==> redirecting && stored == storedAdmin && admins == old(admins)
      ensures storedAdmin.None? ==> redirecting == old(redirecting) && stored == old(stored)
                                    && admins == fetched.GetOr(old(admins))
    {
      if storedAdmin.Some? {
        stored := storedAdmin;
        redirecting := true;
        return;
      }
      if fetched.Some? {
        admins := fetched.value;
      }
    }

    /** `handleSubmit`: with no selection nothing happens; a selected admin
        that needs a PIN opens the dialog; any other is stored and
        redirected (`handleLogin`). A selected id missing from the list
        makes the source read `name` of `undefined` and throw before any
        state change. */
    method HandleSubmit()
      modifies this`showPasswordDialog, this`loading, this`stored, this`redirecting
      ensures var admin := FindAdmin(admins, selectedAdmin);
              if selectedAdmin == "" || admin.None? then
                showPasswordDialog == old(showPasswordDialog) && loading == old(loading)
                && stored == old(stored) && redirecting == old(redirecting)
              else if NeedsPassword(admin.value) then
                showPasswordDialog && loading == old(loading) && stored == old(stored) && redirecting == old(redirecting)
              else
                showPasswordDialog == old(showPasswordDialog) && loading && stored == admin && redirecting
    {
      if selectedAdmin != "" {
        var admin := FindAdmin(admins, selectedAdmin);
        if admin.None? {
          return;
        }
        if NeedsPassword(admin.value) {
          showPasswordDialog := true;
        } else {
          HandleLogin(admin.value);
        }
      }
    }

    /** `handleLogin`: show progress, store the admin and redirect. */
    method HandleLogin(admin: Admin)
      modifies this`loading, this`stored, this`redirecting
      ensures loading && stored == Some(admin) && redirecting
    {
      loading := true;
      stored := Some(admin);
      redirecting := true;
    }

    /** `handleDigitChange(index, value)`: a non-empty value that is not all
        digits is ignored; any other value replaces cell `index` alone, and
        a non-empty one moves focus to the next cell when there is one. */
    method HandleDigitChange(index: nat, value: string) returns (focus: Option<nat>)
      requires Valid() && index < 4
      modifies this`passwordDigits
      ensures Valid()
      ensures !CellOk(value) ==> passwordDigits == old(passwordDigits) && focus == None
      ensures CellOk(value) ==> passwordDigits == old(passwordDigits)[index := value]
      ensures focus.Some? <==> CellOk(value) && value != "" && index < 3
      ensures focus.Some? ==> focus.value == index + 1
    {
      if value != "" && !IsDigits(value) {
        return None;
      }
      var digits := passwordDigits;
      var newPasswordDigits := new string[4](k requires 0 <= k < 4 => digits[k]);
      newPasswordDigits[index] := value;
      passwordDigits := newPasswordDigits[..];
      focus := if value != "" && index < 3 then Some(index + 1) else None;
    }

    /** `handleKeyDown(index, e)`: Backspace on an empty cell after the
        first moves focus to the previous cell; the cells do not change. */
    method HandleKeyDown(index: nat, key: string) returns (focus: Option<nat>)
      requires Valid() && index < 4
      ensures focus.Some? <==> key == Backspace && index > 0 && passwordDigits[index] == ""
      ensures focus.Some? ==> focus.value == index - 1
    {
      if key == Backspace && index > 0 && passwordDigits[index] == "" {
        focus := Some(index - 1);
      } else {
        focus := None;
      }
    }

    /** `handlePasswordSubmit`, with `auth` the backend's answer to the
        authentication request (`None` when it fails). An empty cell sets
        the "enter 4 digits" error and asks nothing. A selected id missing
        from the list throws inside the `try` and lands in the `catch`.
        "Quân Hoàng" is checked locally against "1408"; every other admin
        by the backend. */
    method HandlePasswordSubmit(auth: Option<Admin>) returns (attempt: AuthAttempt)
      requires Valid()
      modifies this`passwordError, this`loading, this`stored, this`redirecting
      ensures var admin := FindAdmin(admins, selectedAdmin);
              var password := Concat(passwordDigits);
              if !Complete(passwordDigits) then
                attempt == NoAttempt && passwordError == IncompletePinError && loading == old(loading)
                && stored == old(stored) && redirecting == old(redirecting)
              else if admin.None? then
                attempt == NoAttempt && passwordError == WrongPinError && !loading
                && stored == old(stored) && redirecting == old(redirecting)
              else if admin.value.name == SuperAdminName then
                attempt == LocalCheck
                && (if password == SuperAdminPin then
                      passwordError == old(passwordError) && loading && redirecting
                      && stored == LocalLogin(admin.value, password)
                    else
                      passwordError == WrongPinError && !loading
                      && stored == old(stored) && redirecting == old(redirecting))
              else
                attempt == ServerCheck(admin.value.name, password)
                && (if auth.Some? then
                      passwordError == old(passwordError) && loading && redirecting && stored == auth
                    else
                      passwordError == WrongPinError && !loading
                      && stored == old(stored) && redirecting == old(redirecting))
    {
      var admin := FindAdmin(admins, selectedAdmin);
      if !Complete(passwordDigits) {
        passwordError := IncompletePinError;
        return NoAttempt;
      }
      var password := Concat(passwordDigits);
      loading := true;
      if admin.None? {
        passwordError := WrongPinError;
        loading := false;
        return NoAttempt;
      }
      if admin.value.name == SuperAdminName {
        attempt := LocalCheck;
        var record := LocalLogin(admin.value, password);
        if record.Some? {
          stored := record;
          redirecting := true;
        } else {
          passwordError := WrongPinError;
          loading := false;
        }
        return;
      }
      attempt := ServerCheck(admin.value.name, password);
      if auth.Some? {
        stored := auth;
        redirecting := true;
      } else {
        passwordError := WrongPinError;
        loading := false;
      }
    }

    /** `handleClosePasswordDialog`: close the dialog, empty the four cells,
        clear the error and stop the progress indicator. The cells are then
        not complete, so a `HandlePasswordSubmit` straight after a close
        only asks for four digits and sends nothing. */
    method HandleClosePasswordDialog()
      modifies this`showPasswordDialog, this`passwordDigits, this`passwordError, this`loading
      ensures Valid()
      ensures !showPasswordDialog && passwordDigits == EmptyDigits && passwordError == "" && !loading
      ensures !Complete(passwordDigits)
    {
      showPasswordDialog := false;
      passwordDigits := EmptyDigits;
      passwordError := "";
      loading := false;
      assert passwordDigits[0] == "";
    }
  }
}
