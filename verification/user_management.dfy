/** The profile table of src/components/admin/UserManagement.tsx, where names
    and the admin flag may be null. */
module UserManagementView {
  import opened Common
  import opened Lists
  import opened ClientModel

  datatype Profile = Profile(id: string, firstName: Option<string>, lastName: Option<string>, isAdmin: Option<bool>)

  /** JavaScript truthiness of a nullable flag. */
  predicate IsSet(flag: Option<bool>) {
    flag == Some(true)
  }

  /** `toggleAdminStatus(userId, currentStatus)`: writes `!currentStatus` and,
      after a successful write, puts it on the matching rows. */
  function ToggleAdminStatus(users: seq<Profile>, userId: string, currentStatus: Option<bool>, succeeded: bool)
    : (r: seq<Profile>)
    ensures |r| == |users|
    ensures forall i :: 0 <= i < |users| ==>
      r[i] == if succeeded && users[i].id == userId then users[i].(isAdmin := Some(!IsSet(currentStatus))) else users[i]
  {
    if !succeeded then users
    else
      seq(|users|, i requires 0 <= i < |users| =>
        if users[i].id == userId then users[i].(isAdmin := Some(!IsSet(currentStatus))) else users[i])
  }

  /** A null flag is written as `true`: toggling an unset profile makes an admin. */
  lemma NullFlagBecomesAdmin(users: seq<Profile>, i: int)
    requires 0 <= i < |users| && users[i].isAdmin.None?
    ensures ToggleAdminStatus(users, users[i].id, users[i].isAdmin, true)[i].isAdmin == Some(true)
  {
  }

  /** `'Admin'` iff the flag is truthy. */
  function RoleLabel(isAdmin: Option<bool>): (shown: string)
    ensures shown == "Admin" <==> IsSet(isAdmin)
  {
    if IsSet(isAdmin) then "Admin" else "User"
  }

  /** Two successful toggles from a row's own flag bring its label back. */
  lemma ToggleTwiceRestoresLabel(users: seq<Profile>, i: int)
    requires 0 <= i < |users|
    ensures var once := ToggleAdminStatus(users, users[i].id, users[i].isAdmin, true);
      var twice := ToggleAdminStatus(once, users[i].id, once[i].isAdmin, true);
      && RoleLabel(once[i].isAdmin) != RoleLabel(users[i].isAdmin)
      && RoleLabel(twice[i].isAdmin) == RoleLabel(users[i].isAdmin)
  {
  }

  function NotUser(userId: string): Profile -> bool {
    (p: Profile) => p.id != userId
  }

  /** `deleteUser(userId)`: the rows for that id go, only once the dialog is
      confirmed and the delete succeeds. */
  function DeleteUser(users: seq<Profile>, userId: string, confirmed: bool, succeeded: bool): (r: seq<Profile>)
    ensures !(confirmed && succeeded) ==> r == users
    ensures forall i :: 0 <= i < |r| ==> r[i] in users
    ensures confirmed && succeeded ==>
      && (forall i :: 0 <= i < |r| ==> r[i].id != userId)
      && (forall i :: 0 <= i < |users| && users[i].id != userId ==> users[i] in r)
  {
    if confirmed && succeeded then Filter(users, NotUser(userId)) else users
  }

  const NoName := "No name provided"

  function OrEmpty(s: Option<string>): string {
    if s.Some? then s.value else ""
  }

  /** The name cell: both names with a space between, a missing one read as
      empty, unless neither is set. */
  function DisplayName(p: Profile): (name: string)
    ensures !Truthy(p.firstName) && !Truthy(p.lastName) ==> name == NoName
    ensures Truthy(p.firstName) || Truthy(p.lastName) ==>
      name == OrEmpty(p.firstName) + " " + OrEmpty(p.lastName)
    ensures Truthy(p.firstName) || Truthy(p.lastName) ==> |name| > 1
  {
    if Truthy(p.firstName) || Truthy(p.lastName) then OrEmpty(p.firstName) + " " + OrEmpty(p.lastName)
    else NoName
  }

  /** The cell shows the placeholder text exactly when neither name is set, or
      the two names happen to spell it with their joining space. */
  lemma DisplayNameIsPlaceholderIff(p: Profile)
    ensures DisplayName(p) == NoName <==>
      || (!Truthy(p.firstName) && !Truthy(p.lastName))
      || (p.firstName == Some("No") && p.lastName == Some("name provided"))
      || (p.firstName == Some("No name") && p.lastName == Some("provided"))
  {
    if Truthy(p.firstName) || Truthy(p.lastName) {
      var a, b := OrEmpty(p.firstName), OrEmpty(p.lastName);
      if a + " " + b == NoName {
        var k := |a|;
        assert NoName[k] == ' ' by {
          assert (a + " " + b)[k] == ' ';
        }
        assert k == 2 || k == 7;
        assert a == NoName[..k] by {
          assert (a + " " + b)[..k] == a;
        }
        assert b == NoName[k + 1..] by {
          assert (a + " " + b)[k + 1..] == b;
        }
        if k == 2 {
          assert a == "No" && b == "name provided";
        } else {
          assert a == "No name" && b == "provided";
        }
        assert p.firstName == Some(a) && p.lastName == Some(b);
      }
    }
  }

  /** The placeholder is not reserved: a user named "No name" "provided"
      shows exactly the text of an unnamed one, and a user with only a last
      name gets a leading space. */
  lemma DisplayNameCorners()
    ensures DisplayName(Profile("a", Some("No name"), Some("provided"), None)) == NoName
    ensures DisplayName(Profile("b", None, Some("Lee"), None)) == " Lee"
    ensures DisplayName(Profile("c", Some(""), None, Some(false))) == NoName
  {
  }
}
