/** The admin-users screen: creating and editing admin users (passwords go
    through the `hash_password` database function and only their hashes
    are stored), switching a user on or off, the search box and the role
    badge colours. */
module AdminUserManager {
  import opened Common

  /** A row of `admin_users` (the columns the screen reads or writes). */
  datatype AdminUser = AdminUser(
    id: string,
    email: string,
    fullName: Option<string>,
    role: string,
    isActive: bool,
    passwordHash: string)

  datatype UserForm = UserForm(email: string, password: string, fullName: string, role: string, isActive: bool)

  /** The update object of an edit; `passwordHash` is None when the object
      has no password_hash member. */
  datatype UserUpdate = UserUpdate(email: string, fullName: Option<string>, role: string, isActive: bool,
                                   passwordHash: Option<string>)

  /** The form after resetForm (and when the screen opens). */
  const EmptyForm: UserForm := UserForm("", "", "", "admin", true)

  /** `full_name || null`. */
  function NullIfEmpty(s: string): (r: Option<string>)
    ensures r.None? <==> s == ""
    ensures r.Some? ==> r.value == s
  {
    if s == "" then None else Some(s)
  }

  /** handleEdit: the user's fields in the form, with an empty password. */
  function FormOf(u: AdminUser): (f: UserForm)
    ensures f.password == "" && f.fullName == OrEmpty(u.fullName)
    ensures f.email == u.email && f.role == u.role && f.isActive == u.isActive
  {
    UserForm(u.email, "", OrEmpty(u.fullName), u.role, u.isActive)
  }

  /** The row an update leaves behind: the hash is replaced only when the
      update carries one. */
  function ApplyUpdate(u: AdminUser, d: UserUpdate): (r: AdminUser)
    ensures r.id == u.id && r.email == d.email && r.fullName == d.fullName && r.role == d.role && r.isActive == d.isActive
    ensures d.passwordHash.None? ==> r.passwordHash == u.passwordHash
    ensures d.passwordHash.Some? ==> r.passwordHash == d.passwordHash.value
  {
    AdminUser(u.id, d.email, d.fullName, d.role, d.isActive,
              if d.passwordHash.Some? then d.passwordHash.value else u.passwordHash)
  }

  /** `.update(d).eq('id', id)` on the rows. */
  function UpdateRows(rows: seq<AdminUser>, id: string, d: UserUpdate): (r: seq<AdminUser>)
    ensures |r| == |rows|
    ensures forall i :: 0 <= i < |rows| && rows[i].id != id ==> r[i] == rows[i]
    ensures forall i :: 0 <= i < |rows| && rows[i].id == id ==> r[i] == ApplyUpdate(rows[i], d)
  {
    MapSeq(rows, (u: AdminUser) => if u.id == id then ApplyUpdate(u, d) else u)
  }

  /** `.update({is_active: active}).eq('id', id)` on the rows. */
  function SetActiveRows(rows: seq<AdminUser>, id: string, active: bool): (r: seq<AdminUser>)
    ensures |r| == |rows|
    ensures forall i :: 0 <= i < |rows| && rows[i].id != id ==> r[i] == rows[i]
    ensures forall i :: 0 <= i < |rows| && rows[i].id == id ==> r[i] == rows[i].(isActive := active)
  {
    MapSeq(rows, (u: AdminUser) => if u.id == id then u.(isActive := active) else u)
  }

  /** The user a create inserts. */
  function NewUser(id: string, form: UserForm, hash: string): (u: AdminUser)
    ensures u.fullName == NullIfEmpty(form.fullName) && u.passwordHash == hash
    ensures u.id == id && u.email == form.email && u.role == form.role && u.isActive == form.isActive
  {
    AdminUser(id, form.email, NullIfEmpty(form.fullName), form.role, form.isActive, hash)
  }

  /** Opening a user in the form and saving it unchanged keeps the row as it
      was (the empty password leaves the hash alone), except that an empty
      full name comes back as null. */
  lemma EditAndSaveUnchanged(u: AdminUser)
    ensures var f := FormOf(u);
            var d := UserUpdate(f.email, NullIfEmpty(f.fullName), f.role, f.isActive, None);
            && IsBlank(f.password)
            && (u.fullName != Some("") ==> ApplyUpdate(u, d) == u)
            && (u.fullName == Some("") ==> ApplyUpdate(u, d) == u.(fullName := None))
  {
  }

  // ---------------------------------------------------------------------
  // The store

  /** The `hash_password` database function; ghost `calls` records every
      password sent to it. It may fail. */
  class PasswordHasher {
    ghost var calls: seq<string>

    constructor ()
      ensures calls == []
    {
      calls := [];
    }

    method Hash(password: string) returns (r: Option<string>)
      modifies this
      ensures calls == old(calls) + [password]
    {
      calls := calls + [password];
      var ok: bool :| true;
      if ok {
        var h: string :| true;
        r := Some(h);
      } else {
        r := None;
      }
    }
  }

  /** The `admin_users` table; each request may be refused. */
  class AdminUsersTable {
    var rows: seq<AdminUser>

    constructor (rows: seq<AdminUser>)
      ensures this.rows == rows
    {
      this.rows := rows;
    }

    method Update(id: string, d: UserUpdate) returns (ok: bool)
      modifies this
      ensures rows == if ok then UpdateRows(old(rows), id, d) else old(rows)
    {
      ok :| true;
      if ok {
        rows := UpdateRows(rows, id, d);
      }
    }

    method Insert(u: AdminUser) returns (ok: bool)
      modifies this
      ensures rows == if ok then old(rows) + [u] else old(rows)
    {
      ok :| true;
      if ok {
        rows := rows + [u];
      }
    }

    method SetActive(id: string, active: bool) returns (ok: bool)
      modifies this
      ensures rows == if ok then SetActiveRows(old(rows), id, active) else old(rows)
    {
      ok :| true;
      if ok {
        rows := SetActiveRows(rows, id, active);
      }
    }
  }

  datatype SaveOutcome = Saved | HashFailed | SaveFailed

  /** handleSave. An edit sends email, full name (null when empty), role and
      status, plus a password hash only when the password is not blank; a
      create always hashes the password first. A failed hash writes
      nothing. `hashed` is the hash obtained, and `newId` the id the
      database gives an inserted row. */
  method HandleSave(table: AdminUsersTable, hasher: PasswordHasher, editing: Option<AdminUser>,
                    form: UserForm, newId: string) returns (outcome: SaveOutcome, ghost hashed: Option<string>)
    modifies table, hasher
    ensures outcome == HashFailed ==> table.rows == old(table.rows)
    ensures editing.Some? && IsBlank(form.password) ==>
              && hasher.calls == old(hasher.calls) && outcome != HashFailed
              && table.rows == if outcome == Saved
                               then UpdateRows(old(table.rows), editing.value.id,
                                               UserUpdate(form.email, NullIfEmpty(form.fullName), form.role, form.isActive, None))
                               else old(table.rows)
    ensures editing.Some? && !IsBlank(form.password) ==>
              && hasher.calls == old(hasher.calls) + [form.password]
              && (outcome == HashFailed <==> hashed.None?)
              && (outcome == Saved ==>
                    hashed.Some? &&
                    table.rows == UpdateRows(old(table.rows), editing.value.id,
                                             UserUpdate(form.email, NullIfEmpty(form.fullName), form.role, form.isActive, hashed)))
              && (outcome == SaveFailed ==> table.rows == old(table.rows))
    ensures editing.None? ==>
              && hasher.calls == old(hasher.calls) + [form.password]
              && (outcome == HashFailed <==> hashed.None?)
              && (outcome == Saved ==> hashed.Some? && table.rows == old(table.rows) + [NewUser(newId, form, hashed.value)])
              && (outcome == SaveFailed ==> table.rows == old(table.rows))
  {
    hashed := None;
    var ok: bool;
    if editing.Some? {
      var updateData := UserUpdate(form.email, NullIfEmpty(form.fullName), form.role, form.isActive, None);
      if !IsBlank(form.password) {
        var h := hasher.Hash(form.password);
        hashed := h;
        if h.None? {
          return HashFailed, hashed;
        }
        updateData := updateData.(passwordHash := h);
      }
      ok := table.Update(editing.value.id, updateData);
    } else {
      var h := hasher.Hash(form.password);
      hashed := h;
      if h.None? {
        return HashFailed, hashed;
      }
      ok := table.Insert(NewUser(newId, form, h.value));
    }
    outcome := if ok then Saved else SaveFailed;
  }

  /** toggleUserStatus: writes the negation of the shown is_active. */
  method ToggleUserStatus(table: AdminUsersTable, user: AdminUser) returns (ok: bool)
    modifies table
    ensures table.rows == if ok then SetActiveRows(old(table.rows), user.id, !user.isActive) else old(table.rows)
  {
    ok := table.SetActive(user.id, !user.isActive);
  }

  /** Toggling a freshly loaded user twice restores the table. */
  lemma ToggleTwiceRestores(rows: seq<AdminUser>, user: AdminUser)
    requires forall i :: 0 <= i < |rows| && rows[i].id == user.id ==> rows[i].isActive == user.isActive
    ensures SetActiveRows(SetActiveRows(rows, user.id, !user.isActive), user.id, user.isActive) == rows
  {
    var twice := SetActiveRows(SetActiveRows(rows, user.id, !user.isActive), user.id, user.isActive);
    assert forall i :: 0 <= i < |rows| ==> twice[i] == rows[i];
  }

  // ---------------------------------------------------------------------
  // filteredUsers and getRoleColor

  /** The search box: the lower-cased term occurs in the email, the full
      name or the role. */
  predicate MatchesSearch(u: AdminUser, search: string)
  {
    var q := ToLower(search);
    || Includes(ToLower(u.email), q)
    || Includes(ToLower(OrEmpty(u.fullName)), q)
    || Includes(ToLower(u.role), q)
  }

  /** filteredUsers: the users, in order, that match the search; an empty
      search keeps every user. */
  function FilteredUsers(users: seq<AdminUser>, search: string): (r: seq<AdminUser>)
    ensures IsSubsequence(r, users)
    ensures forall u :: u in r <==> u in users && MatchesSearch(u, search)
    ensures search == "" ==> r == users
  {
    FilterIsSubsequence(users, (u: AdminUser) => MatchesSearch(u, search));
    Filter(users, (u: AdminUser) => MatchesSearch(u, search))
  }

  const AdminColor: string := "bg-red-100 text-red-800"
  const ModeratorColor: string := "bg-blue-100 text-blue-800"
  const DefaultColor: string := "bg-gray-100 text-gray-800"

  /** getRoleColor. */
  function RoleColor(role: string): (r: string)
    ensures role == "admin" ==> r == AdminColor
    ensures role == "moderator" ==> r == ModeratorColor
    ensures role != "admin" && role != "moderator" ==> r == DefaultColor
  {
    match role
    case "admin" => AdminColor
    case "moderator" => ModeratorColor
    case "viewer" => DefaultColor
    case _ => DefaultColor
  }

  /** Two roles get the same badge exactly when they are the same role or
      neither is admin or moderator (viewer and every unknown role share
      the default). */
  lemma RoleColorDistinguishes(a: string, b: string)
    ensures RoleColor(a) == RoleColor(b) <==>
              a == b || (a != "admin" && a != "moderator" && b != "admin" && b != "moderator")
  {
    assert AdminColor[3] == 'r' && ModeratorColor[3] == 'b' && DefaultColor[3] == 'g';
  }
}
