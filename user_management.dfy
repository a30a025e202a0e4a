/** The user administration screen: the filtered table, the add/edit dialog, deletion with
    the last-administrator guard, and the per-role counters. */
module UserManagement {
  import opened Wrappers
  import opened Text
  import opened Seqs
  import opened Accounts

  // ---- the table filter ----

  /** The tab: "all", or a role name that the user's role must spell. */
  predicate MatchesTab(u: User, tab: string) {
    tab == "all" || RoleName(u.role) == tab
  }

  /** The search box: lowered name or lowered email contains the lowered query, or the
      phone, when present and not empty, contains the query as typed. */
  predicate MatchesQuery(u: User, query: string) {
    || Contains(Lower(u.name), Lower(query))
    || Contains(Lower(u.email), Lower(query))
    || (u.phone.Some? && u.phone.value != "" && Contains(u.phone.value, query))
  }

  function Shown(tab: string, query: string): User -> bool {
    (u: User) => MatchesTab(u, tab) && MatchesQuery(u, query)
  }

  /** `filteredUsers`: the users on the active tab that match the search, in list order. */
  function Visible(users: seq<User>, tab: string, query: string): (r: seq<User>)
    ensures multiset(r) <= multiset(users)
    ensures forall u :: u in r <==> u in users && MatchesTab(u, tab) && MatchesQuery(u, query)
    ensures forall u :: MatchesTab(u, tab) && MatchesQuery(u, query) ==> multiset(r)[u] == multiset(users)[u]
  {
    FilterSubMultiset(users, Shown(tab, query));
    FilterCounts(users, Shown(tab, query));
    Filter(users, Shown(tab, query))
  }

  /** With the "all" tab and an empty search box the whole list is shown. */
  lemma VisibleAllUnfiltered(users: seq<User>)
    ensures Visible(users, "all", "") == users
  {
    forall u | u in users ensures Shown("all", "")(u) {
      assert Lower("") == "";
      ContainsEmpty(Lower(u.name));
    }
    FilterAll(users, Shown("all", ""));
  }

  // ---- the per-role counters ----

  function HasRole(role: Role): User -> bool {
    (u: User) => u.role == role
  }

  /** `users.filter(u => u.role === role).length`. */
  function CountRole(users: seq<User>, role: Role): (n: nat)
    ensures n <= |users|
  {
    |Filter(users, HasRole(role))|
  }

  /** The three counters add up to the total shown beside them. */
  lemma {:induction false} RoleCountsSum(users: seq<User>)
    ensures CountRole(users, Admin) + CountRole(users, Manager) + CountRole(users, Customer) == |users|
  {
    if users != [] {
      RoleCountsSum(users[1..]);
    }
  }

  // ---- ids ----

  /** No two positions of the list hold the same id. */
  predicate UniqueIds(users: seq<User>) {
    forall i, j :: 0 <= i < j < |users| ==> users[i].id != users[j].id
  }

  /** a <= b in the order of JavaScript numbers restricted to integers and -Infinity. */
  predicate AtMost(a: UserId, b: UserId) {
    a.MinusInfinity? || (b.Id? && a.n <= b.n)
  }

  function MaxOf(a: UserId, b: UserId): UserId {
    if AtMost(a, b) then b else a
  }

  /** `Math.max(...users.map(u => u.id))`: -Infinity for an empty list. */
  function MaxId(users: seq<User>): (m: UserId)
    ensures forall i :: 0 <= i < |users| ==> AtMost(users[i].id, m)
    ensures m.MinusInfinity? || exists i :: 0 <= i < |users| && users[i].id == m
  {
    if users == [] then MinusInfinity
    else
      var rest := MaxId(users[1..]);
      assert forall i :: 1 <= i < |users| ==> users[i] == users[1..][i - 1];
      MaxOf(users[0].id, rest)
  }

  /** `Math.max(...ids) + 1`; -Infinity + 1 is -Infinity. */
  function NextId(users: seq<User>): (r: UserId)
    ensures r.Id? <==> exists i :: 0 <= i < |users| && users[i].id.Id?
  {
    match MaxId(users)
    case Id(n) => Id(n + 1)
    case MinusInfinity => MinusInfinity
  }

  /** As soon as one id is an integer, the new id is an integer above every existing id. */
  lemma NextIdFresh(users: seq<User>)
    requires exists i :: 0 <= i < |users| && users[i].id.Id?
    ensures NextId(users).Id?
    ensures forall i :: 0 <= i < |users| && users[i].id.Id? ==> users[i].id.n < NextId(users).n
    ensures forall i :: 0 <= i < |users| ==> users[i].id != NextId(users)
  {
    var i :| 0 <= i < |users| && users[i].id.Id?;
    assert AtMost(users[i].id, MaxId(users));
  }

  /** In an empty list the new id is -Infinity, and so is the next one: two users created
      there share an id. */
  lemma NextIdOfEmptyList(u: User)
    requires u.id.MinusInfinity?
    ensures NextId([]) == MinusInfinity
    ensures NextId([u]) == MinusInfinity
  {
  }

  // ---- the dialog's form ----

  /** The form values; `phone` and `password` are strings because the dialog always fills
      them in, with "" for an empty box. */
  datatype FormValues = FormValues(email: string, name: string, phone: string, role: Role, password: string)

  const EmptyForm := FormValues("", "", "", Customer, "")

  /** The form as the edit dialog opens it: the user's fields, "" for a missing phone, and an
      empty password box labelled "leave empty to keep the password". */
  function FormOf(u: User): (v: FormValues)
    ensures v.email == u.email && v.name == u.name && v.role == u.role && v.password == ""
    ensures u.phone.Some? ==> v.phone == u.phone.value
    ensures u.phone.None? ==> v.phone == ""
  {
    FormValues(u.email, u.name, if u.phone.Some? then u.phone.value else "", u.role, "")
  }

  /** The user form schema as written: a valid email, a name of at least 2 characters, and a
      password that, being always a string, must have at least 6 characters. */
  predicate UserFormAcceptsAsWritten(v: FormValues, isEmail: string -> bool) {
    isEmail(v.email) && |v.name| >= 2 && |v.password| >= 6
  }

  /** The same schema with the empty password allowed when editing, as the edit dialog's
      label promises. */
  predicate UserFormAccepts(v: FormValues, isEmail: string -> bool, editing: bool) {
    isEmail(v.email) && |v.name| >= 2 && ((editing && v.password == "") || |v.password| >= 6)
  }

  /** As written, the edit dialog opened on any user cannot be submitted until a new
      password of 6 characters is typed. */
  lemma EditFormRejectedAsWritten(u: User, isEmail: string -> bool)
    ensures !UserFormAcceptsAsWritten(FormOf(u), isEmail)
  {
  }

  /** With the correction, the edit dialog opened on a user whose email and name are valid
      is accepted as it stands, and creation is checked exactly as before. */
  lemma EditFormAccepted(u: User, isEmail: string -> bool, v: FormValues)
    requires isEmail(u.email) && |u.name| >= 2
    ensures UserFormAccepts(FormOf(u), isEmail, true)
    ensures UserFormAccepts(v, isEmail, false) == UserFormAcceptsAsWritten(v, isEmail)
  {
  }

  /** The correction changes the verdict only for an empty password in the edit dialog. */
  lemma CorrectionOnlyForEmptyEditPassword(v: FormValues, isEmail: string -> bool, editing: bool)
    ensures UserFormAccepts(v, isEmail, editing) != UserFormAcceptsAsWritten(v, isEmail)
      ==> editing && v.password == ""
    ensures UserFormAcceptsAsWritten(v, isEmail) ==> UserFormAccepts(v, isEmail, editing)
  {
  }

  // ---- edit, create, delete ----

  /** `{ ...user, ...data }` over the fields a user record has. */
  function MergeForm(u: User, data: FormValues): (r: User)
    ensures r.email == data.email && r.name == data.name && r.phone == Some(data.phone) && r.role == data.role
    ensures r.id == u.id && r.avatar == u.avatar && r.createdAt == u.createdAt && r.lastLogin == u.lastLogin
  {
    u.(email := data.email, name := data.name, phone := Some(data.phone), role := data.role)
  }

  /** Edit: the users with the selected id get the form merged over them; the others, the
      length and the order are kept. */
  function Edit(users: seq<User>, id: UserId, data: FormValues): (r: seq<User>)
    ensures |r| == |users|
    ensures forall i :: 0 <= i < |users| ==> r[i].id == users[i].id
    ensures forall i :: 0 <= i < |users| && users[i].id != id ==> r[i] == users[i]
    ensures forall i :: 0 <= i < |users| && users[i].id == id ==> r[i] == MergeForm(users[i], data)
  {
    seq(|users|, i requires 0 <= i < |users| => if users[i].id == id then MergeForm(users[i], data) else users[i])
  }

  /** Saving the same form twice is saving it once. */
  lemma EditIdempotent(users: seq<User>, id: UserId, data: FormValues)
    ensures Edit(Edit(users, id, data), id, data) == Edit(users, id, data)
  {
  }

  /** Edit never changes ids, so it keeps them unique. */
  lemma EditKeepsUniqueIds(users: seq<User>, id: UserId, data: FormValues)
    requires UniqueIds(users)
    ensures UniqueIds(Edit(users, id, data))
  {
  }

  /** The record built on creation: the next id, the form's fields, and the creation time. */
  function NewUser(id: UserId, data: FormValues, createdAt: string): (r: User)
    ensures r.id == id && r.createdAt == createdAt && r.avatar.None? && r.lastLogin.None?
    ensures FormOf(r) == data.(password := "")
  {
    User(id, data.email, data.name, Some(data.phone), data.role, None, createdAt, None)
  }

  /** Create: one new user at the end of the list. */
  function Create(users: seq<User>, data: FormValues, createdAt: string): (r: seq<User>)
    ensures |r| == |users| + 1 && r[..|users|] == users
    ensures r[|users|] == NewUser(NextId(users), data, createdAt)
  {
    users + [NewUser(NextId(users), data, createdAt)]
  }

  /** Creation keeps ids unique once the list holds an integer id. */
  lemma CreateKeepsUniqueIds(users: seq<User>, data: FormValues, createdAt: string)
    requires UniqueIds(users)
    requires exists i :: 0 <= i < |users| && users[i].id.Id?
    ensures UniqueIds(Create(users, data, createdAt))
  {
    NextIdFresh(users);
    var r := Create(users, data, createdAt);
    forall i, j | 0 <= i < j < |r| ensures r[i].id != r[j].id {
      if j == |users| {
        assert r[i] == users[i];
      } else {
        assert r[i] == users[i] && r[j] == users[j];
      }
    }
  }

  function IdIsNot(id: UserId): User -> bool {
    (u: User) => u.id != id
  }

  /** Delete: every user with the id goes, the rest stay in order. */
  function Delete(users: seq<User>, id: UserId): (r: seq<User>)
    ensures multiset(r) <= multiset(users)
    ensures forall u :: u in r <==> u in users && u.id != id
    ensures forall u: User :: u.id != id ==> multiset(r)[u] == multiset(users)[u]
  {
    FilterSubMultiset(users, IdIsNot(id));
    FilterCounts(users, IdIsNot(id));
    Filter(users, IdIsNot(id))
  }

  /** A filtered list keeps unique ids. */
  lemma {:induction false} FilterKeepsUniqueIds(users: seq<User>, p: User -> bool)
    requires UniqueIds(users)
    ensures UniqueIds(Filter(users, p))
  {
    if users != [] {
      var rest := Filter(users[1..], p);
      FilterKeepsUniqueIds(users[1..], p);
      if p(users[0]) {
        var r := [users[0]] + rest;
        forall i, j | 0 <= i < j < |r| ensures r[i].id != r[j].id {
          if i == 0 {
            assert r[j] in rest;
            var k :| 0 <= k < |users[1..]| && users[1..][k] == r[j];
            assert users[k + 1] == r[j];
          } else {
            assert r[i] == rest[i - 1] && r[j] == rest[j - 1];
          }
        }
      }
    }
  }

  lemma DeleteKeepsUniqueIds(users: seq<User>, id: UserId)
    requires UniqueIds(users)
    ensures UniqueIds(Delete(users, id))
  {
    FilterKeepsUniqueIds(users, IdIsNot(id));
  }

  /** With unique ids, no later user shares the first user's id. */
  lemma HeadIdNotInRest(users: seq<User>)
    requires UniqueIds(users) && users != []
    ensures forall u :: u in users[1..] ==> IdIsNot(users[0].id)(u)
  {
    forall u | u in users[1..] ensures u.id != users[0].id {
      var m :| 0 <= m < |users| - 1 && users[1..][m] == u;
      assert users[m + 1] == u;
    }
  }

  /** With unique ids, deleting a listed user lowers the count of its role by exactly one and
      leaves the other counts alone. */
  lemma {:induction false} DeleteCount(users: seq<User>, target: User, role: Role)
    requires UniqueIds(users) && target in users
    ensures CountRole(Delete(users, target.id), role) + (if target.role == role then 1 else 0)
         == CountRole(users, role)
  {
    var head, rest := users[0], users[1..];
    var t := target.id;
    assert users == [head] + rest;
    assert UniqueIds(rest);
    FilterCons(head, rest, IdIsNot(t));
    FilterCons(head, rest, HasRole(role));
    var kept := Filter(rest, IdIsNot(t));
    var headRole := if head.role == role then 1 else 0;
    assert CountRole(users, role) == headRole + CountRole(rest, role);
    if head.id == t {
      HeadIdNotInRest(users);
      assert target !in rest;
      assert target == head;
      FilterAll(rest, IdIsNot(t));
      assert Delete(users, t) == rest;
    } else {
      assert Delete(users, t) == [head] + kept;
      FilterCons(head, kept, HasRole(role));
      assert CountRole(Delete(users, t), role) == headRole + CountRole(kept, role);
      assert target in rest;
      DeleteCount(rest, target, role);
    }
  }

  /** `disabled={user.role === "admin" && adminCount <= 1}` on a row's delete button. */
  predicate DeleteEnabled(users: seq<User>, u: User) {
    !(u.role == Admin && CountRole(users, Admin) <= 1)
  }

  /** With unique ids, two users of a role leave one of that role under any other id. */
  lemma {:induction false} OtherWithRole(users: seq<User>, role: Role, id: UserId)
    requires UniqueIds(users) && CountRole(users, role) >= 2
    ensures exists v :: v in users && v.role == role && v.id != id
  {
    var h, rest := users[0], users[1..];
    assert users == [h] + rest;
    FilterCons(h, rest, HasRole(role));
    if h.role == role && h.id != id {
      assert h in users;
    } else if h.role == role {
      var v := Filter(rest, HasRole(role))[0];
      assert v in rest && v.role == role;
      HeadIdNotInRest(users);
      assert v in users;
    } else {
      assert UniqueIds(rest);
      OtherWithRole(rest, role, id);
      var v :| v in rest && v.role == role && v.id != id;
      assert v in users;
    }
  }

  /** A list holding two different values has at least two elements. */
  lemma TwoDistinct(r: seq<User>, x: User, y: User)
    requires x in r && y in r && x != y
    ensures |r| >= 2
  {
    var i :| 0 <= i < |r| && r[i] == x;
    var j :| 0 <= j < |r| && r[j] == y;
    assert i != j;
  }

  /** The button is enabled for every non-administrator, and for a listed administrator
      exactly when another administrator, under another id, is listed. */
  lemma DeleteEnabledExactly(users: seq<User>, u: User)
    requires UniqueIds(users) && u in users
    ensures u.role != Admin ==> DeleteEnabled(users, u)
    ensures u.role == Admin ==>
      (DeleteEnabled(users, u) <==> exists v :: v in users && v.role == Admin && v.id != u.id)
  {
    if u.role == Admin {
      if DeleteEnabled(users, u) {
        OtherWithRole(users, Admin, u.id);
      }
      if v :| v in users && v.role == Admin && v.id != u.id {
        var r := Filter(users, HasRole(Admin));
        assert u in r && v in r;
        TwoDistinct(r, u, v);
      }
    }
  }

  /** A deletion the table allows never removes the last administrator. */
  lemma LastAdminSurvives(users: seq<User>, target: User)
    requires UniqueIds(users) && target in users
    requires DeleteEnabled(users, target)
    requires CountRole(users, Admin) >= 1
    ensures CountRole(Delete(users, target.id), Admin) >= 1
  {
    DeleteCount(users, target, Admin);
  }

  /** The three users the screen adds to the user fixture. */
  const AdditionalUsers: seq<User> :=
    [ User(Id(3), "customer1@autopro.ru", "Иванов Иван", Some("+7 (999) 555-11-22"), Customer,
           None, "2023-02-10T00:00:00Z", Some("2023-05-02T12:30:00Z")),
      User(Id(4), "customer2@autopro.ru", "Петрова Елена", Some("+7 (999) 333-44-55"), Customer,
           None, "2023-03-15T00:00:00Z", Some("2023-05-01T09:15:00Z")),
      User(Id(5), "manager2@autopro.ru", "Сидоров Алексей", Some("+7 (999) 888-77-66"), Manager,
           Some("https://randomuser.me/api/portraits/men/54.jpg"), "2023-01-20T00:00:00Z",
           Some("2023-04-29T14:45:00Z")) ]

  /** The screen's state. */
  class UserManagementPage {
    var users: seq<User>
    var loading: bool
    var selectedUser: Option<User>
    var isDialogOpen: bool
    var form: FormValues
    var activeTab: string
    var searchQuery: string

    constructor ()
      ensures users == [] && loading && selectedUser == None && !isDialogOpen
      ensures form == EmptyForm && activeTab == "all" && searchQuery == ""
    {
      users := [];
      loading := true;
      selectedUser := None;
      isDialogOpen := false;
      form := EmptyForm;
      activeTab := "all";
      searchQuery := "";
    }

    /** The table's rows. */
    function FilteredUsers(): seq<User>
      reads this
    {
      Visible(users, activeTab, searchQuery)
    }

    /** The load effect: the mock request always succeeds with the fixture followed by the
        three additional users. */
    method FetchUsers(fixture: seq<User>)
      modifies this`users, this`loading
      ensures users == fixture + AdditionalUsers && !loading
    {
      loading := true;
      users := fixture + AdditionalUsers;
      loading := false;
    }

    method SetActiveTab(tab: string)
      modifies this`activeTab
      ensures activeTab == tab
    {
      activeTab := tab;
    }

    method SetSearchQuery(query: string)
      modifies this`searchQuery
      ensures searchQuery == query
    {
      searchQuery := query;
    }

    /** Typing into the dialog. */
    method SetForm(v: FormValues)
      modifies this`form
      ensures form == v
    {
      form := v;
    }

    /** `handleAddUser`: an empty form, no selected user, the dialog open. */
    method HandleAddUser()
      modifies this`form, this`selectedUser, this`isDialogOpen
      ensures form == EmptyForm && selectedUser == None && isDialogOpen
    {
      form := EmptyForm;
      selectedUser := None;
      isDialogOpen := true;
    }

    /** `handleEditUser`: the form filled from the user, who becomes the selected one. */
    method HandleEditUser(u: User)
      modifies this`form, this`selectedUser, this`isDialogOpen
      ensures form == FormOf(u) && selectedUser == Some(u) && isDialogOpen
    {
      form := FormOf(u);
      selectedUser := Some(u);
      isDialogOpen := true;
    }

    /** The dialog's cancel button. */
    method CloseDialog()
      modifies this`isDialogOpen
      ensures !isDialogOpen
    {
      isDialogOpen := false;
    }

    /** `onSubmit`: edit the selected user, or create a new one; the dialog closes. */
    method OnSubmit(data: FormValues, createdAt: string)
      modifies this`users, this`isDialogOpen
      ensures selectedUser.Some? ==> users == Edit(old(users), selectedUser.value.id, data)
      ensures selectedUser.None? ==> users == Create(old(users), data, createdAt)
      ensures !isDialogOpen
    {
      match selectedUser {
        case Some(s) =>
          users := Edit(users, s.id, data);
        case None =>
          users := Create(users, data, createdAt);
      }
      isDialogOpen := false;
    }

    /** The dialog's submit button: the form goes to `onSubmit` only when the schema (with
        the empty password allowed on edit) accepts it; otherwise nothing changes. */
    method SubmitForm(isEmail: string -> bool, createdAt: string) returns (accepted: bool)
      modifies this`users, this`isDialogOpen
      ensures accepted == UserFormAccepts(form, isEmail, selectedUser.Some?)
      ensures accepted && selectedUser.Some? ==> users == Edit(old(users), selectedUser.value.id, form)
      ensures accepted && selectedUser.None? ==> users == Create(old(users), form, createdAt)
      ensures accepted ==> !isDialogOpen
      ensures !accepted ==> users == old(users) && isDialogOpen == old(isDialogOpen)
    {
      accepted := UserFormAccepts(form, isEmail, selectedUser.Some?);
      if accepted {
        OnSubmit(form, createdAt);
      }
    }

    /** `handleDeleteUser`: after a confirmed prompt every user with the id is removed. */
    method HandleDeleteUser(id: UserId, confirmed: bool)
      modifies this`users
      ensures users == if confirmed then Delete(old(users), id) else old(users)
    {
      if confirmed {
        users := Delete(users, id);
      }
    }

    /** Whether the row of u offers its delete button. */
    function DeleteButtonEnabled(u: User): bool
      reads this
    {
      DeleteEnabled(users, u)
    }

    /** A click on the delete button of u's row: nothing when the button is disabled. */
    method ClickDelete(u: User, confirmed: bool)
      modifies this`users
      ensures users == if DeleteEnabled(old(users), u) && confirmed then Delete(old(users), u.id) else old(users)
      ensures UniqueIds(old(users)) && u in old(users) && CountRole(old(users), Admin) >= 1
              ==> CountRole(users, Admin) >= 1
    {
      if DeleteButtonEnabled(u) {
        HandleDeleteUser(u.id, confirmed);
        if confirmed && UniqueIds(old(users)) && u in old(users) && CountRole(old(users), Admin) >= 1 {
          LastAdminSurvives(old(users), u);
        }
      }
    }
  }
}
