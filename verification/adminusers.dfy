/** The user management page (src/pages/Admin/AdminUsers.tsx): delete and
    lock/unlock on the user list, the student and instructor tables with
    their status filter, search and sorts, and the remembered tab. Ratings
    are in tenths of a star, revenue in whole units, and creation dates the
    number YYYYMMDD of the ISO date. */
module AdminUsers {
  import opened Wrappers
  import Seqs
  import Text
  import Auth

  /** A row of the user table. The status is the source's free string:
      the page writes "active" and "locked", and reads "locked" only. */
  datatype ManagedUser = ManagedUser(id: string, email: string, name: string, role: Auth.Role,
                                     courseCount: Option<nat>, ratingTenths: Option<nat>,
                                     revenue: Option<nat>, createdAt: int, status: string)

  const MockUsers: seq<ManagedUser> := [
    ManagedUser("1", "student@peakhub.com", "John Student", Auth.Student, Some(5), None, None, 20230110, "active"),
    ManagedUser("2", "instructor@peakhub.com", "Jane Instructor", Auth.Instructor, Some(12), Some(48), Some(25000), 20221105, "active"),
    ManagedUser("3", "admin@peakhub.com", "Admin User", Auth.Admin, Some(0), None, None, 20220101, "active"),
    ManagedUser("4", "moderator@peakhub.com", "Mod User", Auth.Moderator, Some(0), None, None, 20230315, "locked"),
    ManagedUser("5", "guest@peakhub.com", "Guest User", Auth.Guest, Some(0), None, None, 20230420, "active"),
    ManagedUser("6", "teacher2@peakhub.com", "Alex Teacher", Auth.Instructor, Some(7), Some(45), Some(15000), 20230218, "locked"),
    ManagedUser("7", "student2@peakhub.com", "Lisa Student", Auth.Student, Some(2), None, None, 20230501, "active")
  ]

  // ---------------------------------------------------------------------
  // Delete and lock
  // ---------------------------------------------------------------------

  predicate IdDiffers(u: ManagedUser, id: string) {
    u.id != id
  }

  function OtherThan(id: string): ManagedUser -> bool {
    (u: ManagedUser) => IdDiffers(u, id)
  }

  /** `handleDelete(id)`: every user with that id goes, the rest stay in
      their order. */
  function HandleDelete(users: seq<ManagedUser>, id: string): (r: seq<ManagedUser>)
    ensures forall i :: 0 <= i < |r| ==> r[i].id != id
    ensures Seqs.IsSubsequence(r, users)
    ensures forall u :: u in r <==> u in users && u.id != id
    ensures forall u :: multiset(r)[u] == if u.id != id then multiset(users)[u] else 0
  {
    Seqs.FilterMembersAll(users, OtherThan(id));
    var r := Seqs.Filter(users, OtherThan(id));
    assert forall u :: multiset(r)[u] == if u.id != id then multiset(users)[u] else 0 by {
      forall u ensures multiset(r)[u] == if u.id != id then multiset(users)[u] else 0 {
        Seqs.FilterMultiset(users, OtherThan(id), u);
      }
    }
    r
  }

  /** Deleting an id that is gone changes nothing; in particular deleting
      twice is deleting once. */
  lemma DeleteAbsent(users: seq<ManagedUser>, id: string)
    requires forall i :: 0 <= i < |users| ==> users[i].id != id
    ensures HandleDelete(users, id) == users
  {
    Seqs.FilterAll(users, OtherThan(id));
  }

  lemma DeleteTwice(users: seq<ManagedUser>, id: string)
    ensures HandleDelete(HandleDelete(users, id), id) == HandleDelete(users, id)
  {
    DeleteAbsent(HandleDelete(users, id), id);
  }

  /** The lock button: a locked account becomes active, any other becomes
      locked. */
  function FlipStatus(status: string): (r: string)
    ensures r == "locked" <==> status != "locked"
    ensures r == "active" <==> status == "locked"
  {
    if status == "locked" then "active" else "locked"
  }

  /** `handleToggleLock(id)`: the status of every user with that id flips;
      everything else stays. */
  function HandleToggleLock(users: seq<ManagedUser>, id: string): (r: seq<ManagedUser>)
    ensures |r| == |users|
    ensures forall i :: 0 <= i < |r| ==> r[i].(status := users[i].status) == users[i]
    ensures forall i :: 0 <= i < |r| ==>
              r[i].status == if users[i].id == id then FlipStatus(users[i].status) else users[i].status
  {
    seq(|users|, (i: int) requires 0 <= i < |users| =>
      if users[i].id == id then users[i].(status := FlipStatus(users[i].status)) else users[i])
  }

  predicate KnownStatus(u: ManagedUser) {
    u.status == "active" || u.status == "locked"
  }

  /** Locking and unlocking the same account restores the list, as long as
      the account's status is one the page writes. */
  lemma ToggleLockTwice(users: seq<ManagedUser>, id: string)
    requires forall i :: 0 <= i < |users| && users[i].id == id ==> KnownStatus(users[i])
    ensures HandleToggleLock(HandleToggleLock(users, id), id) == users
  {
    var r := HandleToggleLock(HandleToggleLock(users, id), id);
    assert forall i :: 0 <= i < |users| ==> r[i] == users[i];
  }

  // ---------------------------------------------------------------------
  // The student and instructor tables
  // ---------------------------------------------------------------------

  /** The sort selectors. The name order compares with `localeCompare`,
      whose collation is not modelled; an unknown value compares every pair
      as equal and so keeps the filtered order. */
  datatype UserSort = ByName | ByCreatedAt | ByCourseCount | ByRating | ByRevenue | Unsorted

  function StudentSort(value: string): (o: UserSort)
    ensures o in {ByName, ByCreatedAt, ByCourseCount, Unsorted}
  {
    match value
    case "name" => ByName
    case "createdAt" => ByCreatedAt
    case "courseCount" => ByCourseCount
    case _ => Unsorted
  }

  function InstructorSort(value: string): (o: UserSort)
    ensures o in {ByName, ByCourseCount, ByRating, ByRevenue, Unsorted}
  {
    match value
    case "name" => ByName
    case "courseCount" => ByCourseCount
    case "rating" => ByRating
    case "revenue" => ByRevenue
    case _ => Unsorted
  }

  /** The three filters of a table, in a single condition. */
  predicate InView(u: ManagedUser, role: Auth.Role, statusFilter: string, search: string) {
    && u.role == role
    && (statusFilter == "all" || u.status == statusFilter)
    && (search == "" || Text.IncludesFold(u.name, search) || Text.IncludesFold(u.email, search))
  }

  predicate HasRole(u: ManagedUser, role: Auth.Role) {
    u.role == role
  }

  predicate HasStatus(u: ManagedUser, status: string) {
    u.status == status
  }

  predicate Found(u: ManagedUser, search: string) {
    Text.IncludesFold(u.name, search) || Text.IncludesFold(u.email, search)
  }

  function RoleIs(role: Auth.Role): ManagedUser -> bool {
    (u: ManagedUser) => HasRole(u, role)
  }

  function StatusIs(status: string): ManagedUser -> bool {
    (u: ManagedUser) => HasStatus(u, status)
  }

  function SearchIs(search: string): ManagedUser -> bool {
    (u: ManagedUser) => Found(u, search)
  }

  /** The role filter, then the status filter unless "all", then the
      search unless empty, as the memo applies them. */
  function FilterUsers(users: seq<ManagedUser>, role: Auth.Role, statusFilter: string, search: string): seq<ManagedUser> {
    var byRole := Seqs.Filter(users, RoleIs(role));
    var byStatus := if statusFilter != "all" then Seqs.Filter(byRole, StatusIs(statusFilter)) else byRole;
    if search != "" then Seqs.Filter(byStatus, SearchIs(search)) else byStatus
  }

  /** The filters keep the list's order. */
  lemma FilterUsersOrdered(users: seq<ManagedUser>, role: Auth.Role, statusFilter: string, search: string)
    ensures Seqs.IsSubsequence(FilterUsers(users, role, statusFilter, search), users)
  {
    var byRole := Seqs.Filter(users, RoleIs(role));
    var byStatus := if statusFilter != "all" then Seqs.Filter(byRole, StatusIs(statusFilter)) else byRole;
    if statusFilter != "all" { Seqs.SubsequenceTrans(byStatus, byRole, users); }
    if search != "" { Seqs.SubsequenceTrans(Seqs.Filter(byStatus, SearchIs(search)), byStatus, users); }
  }

  /** A user is in a table exactly when the user is in the list and meets
      the three filters. */
  lemma FilterUsersMembers(users: seq<ManagedUser>, role: Auth.Role, statusFilter: string, search: string, u: ManagedUser)
    ensures u in FilterUsers(users, role, statusFilter, search) <==> u in users && InView(u, role, statusFilter, search)
  {
    var byRole := Seqs.Filter(users, RoleIs(role));
    Seqs.FilterMembers(users, RoleIs(role), u);
    var byStatus := if statusFilter != "all" then Seqs.Filter(byRole, StatusIs(statusFilter)) else byRole;
    if statusFilter != "all" { Seqs.FilterMembers(byRole, StatusIs(statusFilter), u); }
    if search != "" { Seqs.FilterMembers(byStatus, SearchIs(search), u); }
  }

  /** A missing number sorts as zero. */
  function CourseCountKey(u: ManagedUser): int { u.courseCount.GetOr(0) }
  function RatingKey(u: ManagedUser): int { u.ratingTenths.GetOr(0) }
  function RevenueKey(u: ManagedUser): int { u.revenue.GetOr(0) }
  function CreatedKey(u: ManagedUser): int { u.createdAt }

  /** The table's sort; the name order is the `byName` argument. */
  function SortUsers(data: seq<ManagedUser>, o: UserSort, byName: seq<ManagedUser>): (r: seq<ManagedUser>)
    requires o == ByName ==> multiset(byName) == multiset(data)
    ensures multiset(r) == multiset(data)
    ensures o == Unsorted ==> r == data
    ensures o == ByCreatedAt ==> forall i, j :: 0 <= i < j < |r| ==> r[i].createdAt >= r[j].createdAt
    ensures o == ByCourseCount ==> forall i, j :: 0 <= i < j < |r| ==> r[i].courseCount.GetOr(0) >= r[j].courseCount.GetOr(0)
    ensures o == ByRating ==> forall i, j :: 0 <= i < j < |r| ==> r[i].ratingTenths.GetOr(0) >= r[j].ratingTenths.GetOr(0)
    ensures o == ByRevenue ==> forall i, j :: 0 <= i < j < |r| ==> r[i].revenue.GetOr(0) >= r[j].revenue.GetOr(0)
  {
    match o
    case ByName => byName
    case Unsorted => data
    case ByCreatedAt =>
      var r := Seqs.SortDesc(data, CreatedKey);
      assert forall i, j :: 0 <= i < j < |r| ==> CreatedKey(r[i]) >= CreatedKey(r[j]);
      r
    case ByCourseCount =>
      var r := Seqs.SortDesc(data, CourseCountKey);
      assert forall i, j :: 0 <= i < j < |r| ==> CourseCountKey(r[i]) >= CourseCountKey(r[j]);
      r
    case ByRating =>
      var r := Seqs.SortDesc(data, RatingKey);
      assert forall i, j :: 0 <= i < j < |r| ==> RatingKey(r[i]) >= RatingKey(r[j]);
      r
    case ByRevenue =>
      var r := Seqs.SortDesc(data, RevenueKey);
      assert forall i, j :: 0 <= i < j < |r| ==> RevenueKey(r[i]) >= RevenueKey(r[j]);
      r
  }

  /** `studentData` and `instructorData`: one table per role, filtered and
      then sorted. */
  function TableData(users: seq<ManagedUser>, role: Auth.Role, statusFilter: string, search: string,
                     o: UserSort, byName: seq<ManagedUser>): (r: seq<ManagedUser>)
    requires o == ByName ==> multiset(byName) == multiset(FilterUsers(users, role, statusFilter, search))
    ensures multiset(r) == multiset(FilterUsers(users, role, statusFilter, search))
    ensures forall u :: u in r <==> u in users && InView(u, role, statusFilter, search)
  {
    var data := FilterUsers(users, role, statusFilter, search);
    var r := SortUsers(data, o, byName);
    forall u ensures u in r <==> u in users && InView(u, role, statusFilter, search) {
      FilterUsersMembers(users, role, statusFilter, search, u);
      assert u in r <==> u in multiset(r);
      assert u in data <==> u in multiset(data);
    }
    r
  }

  /** The student table holds students only and the instructor table
      instructors only, so no account is in both. */
  lemma TablesDisjoint(users: seq<ManagedUser>, statusFilter: string, search: string,
                       so: UserSort, sn: seq<ManagedUser>, io: UserSort, iname: seq<ManagedUser>, u: ManagedUser)
    requires so == ByName ==> multiset(sn) == multiset(FilterUsers(users, Auth.Student, statusFilter, search))
    requires io == ByName ==> multiset(iname) == multiset(FilterUsers(users, Auth.Instructor, statusFilter, search))
    ensures !(u in TableData(users, Auth.Student, statusFilter, search, so, sn)
              && u in TableData(users, Auth.Instructor, statusFilter, search, io, iname))
  {
  }

  /** With the default filters the sample data shows two students and two
      instructors. */
  lemma DefaultTables()
    ensures |FilterUsers(MockUsers, Auth.Student, "all", "")| == 2
    ensures |FilterUsers(MockUsers, Auth.Instructor, "all", "")| == 2
  {
    var s := RoleIs(Auth.Student);
    assert Seqs.Filter(MockUsers[6..], s) == [MockUsers[6]];
    assert Seqs.Filter(MockUsers[5..], s) == [MockUsers[6]];
    assert Seqs.Filter(MockUsers[4..], s) == [MockUsers[6]];
    assert Seqs.Filter(MockUsers[3..], s) == [MockUsers[6]];
    assert Seqs.Filter(MockUsers[2..], s) == [MockUsers[6]];
    assert Seqs.Filter(MockUsers[1..], s) == [MockUsers[6]];
    var t := RoleIs(Auth.Instructor);
    assert Seqs.Filter(MockUsers[6..], t) == [];
    assert Seqs.Filter(MockUsers[5..], t) == [MockUsers[5]];
    assert Seqs.Filter(MockUsers[4..], t) == [MockUsers[5]];
    assert Seqs.Filter(MockUsers[3..], t) == [MockUsers[5]];
    assert Seqs.Filter(MockUsers[2..], t) == [MockUsers[5]];
  }

  // ---------------------------------------------------------------------
  // The remembered tab
  // ---------------------------------------------------------------------

  const TabStorageKey: string := "adminActiveTab"

  /** The first render reads the stored tab; nothing stored, or an empty
      value, gives "student". */
  function InitialTab(storage: map<string, string>): (tab: string)
    ensures TabStorageKey in storage && storage[TabStorageKey] != "" ==> tab == storage[TabStorageKey]
    ensures !(TabStorageKey in storage && storage[TabStorageKey] != "") ==> tab == "student"
  {
    if TabStorageKey in storage && storage[TabStorageKey] != "" then storage[TabStorageKey] else "student"
  }

  /** `handleTabChange(key)`: the tab shown and the stored tab. */
  function HandleTabChange(storage: map<string, string>, key: string): (r: (string, map<string, string>))
    ensures r.0 == key
    ensures TabStorageKey in r.1 && r.1[TabStorageKey] == key
    ensures forall k :: k in storage && k != TabStorageKey ==> k in r.1 && r.1[k] == storage[k]
  {
    (key, storage[TabStorageKey := key])
  }

  /** A chosen tab survives a reload. */
  lemma TabSurvivesReload(storage: map<string, string>, key: string)
    requires key != ""
    ensures InitialTab(HandleTabChange(storage, key).1) == HandleTabChange(storage, key).0
  {
  }
}
