/** The role filter of the main navigation (src/components/common/molecules/NavLinks.tsx). */
module NavLinks {
  import opened Wrappers
  import opened Auth
  import Seqs

  /** A navigation entry; `roles` absent means the entry is for everyone. */
  datatype NavItem = NavItem(name: string, path: string, roles: Option<seq<Role>>)

  const HomeItem := NavItem("Home", "/", None)
  const CoursesItem := NavItem("Courses", "/courses", None)
  const AboutItem := NavItem("About", "/about", None)
  const StudentItem := NavItem("Student Dashboard", "/dashboard/student", Some([Student]))
  const InstructorItem := NavItem("Instructor Dashboard", "/dashboard/instructor", Some([Instructor]))
  const AdminItem := NavItem("Admin Panel", "/admin", Some([Admin]))
  const ModerationItem := NavItem("Moderation", "/moderation", Some([Moderator]))

  /** `navItems`: three public entries, then one dashboard per role except guest. */
  const NavItems: seq<NavItem> :=
    [HomeItem, CoursesItem, AboutItem, StudentItem, InstructorItem, AdminItem, ModerationItem]

  /** An entry without a role list is shown to everybody; one with a list
      only to a signed-in user whose role is on it. */
  predicate IsVisible(item: NavItem, userRole: Option<Role>) {
    item.roles.None? || (userRole.Some? && userRole.value in item.roles.value)
  }

  function VisibleTo(userRole: Option<Role>): NavItem -> bool {
    item => IsVisible(item, userRole)
  }

  /** `filteredNavItems`: the entries visible to `userRole`, in menu order. */
  function FilteredNavItems(userRole: Option<Role>): (r: seq<NavItem>)
    ensures forall item :: item in r <==> item in NavItems && IsVisible(item, userRole)
    ensures Seqs.IsSubsequence(r, NavItems)
    ensures forall item :: item in NavItems && item.roles.None? ==> item in r
  {
    Seqs.FilterMembersAll(NavItems, VisibleTo(userRole));
    Seqs.Filter(NavItems, VisibleTo(userRole))
  }

  const PublicItems: seq<NavItem> := [HomeItem, CoursesItem, AboutItem]
  const Dashboards: seq<NavItem> := [StudentItem, InstructorItem, AdminItem, ModerationItem]

  /** The menu is the public entries followed by the dashboards, and
      whatever the role, the public entries stay. */
  lemma FilterSplits(userRole: Option<Role>)
    ensures NavItems == PublicItems + Dashboards
    ensures FilteredNavItems(userRole) == PublicItems + Seqs.Filter(Dashboards, VisibleTo(userRole))
  {
    var p := VisibleTo(userRole);
    assert NavItems == PublicItems + Dashboards;
    Seqs.FilterAppend(PublicItems, Dashboards, p);
    Seqs.FilterAll(PublicItems, p);
  }

  /** Without a role only the three public entries remain. */
  lemma AnonymousSeesPublicEntries()
    ensures FilteredNavItems(None) == [HomeItem, CoursesItem, AboutItem]
  {
    FilterSplits(None);
    FilterFour(StudentItem, InstructorItem, AdminItem, ModerationItem, VisibleTo(None));
    assert PublicItems + [] == PublicItems;
  }

  /** Every restricted entry lists exactly one role, so a role sees its own
      dashboard on top of the public entries, and a guest sees no dashboard. */
  lemma EntriesPerRole(role: Role)
    ensures |FilteredNavItems(Some(role))| == if role == Guest then 3 else 4
  {
    FilterSplits(Some(role));
    DashboardsPerRole(role);
  }

  lemma DashboardsPerRole(role: Role)
    ensures |Seqs.Filter(Dashboards, VisibleTo(Some(role)))|
         == if role == Guest then 0 else 1
  {
    var p := VisibleTo(Some(role));
    FilterFour(StudentItem, InstructorItem, AdminItem, ModerationItem, p);
    assert p(StudentItem) <==> role == Student;
    assert p(InstructorItem) <==> role == Instructor;
    assert p(AdminItem) <==> role == Admin;
    assert p(ModerationItem) <==> role == Moderator;
  }

  lemma FilterFour(a: NavItem, b: NavItem, c: NavItem, d: NavItem, p: NavItem -> bool)
    ensures |Seqs.Filter([a, b, c, d], p)|
         == (if p(a) then 1 else 0) + (if p(b) then 1 else 0) + (if p(c) then 1 else 0) + (if p(d) then 1 else 0)
  {
    assert [a, b, c, d] == [a] + [b, c, d];
    assert [b, c, d] == [b] + [c, d];
    assert [c, d] == [c] + [d];
    assert [d] == [d] + [];
    Seqs.FilterCons(a, [b, c, d], p);
    Seqs.FilterCons(b, [c, d], p);
    Seqs.FilterCons(c, [d], p);
    Seqs.FilterCons(d, [], p);
  }
}
