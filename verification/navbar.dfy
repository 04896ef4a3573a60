/** The navigation bar's items for the signed-in user, and which item is
    highlighted for the current path. Icons are left out. */
module Navbar {
  import opened Wrappers
  import opened Auth

  /** A link of the bar. The source names the text field `label`, a reserved
      word in Dafny, so it is `caption` here. */
  datatype NavItem = NavItem(href: string, caption: string)

  const HomeItem: NavItem := NavItem("/", "Home")
  const LearnItem: NavItem := NavItem("/learn", "Learn")
  const TeacherItem: NavItem := NavItem("/teacher", "Teacher")
  const ProfileItem: NavItem := NavItem("/profile", "Profile")

  function Hrefs(items: seq<NavItem>): (hs: seq<string>)
    ensures |hs| == |items|
    ensures forall i | 0 <= i < |items| :: hs[i] == items[i].href
  {
    seq(|items|, i requires 0 <= i < |items| => items[i].href)
  }

  /** `getNavItems`: Home and Learn, then Teacher for a teacher, then Profile
      for anyone signed in. */
  function NavItems(user: Option<User>): (items: seq<NavItem>)
    ensures |items| >= 2 && items[0] == HomeItem && items[1] == LearnItem
    ensures TeacherItem in items <==> user.Some? && user.value.role == Teacher
    ensures ProfileItem in items <==> user.Some?
    ensures user.Some? ==> items[|items| - 1] == ProfileItem
    ensures |items| == (if user.None? then 2 else if user.value.role == Teacher then 4 else 3)
    ensures NoDup(Hrefs(items))
  {
    var base := [HomeItem, LearnItem];
    var withTeacher := if user.Some? && user.value.role == Teacher then base + [TeacherItem] else base;
    var items := if user.Some? then withTeacher + [ProfileItem] else withTeacher;
    assert Hrefs(items) == if user.None? then ["/", "/learn"]
      else if user.value.role == Teacher then ["/", "/learn", "/teacher", "/profile"]
      else ["/", "/learn", "/profile"];
    items
  }

  /** An item is highlighted when the path is exactly its href. */
  predicate IsActive(pathname: string, item: NavItem) {
    pathname == item.href
  }

  /** With distinct hrefs no two items are highlighted at once. */
  lemma {:induction false} AtMostOneActive(items: seq<NavItem>, pathname: string)
    requires NoDup(Hrefs(items))
    ensures forall i, j | 0 <= i < |items| && 0 <= j < |items| ::
              IsActive(pathname, items[i]) && IsActive(pathname, items[j]) ==> i == j
  {
    forall i, j | 0 <= i < |items| && 0 <= j < |items| && IsActive(pathname, items[i]) && IsActive(pathname, items[j])
      ensures i == j
    {
      assert Hrefs(items)[i] == pathname == Hrefs(items)[j];
    }
  }

  /** For every user and path at most one navigation item is highlighted. */
  lemma NavHighlightsAtMostOne(user: Option<User>, pathname: string)
    ensures var items := NavItems(user);
            forall i, j | 0 <= i < |items| && 0 <= j < |items| ::
              IsActive(pathname, items[i]) && IsActive(pathname, items[j]) ==> i == j
  {
    AtMostOneActive(NavItems(user), pathname);
  }

  /** Signing out drops back to the two public items; the demo teacher sees
      four items and a demo student three. */
  lemma NavAfterSession(store: Store)
    ensures NavItems(GetCurrentUser(Logout(store))) == [HomeItem, LearnItem]
    ensures NavItems(Some(MockUsers[2])) == [HomeItem, LearnItem, TeacherItem, ProfileItem]
    ensures NavItems(Some(MockUsers[0])) == [HomeItem, LearnItem, ProfileItem]
  {
  }
}
