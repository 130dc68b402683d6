/** The side navigation: the table of entries, the entries a user's role
    sees, and which entry is highlighted for the current path. */
module Sidebar {
  import Seqs
  import Auth
  import opened Wrappers
  import opened Text

  datatype NavItem = NavItem(title: string, href: string, roles: seq<string>)

  const AllRoles: seq<string> := ["admin", "driver", "welder", "student"]

  const DashboardItem := NavItem("Dashboard", "/dashboard", AllRoles)
  const UsersItem := NavItem("Users", "/users", ["admin"])
  const ReportsItem := NavItem("Reports", "/reports", ["admin", "driver", "welder"])
  const PassportUploadItem := NavItem("Passport Upload", "/dashboard/passport-upload", AllRoles)
  const SettingsItem := NavItem("Settings", "/settings", AllRoles)

  /** The entries in display order. */
  const NavItems: seq<NavItem> := [DashboardItem, UsersItem, ReportsItem, PassportUploadItem, SettingsItem]

  /** `user?.role || ""`. */
  function RoleKey(user: Option<Auth.User>): string {
    if user.None? then "" else user.value.role
  }

  /** `filteredNavItems`: the entries whose roles include the user's role,
      in table order. */
  function VisibleItems(user: Option<Auth.User>): (items: seq<NavItem>)
    ensures forall item :: item in items <==> item in NavItems && RoleKey(user) in item.roles
  {
    var role := RoleKey(user);
    Seqs.Filter((item: NavItem) => role in item.roles, NavItems)
  }

  /** Signed out, the role is empty and no entry shows. */
  lemma NoUserNoItems()
    ensures VisibleItems(None) == []
  {
    Seqs.FilterNone((item: NavItem) => "" in item.roles, NavItems);
  }

  /** An administrator sees every entry. */
  lemma AdminSeesAll(user: Auth.User)
    requires user.role == "admin"
    ensures VisibleItems(Some(user)) == NavItems
  {
    Seqs.FilterKeepsAll((item: NavItem) => "admin" in item.roles, NavItems);
  }

  /** A student sees neither Users nor Reports, and sees the rest. */
  lemma StudentView(user: Auth.User)
    requires user.role == "student"
    ensures UsersItem !in VisibleItems(Some(user)) && ReportsItem !in VisibleItems(Some(user))
    ensures DashboardItem in VisibleItems(Some(user)) && PassportUploadItem in VisibleItems(Some(user)) &&
      SettingsItem in VisibleItems(Some(user))
  {
  }

  /** Whether the entry linking to `href` is highlighted on `path`. The
      dashboard entry is highlighted on the bare dashboard and on the role
      dashboards only; every other entry on any path it prefixes. */
  predicate IsActive(path: string, href: string) {
    if href == "/dashboard" then
      path == "/dashboard" || StartsWith(path, "/dashboard/admin") ||
      StartsWith(path, "/dashboard/driver") || StartsWith(path, "/dashboard/welder") ||
      StartsWith(path, "/dashboard/student")
    else StartsWith(path, href)
  }

  /** On the passport upload page its own entry is highlighted and the
      dashboard entry, although its link is a prefix of the path, is not. */
  lemma PassportUploadHighlight()
    ensures IsActive("/dashboard/passport-upload", PassportUploadItem.href)
    ensures !IsActive("/dashboard/passport-upload", DashboardItem.href)
  {
    var path := "/dashboard/passport-upload";
    assert path[11] == 'p';
    assert "/dashboard/admin"[11] == 'a' && "/dashboard/driver"[11] == 'd';
    assert "/dashboard/welder"[11] == 'w' && "/dashboard/student"[11] == 's';
  }

  /** Wherever a login lands, the dashboard entry is highlighted. */
  lemma LoginLandingHighlighted(role: string)
    ensures IsActive(Auth.DashboardFor(role), DashboardItem.href)
  {
  }
}
