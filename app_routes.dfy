// App.tsx: the `ProtectedRoute` guard and the two role-protected route
// trees. Routes are modelled by their paths; the elements they render are
// not part of this model.

module AppRoutes {
  import opened Common
  import opened AuthContext

  /** What `ProtectedRoute` renders. */
  datatype Guard = LoadingScreen | Children | RedirectToLogin

  /** `ProtectedRoute` (:33-44). */
  function ProtectedRoute(loading: bool, isAuthenticated: bool, user: Option<User>, allowedRoles: seq<string>): (r: Guard)
    ensures loading <==> r == LoadingScreen
    ensures r == Children <==> !loading && isAuthenticated && user.Some? && user.value.role in allowedRoles
    ensures r == RedirectToLogin <==>
      !loading && !(isAuthenticated && user.Some? && user.value.role in allowedRoles)
  {
    if loading then LoadingScreen
    else if !isAuthenticated || user.None? || user.value.role !in allowedRoles then RedirectToLogin
    else Children
  }

  /** A protected tree: its path, the roles its guard allows, its child
      paths and where its index route redirects. */
  datatype Tree = Tree(path: string, allowedRoles: seq<string>, children: seq<string>, index: string)

  /** The student tree (:58-72). */
  const StudentTree := Tree("/student", ["student"],
    ["dashboard", "profile", "internships", "preferences", "documents", "allocation",
     "notifications", "courses", "ai-advisor", "saved"], "dashboard")

  /** The admin tree (:74-88). */
  const AdminTree := Tree("/admin", ["admin"],
    ["dashboard", "manage-courses", "manage-internships", "manage-students", "data-upload",
     "allocation-engine", "results", "fairness-report", "what-if-simulator", "audit-logs"], "dashboard")

  /** The guard of a tree, read from the auth context as the route does. */
  function Access(t: Tree, auth: AuthState): (r: Guard)
    reads auth
    ensures auth.loading ==> r == LoadingScreen
    ensures r == Children <==> !auth.loading && auth.user.Some? && auth.user.value.role in t.allowedRoles
  {
    ProtectedRoute(auth.loading, auth.IsAuthenticated(), auth.user, t.allowedRoles)
  }

  /** No user reaches both trees. */
  lemma RoleTreesDisjoint(loading: bool, isAuthenticated: bool, user: Option<User>)
    ensures !(ProtectedRoute(loading, isAuthenticated, user, StudentTree.allowedRoles) == Children &&
              ProtectedRoute(loading, isAuthenticated, user, AdminTree.allowedRoles) == Children)
  {
  }

  /** A signed-in student or admin reaches exactly one tree, once loading
      is over. */
  lemma EachRoleReachesItsTree(user: User)
    requires user.role == "student" || user.role == "admin"
    ensures (ProtectedRoute(false, true, Some(user), StudentTree.allowedRoles) == Children) <==> user.role == "student"
    ensures (ProtectedRoute(false, true, Some(user), AdminTree.allowedRoles) == Children) <==> user.role == "admin"
  {
  }

  /** Once signed out, either tree sends the visitor to the login page. */
  lemma SignedOutRedirects(t: Tree, auth: AuthState)
    requires !auth.loading && auth.user.None?
    ensures Access(t, auth) == RedirectToLogin
  {
  }

  /** The index routes (:70, :86) redirect to a child of their own tree. */
  lemma IndexStaysInTree()
    ensures StudentTree.index in StudentTree.children
    ensures AdminTree.index in AdminTree.children
  {
  }
}
