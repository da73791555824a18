/** The browser's role model (src/types/auth.ts) and the `hasPermission`
    check of the authentication context (src/contexts/AuthContext.tsx). */
module AuthRoles {
  import opened Wrappers
  import opened Seqs

  datatype Role = Admin | Manager | Viewer

  datatype Permission =
    | ViewInventory | CreateItem | EditItem | DeleteItem | ViewStats | ManageUsers

  datatype User = User(id: string, name: string, email: string, role: Role)

  /** A demo account: a user with its password. */
  datatype MockUser = MockUser(id: string, name: string, email: string, password: string, role: Role)

  /** `ROLE_PERMISSIONS`. */
  function RolePermissions(role: Role): (r: seq<Permission>)
    ensures NoDuplicates(r)
    ensures ViewInventory in r && ViewStats in r
    ensures |r| == match role case Admin => 6 case Manager => 4 case Viewer => 2
  {
    match role
    case Admin => [ViewInventory, CreateItem, EditItem, DeleteItem, ViewStats, ManageUsers]
    case Manager => [ViewInventory, CreateItem, EditItem, ViewStats]
    case Viewer => [ViewInventory, ViewStats]
  }

  /** `hasPermission`: false with nobody logged in, else whether the user's
      role lists the permission. */
  function HasPermission(user: Option<User>, permission: Permission): (b: bool)
    ensures user.None? ==> !b
    ensures user.Some? ==> (b <==> permission in RolePermissions(user.value.role))
  {
    if user.None? then false else permission in RolePermissions(user.value.role)
  }

  /** Admin holds every permission. */
  lemma AdminHoldsAll(permission: Permission)
    ensures permission in RolePermissions(Admin)
  {
  }

  /** Manager lacks exactly item deletion and user management; viewer holds
      exactly the two viewing permissions. */
  lemma ManagerAndViewerPermissions(permission: Permission)
    ensures permission in RolePermissions(Manager) <==> permission != DeleteItem && permission != ManageUsers
    ensures permission in RolePermissions(Viewer) <==> permission == ViewInventory || permission == ViewStats
  {
  }

  /** Viewer ≤ manager ≤ admin. */
  predicate AtLeast(stronger: Role, weaker: Role) {
    stronger == Admin || stronger == weaker || (stronger == Manager && weaker == Viewer)
  }

  /** A user whose role is at least another's holds every permission the
      other holds. */
  lemma HasPermissionMonotone(weaker: User, stronger: User, permission: Permission)
    requires AtLeast(stronger.role, weaker.role)
    requires HasPermission(Some(weaker), permission)
    ensures HasPermission(Some(stronger), permission)
  {
  }

  /** `MOCK_USERS`. */
  const MockUsers: seq<MockUser> := [
    MockUser("1", "Admin User", "admin@company.com", "admin123", Admin),
    MockUser("2", "Manager User", "manager@company.com", "manager123", Manager),
    MockUser("3", "Viewer User", "viewer@company.com", "viewer123", Viewer)
  ]

  /** The demo accounts have distinct ids and distinct emails, one per role. */
  lemma MockUsersDistinct()
    ensures forall i, j :: 0 <= i < j < |MockUsers| ==>
      MockUsers[i].id != MockUsers[j].id && MockUsers[i].email != MockUsers[j].email
    ensures |MockUsers| == 3
    ensures MockUsers[0].role == Admin && MockUsers[1].role == Manager && MockUsers[2].role == Viewer
  {
  }
}
