/**
 * The admin-role hook: who is signed in, whether the auth state or the role
 * lookup is still loading, and whether the signed-in user is an administrator,
 * which is the case exactly when a document for the user's uid exists in the
 * `roles_admin` collection.
 */
module AdminAuth {
  import opened Js
  import opened Firestore

  const RolesCollection := "roles_admin"

  datatype User = User(uid: string)

  /** What the user hook reports. */
  datatype UserState = UserState(user: Option<User>, isUserLoading: bool, userError: Option<string>)

  /** A reference to one document. */
  datatype DocRef = DocRef(collection: string, id: string)

  /** What the document hook reports for a reference: the document's data when
      it exists, and whether the lookup is still running. */
  datatype DocState = DocState(data: Option<Record>, isLoading: bool)

  /** What the hook returns. */
  datatype AdminAuthState = AdminAuthState(user: Option<User>, isAdmin: bool, isLoading: bool, error: Option<string>)

  /** `adminRoleRef`: the user's role document, or no reference without a user. */
  function AdminRoleRef(user: Option<User>): (r: Option<DocRef>)
    ensures r.Some? <==> user.Some?
    ensures r.Some? ==> r.value.collection == RolesCollection && r.value.id == user.value.uid
  {
    if user.Some? then Some(DocRef(RolesCollection, user.value.uid)) else None
  }

  /** `useAdminAuth`, given what the user hook and the role-document hook
      report. */
  function UseAdminAuth(u: UserState, role: DocState): AdminAuthState {
    AdminAuthState(u.user, role.data.Some?, u.isUserLoading || (u.user.Some? && role.isLoading), u.userError)
  }

  /** The role lookup once it has finished: the document stored under the
      reference, no data without a reference. */
  function ResolvedRoleLookup(ref: Option<DocRef>, roles: map<string, Record>): DocState {
    if ref.Some? && ref.value.id in roles then DocState(Some(roles[ref.value.id]), false)
    else DocState(None, false)
  }

  /** The user and the error are passed through; a user is an administrator
      exactly when their role document exists, whatever it holds. */
  lemma AdminIffRoleDocument(u: UserState, role: DocState, a: Record, b: Record)
    ensures UseAdminAuth(u, role).user == u.user && UseAdminAuth(u, role).error == u.userError
    ensures UseAdminAuth(u, role).isAdmin <==> role.data.Some?
    ensures UseAdminAuth(u, DocState(Some(a), role.isLoading)) == UseAdminAuth(u, DocState(Some(b), role.isLoading))
  {
  }

  /** Once the lookup has finished, a signed-in user is an administrator exactly
      when their uid is a key of `roles_admin`, and nobody is without a user. */
  lemma AdminIffUidListed(user: Option<User>, isUserLoading: bool, roles: map<string, Record>)
    ensures var s := UseAdminAuth(UserState(user, isUserLoading, None), ResolvedRoleLookup(AdminRoleRef(user), roles));
      && (s.isAdmin <==> user.Some? && user.value.uid in roles)
      && s.isLoading == isUserLoading
  {
  }

  /** Loading: without a user only the user hook counts; with one, either
      lookup still running means loading; the user hook loading always does. */
  lemma LoadingRule(u: UserState, role: DocState)
    ensures u.user.None? ==> UseAdminAuth(u, role).isLoading == u.isUserLoading
    ensures u.user.Some? ==> UseAdminAuth(u, role).isLoading == (u.isUserLoading || role.isLoading)
    ensures u.isUserLoading ==> UseAdminAuth(u, role).isLoading
  {
  }
}
