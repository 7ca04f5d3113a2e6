/** The admin dashboard: the account overview counts, the users table with its per-row role
    control, and the page state around loading the list and changing a role. */
module AdminDashboard {
  import opened Common
  import opened Records

  /** A user as the listing returns it. */
  datatype Listed = Listed(id: UserId, username: string, email: string, role: string)

  /** The actions cell of a row: a fixed label, or a role selector. */
  datatype ActionCell = Immutable | Selector(value: string, options: seq<string>, disabled: bool)

  /** The actions cell that a viewer with `viewerRole` sees for `target`. */
  function Action(viewerRole: string, target: Listed): (c: ActionCell)
    ensures c.Immutable? <==> target.role == SuperAdminRole
    ensures c.Selector? ==> c.value == target.role && c.options == [UserRole, AdminRole]
    ensures c.Selector? ==> (c.disabled <==> viewerRole == AdminRole && target.role != UserRole)
  {
    if target.role == SuperAdminRole then Immutable
    else Selector(target.role, [UserRole, AdminRole], viewerRole == AdminRole && target.role != UserRole)
  }

  /** The viewer can pick a new role for `target` from its row. */
  predicate CanChange(viewerRole: string, target: Listed) {
    Action(viewerRole, target).Selector? && !Action(viewerRole, target).disabled
  }

  /** Who can change whom: nobody changes a superadmin, an admin changes only plain users, and
      every other viewer changes every non-superadmin. */
  lemma ChangeableTargets(viewerRole: string, target: Listed)
    ensures CanChange(viewerRole, target) <==>
              target.role != SuperAdminRole && (viewerRole != AdminRole || target.role == UserRole)
    ensures viewerRole == AdminRole && target.role == AdminRole ==> !CanChange(viewerRole, target)
  {
  }

  /** No row offers the superadmin role, so nobody is promoted to it from this page. */
  lemma NoPromotionToSuperAdmin(viewerRole: string, target: Listed)
    ensures Action(viewerRole, target).Selector? ==> SuperAdminRole !in Action(viewerRole, target).options
  {
  }

  /** `users.filter((u) => u.role === role).length`. */
  function CountRole(users: seq<Listed>, role: string): (n: nat)
    ensures n <= |users|
  {
    |Filter(users, (u: Listed) => u.role == role)|
  }

  /** Listed users whose role is none of the three known ones. */
  function CountOther(users: seq<Listed>): (n: nat)
    ensures n <= |users|
  {
    |Filter(users, (u: Listed) => u.role != UserRole && u.role != AdminRole && u.role != SuperAdminRole)|
  }

  /** The four overview cards. */
  datatype Overview = Overview(total: nat, users: nat, admins: nat, superAdmins: nat)

  function Summary(users: seq<Listed>): (o: Overview)
    ensures o.total == |users|
  {
    Overview(|users|, CountRole(users, UserRole), CountRole(users, AdminRole), CountRole(users, SuperAdminRole))
  }

  /** Every listed user falls in exactly one of the three role counts or among the others. */
  lemma {:induction false} CountsPartition(users: seq<Listed>)
    ensures CountRole(users, UserRole) + CountRole(users, AdminRole) + CountRole(users, SuperAdminRole)
            + CountOther(users) == |users|
  {
    if users != [] {
      CountsPartition(users[1..]);
    }
  }

  /** The three role cards add up to at most the total, and to exactly the total iff every
      listed role is one of the three. */
  lemma OverviewBounded(users: seq<Listed>)
    ensures Summary(users).users + Summary(users).admins + Summary(users).superAdmins <= Summary(users).total
    ensures Summary(users).users + Summary(users).admins + Summary(users).superAdmins == Summary(users).total
            <==> forall i :: 0 <= i < |users| ==> users[i].role in [UserRole, AdminRole, SuperAdminRole]
  {
    CountsPartition(users);
    var other := (u: Listed) => u.role != UserRole && u.role != AdminRole && u.role != SuperAdminRole;
    if forall i :: 0 <= i < |users| ==> users[i].role in [UserRole, AdminRole, SuperAdminRole] {
      FilterNoneKept(users, other);
    }
  }

  /** The page state: the list, whether the first load is still running, and the error text. */
  datatype PageState = PageState(users: seq<Listed>, loading: bool, error: string)

  const Initial := PageState([], true, "")

  /** A request's outcome: the data, or a failure with the server's message if it sent one. */
  datatype Outcome<T> = Ok(data: T) | Failed(message: Option<string>)

  /** `fetchUsers` once the request settles. A success does not clear an earlier error. */
  function AfterFetch(state: PageState, outcome: Outcome<seq<Listed>>): (r: PageState)
    ensures !r.loading
    ensures outcome.Ok? ==> r.users == outcome.data && r.error == state.error
    ensures outcome.Failed? ==> r.users == state.users
    ensures outcome.Failed? && Truthy(outcome.message) ==> r.error == outcome.message.value
    ensures outcome.Failed? && !Truthy(outcome.message) ==> r.error == "Failed to load users"
  {
    match outcome
    case Ok(data) => state.(users := data, loading := false)
    case Failed(message) =>
      state.(error := if Truthy(message) then message.value else "Failed to load users", loading := false)
  }

  /** What `changeRole` does once its request settles. */
  datatype ChangeEffect = Refetch | Alert(text: string)

  function AfterChangeRole(state: PageState, outcome: Outcome<()>): (r: (PageState, ChangeEffect))
    ensures r.0 == state
    ensures outcome.Ok? <==> r.1 == Refetch
    ensures outcome.Failed? ==> r.1 == Alert(if Truthy(outcome.message) then outcome.message.value else "Failed to change role")
  {
    match outcome
    case Ok(_) => (state, Refetch)
    case Failed(message) => (state, Alert(if Truthy(message) then message.value else "Failed to change role"))
  }

  /** The users table area. */
  datatype TableView = LoadingUsers | ErrorText(text: string) | Rows(users: seq<Listed>)

  function Table(state: PageState): (v: TableView)
    ensures state.loading <==> v == LoadingUsers
    ensures !state.loading && state.error != "" ==> v == ErrorText(state.error)
    ensures v.Rows? <==> !state.loading && state.error == ""
    ensures v.Rows? ==> v.users == state.users
  {
    if state.loading then LoadingUsers
    else if state.error != "" then ErrorText(state.error)
    else Rows(state.users)
  }

  /** Once a load has failed, the error stays on screen: a later successful fetch (the one a
      role change triggers) replaces the list but the table is never shown again. */
  lemma ErrorSticks(state: PageState, later: seq<seq<Listed>>)
    requires state.error != "" && !state.loading
    ensures Table(FetchAll(state, later)) == ErrorText(state.error)
  {
    FetchAllKeepsError(state, later);
  }

  /** The state after a run of successful fetches. */
  function FetchAll(state: PageState, later: seq<seq<Listed>>): (r: PageState)
    ensures later != [] ==> !r.loading
    ensures later == [] ==> r == state
    decreases |later|
  {
    if later == [] then state else FetchAll(AfterFetch(state, Ok(later[0])), later[1..])
  }

  lemma {:induction false} FetchAllKeepsError(state: PageState, later: seq<seq<Listed>>)
    ensures FetchAll(state, later).error == state.error
    decreases |later|
  {
    if later != [] {
      FetchAllKeepsError(AfterFetch(state, Ok(later[0])), later[1..]);
    }
  }
}
