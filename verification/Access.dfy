/** Who may do what where: roles, and the grants that give a group a role on one
    agency or on every one. The handlers that write them, as functions of the tables. */
module Access {
  datatype Perm = TriggerJobs | KillJobs | ManageEnvVars | PublishSchedule | ConfigureApp | ManageRoles | Compose

  const PERMISSION_NAMES: seq<Perm> :=
    [TriggerJobs, KillJobs, ManageEnvVars, PublishSchedule, ConfigureApp, ManageRoles, Compose]

  lemma NamesEveryPerm(p: Perm)
    ensures p in PERMISSION_NAMES
  {
    match p
    case TriggerJobs => assert PERMISSION_NAMES[0] == p;
    case KillJobs => assert PERMISSION_NAMES[1] == p;
    case ManageEnvVars => assert PERMISSION_NAMES[2] == p;
    case PublishSchedule => assert PERMISSION_NAMES[3] == p;
    case ConfigureApp => assert PERMISSION_NAMES[4] == p;
    case ManageRoles => assert PERMISSION_NAMES[5] == p;
    case Compose => assert PERMISSION_NAMES[6] == p;
  }

  const ADMIN_ROLE := "admin"

  /** The built-in agency: no grant may name it. */
  const GLOBAL := "global"

  datatype Role = Role(builtin: bool, perms: set<Perm>)

  datatype Where = On(agency: string) | Everywhere

  datatype Grant = Grant(group: string, role: string, where: Where)

  /** A request's body, before it is checked. */
  datatype GrantInput = GrantInput(group: string, role: string, agency: string, allScopes: bool)

  /** Who asks: their directory groups, and whether the break-glass group is one. */
  datatype User = User(groups: set<string>, bootstrap: bool)

  /** The agency a request works in, if it names one, and whether it may be. */
  datatype Context = Unnamed | Working(agency: string, readable: bool)

  datatype State = State(
    roles: map<string, Role>,
    grants: map<string, Grant>,
    agencies: set<string>,
    listed: set<(string, string)>)

  datatype Outcome =
    | Done
    | Forbidden
    | Invalid
    | NotFound
    | Conflict
    | Mismatch
    | GroupNotListed
    | RoleInUse
    | AdminLockout
    | LastRoleLockout

  // ----- what a user holds -----

  predicate Carries(s: State, role: string, p: Perm) {
    role in s.roles && p in s.roles[role].perms
  }

  predicate IsTheirs(s: State, u: User, id: string) {
    id in s.grants && s.grants[id].group in u.groups
  }

  predicate CanAnywhere(s: State, u: User, p: Perm) {
    || (u.bootstrap && Carries(s, ADMIN_ROLE, p))
    || exists id :: id in s.grants && IsTheirs(s, u, id) && Carries(s, s.grants[id].role, p)
  }

  predicate GlobalAdmin(s: State, u: User, p: Perm) {
    || (u.bootstrap && Carries(s, ADMIN_ROLE, p))
    || exists id :: id in s.grants && IsTheirs(s, u, id) && s.grants[id].where.Everywhere? && Carries(s, s.grants[id].role, p)
  }

  predicate CanAgency(s: State, u: User, p: Perm, agency: string) {
    if agency == GLOBAL then GlobalAdmin(s, u, p)
    else agency != "" && (GlobalAdmin(s, u, p) || HasGrantOn(s, u, p, agency))
  }

  predicate HasGrantOn(s: State, u: User, p: Perm, agency: string) {
    exists id :: id in s.grants && IsTheirs(s, u, id) && s.grants[id].where == On(agency) && Carries(s, s.grants[id].role, p)
  }

  // ----- grants -----

  function WhereOf(agency: string, allScopes: bool): Where {
    if allScopes then Everywhere else On(agency)
  }

  function RowOf(i: GrantInput): Grant {
    Grant(i.group, i.role, WhereOf(i.agency, i.allScopes))
  }

  predicate ValidInput(s: State, i: GrantInput) {
    && i.group != "" && i.role in s.roles
    && i.allScopes != (i.agency != "")
    && (i.agency != "" ==> i.agency != GLOBAL && i.agency in s.agencies)
  }

  /** May this user write a grant of this role, there? */
  predicate Writable(s: State, u: User, role: string, where: Where) {
    || GlobalAdmin(s, u, ManageRoles)
    || (&& where.On? && CanAgency(s, u, ManageRoles, where.agency)
        && role in s.roles
        && forall p :: p in s.roles[role].perms ==> CanAgency(s, u, p, where.agency))
  }

  /** Is the grant's group one its agency's grants may name, for this user? */
  predicate GroupListed(s: State, u: User, group: string, where: Where) {
    GlobalAdmin(s, u, ManageRoles) || where.Everywhere? || (where.agency, group) in s.listed
  }

  predicate InContext(c: Context, agency: string) {
    c.Unnamed? || (c.readable && c.agency == if agency == "" then GLOBAL else agency)
  }

  /** The table's own rule: no two rows with the same group, role and reach. */
  predicate Taken(s: State, row: Grant, except: set<string>) {
    exists id :: id in s.grants && id !in except && s.grants[id] == row
  }

  function CreateGrant(s: State, u: User, id: string, i: GrantInput, c: Context): (State, Outcome) {
    if !CanAnywhere(s, u, ManageRoles) then (s, Forbidden)
    else if !ValidInput(s, i) then (s, Invalid)
    else if !InContext(c, i.agency) then (s, Mismatch)
    else
      var row := RowOf(i);
      if !Writable(s, u, row.role, row.where) then (s, Forbidden)
      else if !GroupListed(s, u, row.group, row.where) then (s, GroupNotListed)
      else if id in s.grants || Taken(s, row, {}) then (s, Conflict)
      else (s.(grants := s.grants[id := row]), Done)
  }

  function UpdateGrant(s: State, u: User, id: string, i: GrantInput): (State, Outcome) {
    if !CanAnywhere(s, u, ManageRoles) then (s, Forbidden)
    else if !ValidInput(s, i) then (s, Invalid)
    else if id !in s.grants then (s, NotFound)
    else
      var was, row := s.grants[id], RowOf(i);
      if !Writable(s, u, was.role, was.where) then (s, Forbidden)
      else if !GroupListed(s, u, was.group, was.where) then (s, GroupNotListed)
      else if !Writable(s, u, row.role, row.where) then (s, Forbidden)
      else if !GroupListed(s, u, row.group, row.where) then (s, GroupNotListed)
      else if Taken(s, row, {id}) then (s, Conflict)
      else (s.(grants := s.grants[id := row]), Done)
  }

  function DeleteGrant(s: State, u: User, id: string): (State, Outcome) {
    if !CanAnywhere(s, u, ManageRoles) then (s, Forbidden)
    else if id !in s.grants then (s, NotFound)
    else if !Writable(s, u, s.grants[id].role, s.grants[id].where) then (s, Forbidden)
    else (s.(grants := s.grants - {id}), Done)
  }

  // ----- roles -----

  predicate AnyOtherRoleManagesRoles(s: State, except: string) {
    exists n :: n in s.roles && n != except && ManageRoles in s.roles[n].perms
  }

  predicate InUse(s: State, role: string) {
    exists id :: id in s.grants && s.grants[id].role == role
  }

  function CreateRole(s: State, u: User, name: string, perms: set<Perm>): (State, Outcome) {
    if !CanAnywhere(s, u, ManageRoles) || !GlobalAdmin(s, u, ManageRoles) then (s, Forbidden)
    else if name == "" then (s, Invalid)
    else if name in s.roles then (s, Conflict)
    else (s.(roles := s.roles[name := Role(false, perms)]), Done)
  }

  function UpdateRole(s: State, u: User, name: string, perms: set<Perm>): (State, Outcome) {
    if !CanAnywhere(s, u, ManageRoles) || !GlobalAdmin(s, u, ManageRoles) then (s, Forbidden)
    else if name !in s.roles then (s, NotFound)
    else if name == ADMIN_ROLE && ManageRoles !in perms then (s, AdminLockout)
    else if ManageRoles !in perms && ManageRoles in s.roles[name].perms && !AnyOtherRoleManagesRoles(s, name) then (s, LastRoleLockout)
    else (s.(roles := s.roles[name := Role(s.roles[name].builtin, perms)]), Done)
  }

  function DeleteRole(s: State, u: User, name: string): (State, Outcome) {
    if !CanAnywhere(s, u, ManageRoles) || !GlobalAdmin(s, u, ManageRoles) then (s, Forbidden)
    else if name !in s.roles then (s, NotFound)
    else if s.roles[name].builtin then (s, Conflict)
    else if InUse(s, name) then (s, RoleInUse)
    else (s.(roles := s.roles - {name}), Done)
  }

  /** The groups an agency's grants may name. */
  function SetGroups(s: State, u: User, agency: string, groups: set<string>): (State, Outcome) {
    if !CanAnywhere(s, u, ManageRoles) || !GlobalAdmin(s, u, ManageRoles) then (s, Forbidden)
    else if agency == GLOBAL then (s, Invalid)
    else if agency !in s.agencies then (s, NotFound)
    else
      (s.(listed := (set l | l in s.listed && l.0 != agency) + (set g | g in groups && g != "" :: (agency, g))), Done)
  }

  // ----- runs -----

  datatype Op =
    | GrantCreated(id: string, input: GrantInput, context: Context)
    | GrantUpdated(id: string, input: GrantInput)
    | GrantDeleted(id: string)
    | RoleCreated(name: string, perms: set<Perm>)
    | RoleUpdated(name: string, perms: set<Perm>)
    | RoleDeleted(name: string)
    | GroupsSet(agency: string, groups: set<string>)

  datatype Move = Move(who: User, op: Op)

  function Apply(s: State, m: Move): (State, Outcome) {
    match m.op
    case GrantCreated(id, input, context) => CreateGrant(s, m.who, id, input, context)
    case GrantUpdated(id, input) => UpdateGrant(s, m.who, id, input)
    case GrantDeleted(id) => DeleteGrant(s, m.who, id)
    case RoleCreated(name, perms) => CreateRole(s, m.who, name, perms)
    case RoleUpdated(name, perms) => UpdateRole(s, m.who, name, perms)
    case RoleDeleted(name) => DeleteRole(s, m.who, name)
    case GroupsSet(agency, groups) => SetGroups(s, m.who, agency, groups)
  }

  function Run(s: State, moves: seq<Move>): State
    decreases |moves|
  {
    if moves == [] then s else Run(Apply(s, moves[0]).0, moves[1..])
  }
}
