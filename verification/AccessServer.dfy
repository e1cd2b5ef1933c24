/** The access handlers, over the roles, the grants and the agencies' group lists. */
module AccessServer {
  import opened Access

  class Server {
    var roles: map<string, Role>
    var grants: map<string, Grant>
    var agencies: set<string>
    var listed: set<(string, string)>

    function Abs(): State
      reads this
    {
      State(roles, grants, agencies, listed)
    }

    constructor (seed: State)
      ensures Abs() == seed
    {
      roles, grants, agencies, listed := seed.roles, seed.grants, seed.agencies, seed.listed;
    }

    method ValidateGrant(i: GrantInput) returns (ok: bool)
      ensures ok <==> ValidInput(Abs(), i)
    {
      if i.group == "" || i.role !in roles {
        return false;
      }
      if i.allScopes == (i.agency != "") {
        return false;
      }
      if i.agency != "" {
        if i.agency == GLOBAL || i.agency !in agencies {
          return false;
        }
      }
      return true;
    }

    /** The permissions the role carries, one by one, against what the user holds in
        that agency. */
    method RequireGrantWritable(u: User, role: string, agency: string, allScopes: bool) returns (ok: bool)
      ensures ok <==> Writable(Abs(), u, role, WhereOf(agency, allScopes))
    {
      if GlobalAdmin(Abs(), u, ManageRoles) {
        return true;
      }
      if allScopes {
        return false;
      }
      if agency == "" || !CanAgency(Abs(), u, ManageRoles, agency) {
        return false;
      }
      if role !in roles {
        return false;
      }
      var granted := roles[role].perms;
      for i := 0 to |PERMISSION_NAMES|
        invariant forall j :: 0 <= j < i && PERMISSION_NAMES[j] in granted ==> CanAgency(Abs(), u, PERMISSION_NAMES[j], agency)
      {
        var perm := PERMISSION_NAMES[i];
        if perm in granted && !CanAgency(Abs(), u, perm, agency) {
          return false;
        }
      }
      forall p | p in granted ensures CanAgency(Abs(), u, p, agency) {
        NamesEveryPerm(p);
      }
      return true;
    }

    method RequireGroupListed(u: User, group: string, agency: string, allScopes: bool) returns (ok: bool)
      ensures ok <==> GroupListed(Abs(), u, group, WhereOf(agency, allScopes))
    {
      if GlobalAdmin(Abs(), u, ManageRoles) || allScopes {
        return true;
      }
      return (agency, group) in listed;
    }

    method CreateGrant(u: User, id: string, i: GrantInput, c: Context) returns (o: Outcome)
      modifies this`grants
      ensures (Abs(), o) == Access.CreateGrant(old(Abs()), u, id, i, c)
    {
      if !CanAnywhere(Abs(), u, ManageRoles) {
        return Forbidden;
      }
      var valid := ValidateGrant(i);
      if !valid {
        return Invalid;
      }
      if !InContext(c, i.agency) {
        return Mismatch;
      }
      var writable := RequireGrantWritable(u, i.role, i.agency, i.allScopes);
      if !writable {
        return Forbidden;
      }
      var ok := RequireGroupListed(u, i.group, i.agency, i.allScopes);
      if !ok {
        return GroupNotListed;
      }
      var row := Grant(i.group, i.role, if i.agency != "" then On(i.agency) else Everywhere);
      if id in grants || Taken(Abs(), row, {}) {
        return Conflict;
      }
      grants := grants[id := row];
      return Done;
    }

    method UpdateGrant(u: User, id: string, i: GrantInput) returns (o: Outcome)
      modifies this`grants
      ensures (Abs(), o) == Access.UpdateGrant(old(Abs()), u, id, i)
    {
      if !CanAnywhere(Abs(), u, ManageRoles) {
        return Forbidden;
      }
      var valid := ValidateGrant(i);
      if !valid {
        return Invalid;
      }
      if id !in grants {
        return NotFound;
      }
      var was := grants[id];
      var wasAll := was.where.Everywhere?;
      var wasAgency := if wasAll then "" else was.where.agency;
      var writable := RequireGrantWritable(u, was.role, wasAgency, wasAll);
      if !writable {
        return Forbidden;
      }
      var ok := RequireGroupListed(u, was.group, wasAgency, wasAll);
      if !ok {
        return GroupNotListed;
      }
      writable := RequireGrantWritable(u, i.role, i.agency, i.allScopes);
      if !writable {
        return Forbidden;
      }
      ok := RequireGroupListed(u, i.group, i.agency, i.allScopes);
      if !ok {
        return GroupNotListed;
      }
      var row := Grant(i.group, i.role, if i.agency != "" then On(i.agency) else Everywhere);
      if Taken(Abs(), row, {id}) {
        return Conflict;
      }
      grants := grants[id := row];
      return Done;
    }

    method DeleteGrant(u: User, id: string) returns (o: Outcome)
      modifies this`grants
      ensures (Abs(), o) == Access.DeleteGrant(old(Abs()), u, id)
    {
      if !CanAnywhere(Abs(), u, ManageRoles) {
        return Forbidden;
      }
      if id !in grants {
        return NotFound;
      }
      var was := grants[id];
      var wasAll := was.where.Everywhere?;
      var writable := RequireGrantWritable(u, was.role, if wasAll then "" else was.where.agency, wasAll);
      if !writable {
        return Forbidden;
      }
      grants := grants - {id};
      return Done;
    }

    /** Some role other than the named one still manages roles. */
    method AnyOtherRoleManagesRoles(except: string) returns (found: bool)
      ensures found <==> Access.AnyOtherRoleManagesRoles(Abs(), except)
    {
      var names := roles.Keys;
      while names != {}
        invariant names <= roles.Keys
        invariant forall n :: n in roles && n !in names ==> n == except || ManageRoles !in roles[n].perms
        decreases |names|
      {
        var n :| n in names;
        if n != except && ManageRoles in roles[n].perms {
          return true;
        }
        names := names - {n};
      }
      return false;
    }

    method WriteRole(name: string, perms: set<Perm>, builtin: bool)
      modifies this`roles
      ensures roles == old(roles)[name := Role(builtin, perms)]
    {
      roles := roles[name := Role(builtin, perms)];
    }

    method CreateRole(u: User, name: string, perms: set<Perm>) returns (o: Outcome)
      modifies this`roles
      ensures (Abs(), o) == Access.CreateRole(old(Abs()), u, name, perms)
    {
      if !CanAnywhere(Abs(), u, ManageRoles) || !GlobalAdmin(Abs(), u, ManageRoles) {
        return Forbidden;
      }
      if name == "" {
        return Invalid;
      }
      if name in roles {
        return Conflict;
      }
      WriteRole(name, perms, false);
      return Done;
    }

    method UpdateRole(u: User, name: string, perms: set<Perm>) returns (o: Outcome)
      modifies this`roles
      ensures (Abs(), o) == Access.UpdateRole(old(Abs()), u, name, perms)
    {
      if !CanAnywhere(Abs(), u, ManageRoles) || !GlobalAdmin(Abs(), u, ManageRoles) {
        return Forbidden;
      }
      if name !in roles {
        return NotFound;
      }
      var existing := roles[name];
      if name == ADMIN_ROLE && ManageRoles !in perms {
        return AdminLockout;
      }
      if ManageRoles !in perms && ManageRoles in existing.perms {
        var other := AnyOtherRoleManagesRoles(name);
        if !other {
          return LastRoleLockout;
        }
      }
      WriteRole(name, perms, existing.builtin);
      return Done;
    }

    method DeleteRole(u: User, name: string) returns (o: Outcome)
      modifies this`roles
      ensures (Abs(), o) == Access.DeleteRole(old(Abs()), u, name)
    {
      if !CanAnywhere(Abs(), u, ManageRoles) || !GlobalAdmin(Abs(), u, ManageRoles) {
        return Forbidden;
      }
      if name !in roles {
        return NotFound;
      }
      if roles[name].builtin {
        return Conflict;
      }
      if InUse(Abs(), name) {
        return RoleInUse;
      }
      roles := roles - {name};
      return Done;
    }
  }
}
