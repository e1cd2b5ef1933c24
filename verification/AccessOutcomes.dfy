/** When each grant and role edit is done, and what it then stores, on the tables. */
module AccessOutcomes {
  import opened Access

  // ----- who can do what -----

  ghost predicate Gives(s: State, g: Grant, u: User, p: Perm) {
    g.group in u.groups && g.role in s.roles && p in s.roles[g.role].perms
  }

  /** On every agency: by a grant that says so, or by the break-glass group's role. */
  ghost predicate Everyplace(s: State, u: User, p: Perm) {
    || (u.bootstrap && "admin" in s.roles && p in s.roles["admin"].perms)
    || exists id :: id in s.grants && s.grants[id].where == Everywhere && Gives(s, s.grants[id], u, p)
  }

  ghost predicate Here(s: State, u: User, p: Perm, agency: string) {
    exists id :: id in s.grants && s.grants[id].where == On(agency) && Gives(s, s.grants[id], u, p)
  }

  /** A permission is held in an agency by a grant on that agency or on every one; nobody
      holds one in the built-in agency by a grant on it, nor in none. */
  lemma CanExactly(s: State, u: User, p: Perm, agency: string)
    ensures GlobalAdmin(s, u, p) <==> Everyplace(s, u, p)
    ensures CanAgency(s, u, p, agency) <==>
              if agency == "global" then Everyplace(s, u, p)
              else agency != "" && (Everyplace(s, u, p) || Here(s, u, p, agency))
    ensures CanAnywhere(s, u, p) <==> Everyplace(s, u, p) || exists a :: Here(s, u, p, a)
  {
    forall a ensures HasGrantOn(s, u, p, a) <==> Here(s, u, p, a) {
      if id :| id in s.grants && IsTheirs(s, u, id) && s.grants[id].where == On(a) && Carries(s, s.grants[id].role, p) {
        assert Gives(s, s.grants[id], u, p);
      }
      if id :| id in s.grants && s.grants[id].where == On(a) && Gives(s, s.grants[id], u, p) {
        assert IsTheirs(s, u, id);
      }
    }
    EveryplaceExactly(s, u, p);
    AnywhereExactly(s, u, p);
  }

  lemma EveryplaceExactly(s: State, u: User, p: Perm)
    ensures GlobalAdmin(s, u, p) <==> Everyplace(s, u, p)
  {
    if id :| id in s.grants && IsTheirs(s, u, id) && s.grants[id].where.Everywhere? && Carries(s, s.grants[id].role, p) {
      assert Gives(s, s.grants[id], u, p);
    }
    if id :| id in s.grants && s.grants[id].where == Everywhere && Gives(s, s.grants[id], u, p) {
      assert IsTheirs(s, u, id);
    }
  }

  lemma AnywhereExactly(s: State, u: User, p: Perm)
    ensures CanAnywhere(s, u, p) <==> Everyplace(s, u, p) || exists a :: Here(s, u, p, a)
  {
    if id :| id in s.grants && IsTheirs(s, u, id) && Carries(s, s.grants[id].role, p) {
      assert Gives(s, s.grants[id], u, p);
      if s.grants[id].where.On? { assert Here(s, u, p, s.grants[id].where.agency); }
    }
    if id :| id in s.grants && s.grants[id].where == Everywhere && Gives(s, s.grants[id], u, p) {
      assert IsTheirs(s, u, id);
    }
    if a, id :| id in s.grants && s.grants[id].where == On(a) && Gives(s, s.grants[id], u, p) {
      assert IsTheirs(s, u, id);
    }
  }

  // ----- grants -----

  /** The grant a request asks for: on one agency there is, or on every one. */
  ghost predicate Proper(s: State, i: GrantInput) {
    && i.group != "" && i.role in s.roles
    && if i.allScopes then i.agency == "" else i.agency != "" && i.agency != "global" && i.agency in s.agencies
  }

  ghost function Asked(i: GrantInput): Grant {
    Grant(i.group, i.role, if i.allScopes then Everywhere else On(i.agency))
  }

  /** Whoever asks, a grant that is made is the one asked for, in a row of its own, and
      nothing else is written. */
  lemma CreatedGrantIsAsked(s: State, u: User, id: string, i: GrantInput, c: Context)
    ensures var (s', o) := CreateGrant(s, u, id, i, c);
            if o == Done then
              && Proper(s, i) && id !in s.grants && (forall d :: d in s.grants ==> s.grants[d] != Asked(i))
              && s' == s.(grants := s.grants[id := Asked(i)])
            else s' == s
  {
  }

  /** A global administrator's is made unless it is improper, outside the agency the request
      works in, or there already. */
  lemma AdminCreatesGrant(s: State, u: User, id: string, i: GrantInput, c: Context)
    requires Everyplace(s, u, ManageRoles)
    ensures CreateGrant(s, u, id, i, c).1 ==
            if !Proper(s, i) then Invalid
            else if c.Working? && !(c.readable && c.agency == if i.agency == "" then "global" else i.agency) then Mismatch
            else if id in s.grants || (exists d :: d in s.grants && s.grants[d] == Asked(i)) then Conflict
            else Done
  {
    CanExactly(s, u, ManageRoles, "global");
    assert Taken(s, RowOf(i), {}) <==> exists d :: d in s.grants && s.grants[d] == RowOf(i);
  }

  lemma UpdatedGrantIsAsked(s: State, u: User, id: string, i: GrantInput)
    ensures var (s', o) := UpdateGrant(s, u, id, i);
            if o == Done then
              && Proper(s, i) && id in s.grants && (forall d :: d in s.grants && d != id ==> s.grants[d] != Asked(i))
              && s' == s.(grants := s.grants[id := Asked(i)])
            else s' == s
  {
  }

  lemma AdminUpdatesGrant(s: State, u: User, id: string, i: GrantInput)
    requires Everyplace(s, u, ManageRoles)
    ensures UpdateGrant(s, u, id, i).1 ==
            if !Proper(s, i) then Invalid
            else if id !in s.grants then NotFound
            else if exists d :: d in s.grants && d != id && s.grants[d] == Asked(i) then Conflict
            else Done
  {
    CanExactly(s, u, ManageRoles, "global");
    assert Taken(s, RowOf(i), {id}) <==> exists d :: d in s.grants && d != id && s.grants[d] == RowOf(i);
  }

  lemma DeletedGrantIsGone(s: State, u: User, id: string)
    ensures var (s', o) := DeleteGrant(s, u, id);
            && s' == (if o == Done then s.(grants := s.grants - {id}) else s)
            && (o == Done ==> id in s.grants)
    ensures Everyplace(s, u, ManageRoles) ==> DeleteGrant(s, u, id).1 == if id in s.grants then Done else NotFound
  {
    CanExactly(s, u, ManageRoles, "global");
  }

  // ----- delegates -----

  /** May give and take this role in this agency: who administers access there, and holds
      there all that the role carries. */
  ghost predicate Delegate(s: State, u: User, role: string, where: Where) {
    && where.On? && where.agency != "" && where.agency != "global" && Here(s, u, ManageRoles, where.agency)
    && role in s.roles && forall p :: p in s.roles[role].perms ==> Everyplace(s, u, p) || Here(s, u, p, where.agency)
  }

  lemma WritableExactly(s: State, u: User, role: string, where: Where)
    requires !Everyplace(s, u, ManageRoles)
    ensures Writable(s, u, role, where) <==> Delegate(s, u, role, where)
  {
    forall p, a ensures GlobalAdmin(s, u, p) <==> Everyplace(s, u, p)
                ensures CanAgency(s, u, p, a) <==>
                          if a == "global" then Everyplace(s, u, p) else a != "" && (Everyplace(s, u, p) || Here(s, u, p, a))
    {
      CanExactly(s, u, p, a);
    }
  }

  /** A delegate's grant is made when it is proper, in the agency the request works in,
      theirs to give, to a group the agency lists, and not there already; and the first of
      these that fails is the answer. Who administers access nowhere is refused before. */
  lemma DelegateCreatesGrant(s: State, u: User, id: string, i: GrantInput, c: Context)
    requires !Everyplace(s, u, ManageRoles)
    ensures CreateGrant(s, u, id, i, c).1 ==
            if !(exists a :: Here(s, u, ManageRoles, a)) then Forbidden
            else if !Proper(s, i) then Invalid
            else if c.Working? && !(c.readable && c.agency == if i.agency == "" then "global" else i.agency) then Mismatch
            else if !Delegate(s, u, i.role, Asked(i).where) then Forbidden
            else if (i.agency, i.group) !in s.listed then GroupNotListed
            else if id in s.grants || (exists d :: d in s.grants && s.grants[d] == Asked(i)) then Conflict
            else Done
  {
    CanExactly(s, u, ManageRoles, "global");
    WritableExactly(s, u, i.role, Asked(i).where);
    assert Taken(s, RowOf(i), {}) <==> exists d :: d in s.grants && s.grants[d] == RowOf(i);
  }

  /** A change is judged for the grant as it stands, and for what it is to become. */
  lemma DelegateUpdatesGrant(s: State, u: User, id: string, i: GrantInput)
    requires !Everyplace(s, u, ManageRoles) && id in s.grants
    ensures UpdateGrant(s, u, id, i).1 ==
            var was := s.grants[id];
            if !(exists a :: Here(s, u, ManageRoles, a)) then Forbidden
            else if !Proper(s, i) then Invalid
            else if !Delegate(s, u, was.role, was.where) then Forbidden
            else if (was.where.agency, was.group) !in s.listed then GroupNotListed
            else if !Delegate(s, u, i.role, Asked(i).where) then Forbidden
            else if (i.agency, i.group) !in s.listed then GroupNotListed
            else if exists d :: d in s.grants && d != id && s.grants[d] == Asked(i) then Conflict
            else Done
  {
    CanExactly(s, u, ManageRoles, "global");
    WritableExactly(s, u, s.grants[id].role, s.grants[id].where);
    WritableExactly(s, u, i.role, Asked(i).where);
    assert Taken(s, RowOf(i), {id}) <==> exists d :: d in s.grants && d != id && s.grants[d] == RowOf(i);
  }

  lemma DelegateDeletesGrant(s: State, u: User, id: string)
    requires !Everyplace(s, u, ManageRoles) && id in s.grants
    ensures DeleteGrant(s, u, id).1 == if Delegate(s, u, s.grants[id].role, s.grants[id].where) then Done else Forbidden
  {
    CanExactly(s, u, ManageRoles, "global");
    WritableExactly(s, u, s.grants[id].role, s.grants[id].where);
  }

  // ----- roles, and the groups an agency lists -----

  /** Roles are a global administrator's to write, and nobody else's. A new one has the
      permissions asked for and is not built in. */
  lemma CreatedRoleIsAsked(s: State, u: User, name: string, perms: set<Perm>)
    ensures var (s', o) := CreateRole(s, u, name, perms);
            && o == (if !Everyplace(s, u, ManageRoles) then Forbidden
                     else if name == "" then Invalid
                     else if name in s.roles then Conflict
                     else Done)
            && s' == if o == Done then s.(roles := s.roles[name := Role(false, perms)]) else s
  {
    CanExactly(s, u, ManageRoles, "global");
  }

  /** A role that is changed has the permissions asked for, and is built in as it was; the
      administrators' own may not lose that of managing roles, nor the last that has it. */
  lemma UpdatedRoleIsAsked(s: State, u: User, name: string, perms: set<Perm>)
    ensures var (s', o) := UpdateRole(s, u, name, perms);
            && o == (if !Everyplace(s, u, ManageRoles) then Forbidden
                     else if name !in s.roles then NotFound
                     else if name == "admin" && ManageRoles !in perms then AdminLockout
                     else if ManageRoles in s.roles[name].perms - perms
                             && (forall n :: n in s.roles && n != name ==> ManageRoles !in s.roles[n].perms) then LastRoleLockout
                     else Done)
            && s' == if o == Done then s.(roles := s.roles[name := Role(s.roles[name].builtin, perms)]) else s
  {
    CanExactly(s, u, ManageRoles, "global");
  }

  lemma DeletedRoleIsGone(s: State, u: User, name: string)
    ensures var (s', o) := DeleteRole(s, u, name);
            && o == (if !Everyplace(s, u, ManageRoles) then Forbidden
                     else if name !in s.roles then NotFound
                     else if s.roles[name].builtin then Conflict
                     else if exists id :: id in s.grants && s.grants[id].role == name then RoleInUse
                     else Done)
            && s' == if o == Done then s.(roles := s.roles - {name}) else s
  {
    CanExactly(s, u, ManageRoles, "global");
  }

  /** The groups an agency's grants may name become those given, blanks aside; the other
      agencies' stay. */
  lemma GroupsSetAreAsked(s: State, u: User, agency: string, groups: set<string>)
    ensures var (s', o) := SetGroups(s, u, agency, groups);
            && o == (if !Everyplace(s, u, ManageRoles) then Forbidden
                     else if agency == "global" then Invalid
                     else if agency !in s.agencies then NotFound
                     else Done)
            && s'.roles == s.roles && s'.grants == s.grants && s'.agencies == s.agencies
            && forall l :: l in s'.listed <==> if o == Done && l.0 == agency then l.1 in groups && l.1 != "" else l in s.listed
  {
    CanExactly(s, u, ManageRoles, "global");
  }
}
