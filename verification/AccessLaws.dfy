/** What no run of grant and role edits can break. */
module AccessLaws {
  import opened Access

  // ----- delegation does not escalate -----

  /** All a delegate can do to the grants: a row that changed was, and is now, on an
      agency they administer, and as it is now it gives nothing they do not hold
      there, to a group that agency lists. */
  ghost predicate Delegated(s: State, u: User, s': State) {
    && s'.roles == s.roles && s'.listed == s.listed && s'.agencies == s.agencies
    && forall id :: id in s.grants || id in s'.grants ==>
         || (id in s.grants && id in s'.grants && s.grants[id] == s'.grants[id])
         || (&& (id in s.grants ==> TheirsToWrite(s, u, s.grants[id]))
             && (id in s'.grants ==> TheirsToGive(s, u, s'.grants[id])))
  }

  ghost predicate TheirsToWrite(s: State, u: User, g: Grant) {
    && g.where.On? && g.where.agency != GLOBAL && CanAgency(s, u, ManageRoles, g.where.agency)
    && forall p :: Carries(s, g.role, p) ==> CanAgency(s, u, p, g.where.agency)
  }

  ghost predicate TheirsToGive(s: State, u: User, g: Grant) {
    TheirsToWrite(s, u, g) && (g.where.agency, g.group) in s.listed
  }

  /** Whatever a user who is no global access administrator asks for. */
  lemma DelegateStep(s: State, m: Move)
    requires !GlobalAdmin(s, m.who, ManageRoles)
    ensures Delegated(s, m.who, Apply(s, m).0)
  {
  }

  ghost predicate NoneGlobal(s: State, coalition: set<User>) {
    forall u :: u in coalition ==> !GlobalAdmin(s, u, ManageRoles)
  }

  /** What the coalition can do in an agency, put together. */
  function Power(s: State, coalition: set<User>, agency: string): set<Perm> {
    set u, p | u in coalition && p in PERMISSION_NAMES && CanAgency(s, u, p, agency) :: p
  }

  /** The grants on every agency. */
  function Unrestricted(s: State): map<string, Grant> {
    map id | id in s.grants && s.grants[id].where.Everywhere? :: s.grants[id]
  }

  lemma SameGlobal(s: State, u: User, s': State, v: User, p: Perm)
    requires Delegated(s, u, s')
    ensures GlobalAdmin(s', v, p) == GlobalAdmin(s, v, p)
  {
    if id :| id in s.grants && IsTheirs(s, v, id) && s.grants[id].where.Everywhere? && Carries(s, s.grants[id].role, p) {
      assert id in s'.grants && IsTheirs(s', v, id);
    }
    if id :| id in s'.grants && IsTheirs(s', v, id) && s'.grants[id].where.Everywhere? && Carries(s', s'.grants[id].role, p) {
      assert id in s.grants && IsTheirs(s, v, id);
    }
  }

  /** Who gains a permission by a delegate's step gains one the delegate holds there. */
  lemma GainIsTheirs(s: State, u: User, s': State, v: User, p: Perm, agency: string)
    requires Delegated(s, u, s') && CanAgency(s', v, p, agency)
    ensures CanAgency(s, v, p, agency) || CanAgency(s, u, p, agency)
  {
    SameGlobal(s, u, s', v, p);
    if !GlobalAdmin(s', v, p) {
      var id :| id in s'.grants && IsTheirs(s', v, id) && s'.grants[id].where == On(agency) && Carries(s', s'.grants[id].role, p);
      if id in s.grants && s.grants[id] == s'.grants[id] {
        assert IsTheirs(s, v, id);
      }
    }
  }

  /** Who loses one loses it where the delegate administers access. */
  lemma LossIsTheirs(s: State, u: User, s': State, v: User, p: Perm, agency: string)
    requires Delegated(s, u, s') && CanAgency(s, v, p, agency)
    ensures CanAgency(s', v, p, agency) || CanAgency(s, u, ManageRoles, agency)
  {
    SameGlobal(s, u, s', v, p);
    if !GlobalAdmin(s, v, p) {
      var id :| id in s.grants && IsTheirs(s, v, id) && s.grants[id].where == On(agency) && Carries(s, s.grants[id].role, p);
      if id in s'.grants && s.grants[id] == s'.grants[id] {
        assert IsTheirs(s', v, id);
      }
    }
  }

  /** One step of the coalition: together it can do no more than before, anywhere. */
  lemma StepOfCoalition(s: State, coalition: set<User>, m: Move)
    requires m.who in coalition && NoneGlobal(s, coalition)
    ensures var s' := Apply(s, m).0;
            && NoneGlobal(s', coalition)
            && s'.roles == s.roles && Unrestricted(s') == Unrestricted(s)
            && forall agency :: Power(s', coalition, agency) <= Power(s, coalition, agency)
  {
    DelegateStep(s, m);
    var s' := Apply(s, m).0;
    forall v | v in coalition ensures !GlobalAdmin(s', v, ManageRoles) {
      SameGlobal(s, m.who, s', v, ManageRoles);
    }
    forall agency, p | p in Power(s', coalition, agency) ensures p in Power(s, coalition, agency) {
      var v :| v in coalition && CanAgency(s', v, p, agency);
      GainIsTheirs(s, m.who, s', v, p, agency);
    }
  }

  ghost predicate By(coalition: set<User>, moves: seq<Move>) {
    forall i :: 0 <= i < |moves| ==> moves[i].who in coalition
  }

  /** Whatever a coalition without a global access administrator does, in whatever
      order: what it can do in any agency never grows, and no grant on every agency
      comes, goes or changes. */
  lemma {:induction false} CoalitionNeverGrows(s: State, coalition: set<User>, moves: seq<Move>)
    requires By(coalition, moves) && NoneGlobal(s, coalition)
    ensures var s' := Run(s, moves);
            && NoneGlobal(s', coalition)
            && s'.roles == s.roles && Unrestricted(s') == Unrestricted(s)
            && forall agency :: Power(s', coalition, agency) <= Power(s, coalition, agency)
    decreases |moves|
  {
    if moves != [] {
      var s1 := Apply(s, moves[0]).0;
      assert moves[0].who in coalition;
      StepOfCoalition(s, coalition, moves[0]);
      assert forall i :: 0 <= i < |moves[1..]| ==> moves[1..][i] == moves[i + 1];
      CoalitionNeverGrows(s1, coalition, moves[1..]);
      forall agency ensures Power(Run(s, moves), coalition, agency) <= Power(s, coalition, agency) {
        assert Power(s1, coalition, agency) <= Power(s, coalition, agency);
      }
    }
  }

  /** An agency none of the coalition administers access in is untouched: everyone
      can do there exactly what they could. */
  lemma {:induction false} OtherAgenciesUntouched(s: State, coalition: set<User>, moves: seq<Move>, v: User, p: Perm, agency: string)
    requires By(coalition, moves) && NoneGlobal(s, coalition)
    requires ManageRoles !in Power(s, coalition, agency)
    ensures CanAgency(Run(s, moves), v, p, agency) == CanAgency(s, v, p, agency)
    decreases |moves|
  {
    if moves != [] {
      var m := moves[0];
      var s1 := Apply(s, m).0;
      assert m.who in coalition;
      StepOfCoalition(s, coalition, m);
      DelegateStep(s, m);
      NamesEveryPerm(ManageRoles);
      assert !CanAgency(s, m.who, ManageRoles, agency);
      UntouchedByStep(s, m, v, p, agency);
      assert Power(s1, coalition, agency) <= Power(s, coalition, agency);
      assert forall i :: 0 <= i < |moves[1..]| ==> moves[1..][i] == moves[i + 1];
      OtherAgenciesUntouched(s1, coalition, moves[1..], v, p, agency);
    }
  }

  lemma UntouchedByStep(s: State, m: Move, v: User, p: Perm, agency: string)
    requires !GlobalAdmin(s, m.who, ManageRoles) && !CanAgency(s, m.who, ManageRoles, agency)
    ensures CanAgency(Apply(s, m).0, v, p, agency) == CanAgency(s, v, p, agency)
  {
    DelegateStep(s, m);
    var s' := Apply(s, m).0;
    SameGlobal(s, m.who, s', v, p);
    if HasGrantOn(s, v, p, agency) {
      var id :| id in s.grants && IsTheirs(s, v, id) && s.grants[id].where == On(agency) && Carries(s, s.grants[id].role, p);
      assert IsTheirs(s', v, id);
    }
    if HasGrantOn(s', v, p, agency) {
      var id :| id in s'.grants && IsTheirs(s', v, id) && s'.grants[id].where == On(agency) && Carries(s', s'.grants[id].role, p);
      assert IsTheirs(s, v, id);
    }
  }

  // ----- a group that is not listed -----

  /** What the coalition gave, it gave to groups their agencies list. */
  lemma {:induction false} GivenOnlyToListed(s: State, coalition: set<User>, moves: seq<Move>, id: string)
    requires By(coalition, moves) && NoneGlobal(s, coalition)
    requires id in Run(s, moves).grants
    ensures var g := Run(s, moves).grants[id];
            || (id in s.grants && s.grants[id] == g)
            || (g.where.On? && (g.where.agency, g.group) in s.listed)
    decreases |moves|
  {
    if moves != [] {
      assert moves[0].who in coalition;
      StepOfCoalition(s, coalition, moves[0]);
      DelegateStep(s, moves[0]);
      assert forall i :: 0 <= i < |moves[1..]| ==> moves[1..][i] == moves[i + 1];
      GivenOnlyToListed(Apply(s, moves[0]).0, coalition, moves[1..], id);
    }
  }

  /** A grant that names a group its agency does not list is its delegate's to
      delete and not to change, whatever it would become. */
  lemma UnlistedIsOnlyDeleted(s: State, u: User, id: string, input: GrantInput)
    requires !GlobalAdmin(s, u, ManageRoles) && id in s.grants && ValidInput(s, input)
    requires Writable(s, u, s.grants[id].role, s.grants[id].where)
    requires (s.grants[id].where.agency, s.grants[id].group) !in s.listed
    ensures UpdateGrant(s, u, id, input) == (s, GroupNotListed)
    ensures var (s', o) := DeleteGrant(s, u, id); o == Done && id !in s'.grants
  {
    var agency := s.grants[id].where.agency;
    if HasGrantOn(s, u, ManageRoles, agency) {
      var g :| g in s.grants && IsTheirs(s, u, g) && s.grants[g].where == On(agency) && Carries(s, s.grants[g].role, ManageRoles);
      assert CanAnywhere(s, u, ManageRoles);
    }
  }

  // ----- the tables stay sound -----

  /** Every grant names a role there is, and an agency there is; no two rows are the
      same; and the administrators' role is there, built in, and manages roles. */
  ghost predicate Sound(s: State) {
    && (forall id :: id in s.grants ==> s.grants[id].role in s.roles)
    && (forall id :: id in s.grants ==> s.grants[id].where.On? ==> s.grants[id].where.agency in s.agencies - {"", GLOBAL})
    && (forall id, d :: id in s.grants && d in s.grants && s.grants[id] == s.grants[d] ==> id == d)
    && ADMIN_ROLE in s.roles && s.roles[ADMIN_ROLE].builtin && ManageRoles in s.roles[ADMIN_ROLE].perms
  }

  lemma SoundStep(s: State, m: Move)
    requires Sound(s)
    ensures Sound(Apply(s, m).0)
  {
  }

  lemma {:induction false} SoundRun(s: State, moves: seq<Move>)
    requires Sound(s)
    ensures Sound(Run(s, moves))
    decreases |moves|
  {
    if moves != [] {
      SoundStep(s, moves[0]);
      SoundRun(Apply(s, moves[0]).0, moves[1..]);
    }
  }

  /** The floor above the administrators' own, that some role must keep managing
      roles, is never what refuses an edit. */
  lemma SecondFloorIsNeverReached(s: State, moves: seq<Move>, u: User, name: string, perms: set<Perm>)
    requires Sound(s)
    ensures UpdateRole(Run(s, moves), u, name, perms).1 != LastRoleLockout
  {
    SoundRun(s, moves);
    var s' := Run(s, moves);
    if name != ADMIN_ROLE {
      assert AnyOtherRoleManagesRoles(s', name);
    }
  }

  /** So a global administrator, or the break-glass group, stays able to give anyone
      any role back: the administrators' role still administers access. */
  lemma BreakGlassAlwaysWorks(s: State, moves: seq<Move>, u: User)
    requires Sound(s) && u.bootstrap
    ensures GlobalAdmin(Run(s, moves), u, ManageRoles)
  {
    SoundRun(s, moves);
  }
}
