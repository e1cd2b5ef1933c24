/** What every sequence of calendar operations keeps. */
module CalendarLaws {
  import opened Calendars
  import opened Options

  lemma EmptyIsGood(agencies: set<Agency>)
    ensures Good(Empty(agencies))
  {
  }

  /** A row's notice depends on the row and on its catalogue calendar only. */
  lemma WantedSame(rows: map<Uid, Row>, rows': map<Uid, Row>, u: Uid)
    requires u in rows && u in rows' && rows'[u] == rows[u]
    requires rows[u].origin.Some? ==>
               var o := rows[u].origin.value.uid;
               (o in rows <==> o in rows') && (o in rows ==> rows[o].owner == rows'[o].owner && rows[o].content == rows'[o].content)
    ensures Wanted(rows', u) == Wanted(rows, u)
  {
  }

  lemma SettleSettles(s: Store, uids: set<Uid>)
    requires SettledExcept(s, uids)
    ensures SettledExcept(Settle(s, uids), {})
  {
    var s' := Settle(s, uids);
    forall n | n in s'.notices ensures Wanted(s'.rows, n.uid) == Some(n.kind) {
      if n.uid in uids {
        assert n in WantedNotices(s.rows, n.uid) by {
          if n in s.notices { }
          var u :| u in uids && n in WantedNotices(s.rows, u);
        }
      }
    }
    forall u | u in s'.rows && Wanted(s'.rows, u).Some? ensures Notice(Wanted(s'.rows, u).value, u) in s'.notices {
      if u in uids {
        assert Notice(Wanted(s.rows, u).value, u) in WantedNotices(s.rows, u);
      }
    }
  }

  /** Settling more than is unsettled does no harm. */
  lemma ExceptMore(s: Store, some: set<Uid>, more: set<Uid>)
    requires SettledExcept(s, some) && some <= more
    ensures SettledExcept(s, more)
  {
  }

  // ----- the rows' own changes -----

  lemma OnlyCatalogueIsCopied(s: Store, uid: Uid)
    requires Linked(s) && uid in s.rows
    ensures s.rows[uid].owner != GLOBAL ==> CopiesOf(s.rows, uid) == {}
  {
    forall u | u in CopiesOf(s.rows, uid) ensures s.rows[uid].owner == GLOBAL {
      assert LinkedRow(s.rows, s.held, s.nextUid, s.rows[u]);
    }
  }

  /** A row that may be inserted: free of blocks, and if a copy, level with a catalogue
      calendar. */
  ghost predicate Insertable(s: Store, row: Row) {
    && !Taking(s.rows, row.owner, row.name)
    && !Blocked(s.entries, row.owner, row.name, row.content.global)
    && (row.origin.Some? ==>
          && row.owner != GLOBAL && !row.origin.value.gone
          && row.origin.value.uid in s.rows && s.rows[row.origin.value.uid].owner == GLOBAL
          && row.content == s.rows[row.origin.value.uid].content
          && row.origin.value.hash == ContentHash(row.content))
  }

  lemma InsertSettled(s: Store, row: Row)
    requires Good(s) && Insertable(s, row)
    ensures SettledExcept(Insert(s, row), {})
  {
    var s' := Insert(s, row);
    forall u | u in s.rows ensures Wanted(s'.rows, u) == Wanted(s.rows, u) {
      assert LinkedRow(s.rows, s.held, s.nextUid, s.rows[u]);
      WantedSame(s.rows, s'.rows, u);
    }
    assert Wanted(s'.rows, s.nextUid) == None;
    forall n | n in s'.notices ensures Wanted(s'.rows, n.uid) == Some(n.kind) {
      assert Wanted(s.rows, n.uid) == Some(n.kind);
    }
  }

  lemma InsertIsGood(s: Store, row: Row)
    requires Good(s) && Insertable(s, row)
    ensures Good(Insert(s, row))
  {
    var s' := Insert(s, row);
    forall u | u in s'.rows ensures LinkedRow(s'.rows, s'.held, s'.nextUid, s'.rows[u]) {
      if u != s.nextUid { assert LinkedRow(s.rows, s.held, s.nextUid, s.rows[u]); }
    }
    InsertSettled(s, row);
  }

  lemma SetContentSettles(s: Store, uid: Uid, c: Content)
    requires Good(s) && uid in s.rows && s.rows[uid].origin.None?
    ensures SettledExcept(SetContent(s, uid, c), CopiesOf(s.rows, uid))
  {
    var s' := SetContent(s, uid, c);
    forall u | u in s.rows && u !in CopiesOf(s.rows, uid) ensures Wanted(s'.rows, u) == Wanted(s.rows, u) {
      if u != uid { WantedSame(s.rows, s'.rows, u); }
    }
    forall n | n in s'.notices && n.uid !in CopiesOf(s.rows, uid) ensures Wanted(s'.rows, n.uid) == Some(n.kind) {
      assert Wanted(s.rows, n.uid) == Some(n.kind);
    }
  }

  /** A content write to a calendar that is no copy unsettles its copies only. */
  lemma SetContentLinks(s: Store, uid: Uid, c: Content)
    requires Good(s) && uid in s.rows && s.rows[uid].origin.None?
    requires !Blocked(s.entries, s.rows[uid].owner, s.rows[uid].name, c.global)
    ensures var s' := SetContent(s, uid, c);
            Linked(s') && Frozen(s') && SettledExcept(s', CopiesOf(s.rows, uid)) && CopiesOf(s'.rows, uid) == CopiesOf(s.rows, uid)
  {
    var s' := SetContent(s, uid, c);
    forall u | u in s'.rows ensures LinkedRow(s'.rows, s'.held, s'.nextUid, s'.rows[u]) {
      assert LinkedRow(s.rows, s.held, s.nextUid, s.rows[u]);
    }
    SetContentSettles(s, uid, c);
  }

  /** Copies that take their catalogue calendar's content unsettle only themselves. */
  lemma TakeLinks(s: Store, cat: Uid, copies: set<Uid>, except: set<Uid>)
    requires Linked(s) && Frozen(s) && SettledExcept(s, except)
    requires cat in s.rows && s.rows[cat].owner == GLOBAL
    requires forall u :: u in copies ==>
               u in s.rows && Live(s.rows[u]) && s.rows[u].origin.value.uid == cat
               && !Blocked(s.entries, s.rows[u].owner, s.rows[u].name, s.rows[cat].content.global)
    ensures var s' := Take(s, copies, s.rows[cat].content);
            Linked(s') && Frozen(s') && SettledExcept(s', except + copies)
  {
    var c := s.rows[cat].content;
    var s' := Take(s, copies, c);
    assert LinkedRow(s.rows, s.held, s.nextUid, s.rows[cat]);
    assert cat !in copies;
    forall u | u in s'.rows ensures LinkedRow(s'.rows, s'.held, s'.nextUid, s'.rows[u]) {
      assert LinkedRow(s.rows, s.held, s.nextUid, s.rows[u]);
    }
    forall u | u in s.rows && u !in copies ensures Wanted(s'.rows, u) == Wanted(s.rows, u) {
      assert LinkedRow(s.rows, s.held, s.nextUid, s.rows[u]);
      if s.rows[u].origin.Some? && s.rows[u].origin.value.uid in s.rows {
        var o := s.rows[u].origin.value.uid;
        assert LinkedRow(s.rows, s.held, s.nextUid, s.rows[o]);
        assert o !in copies;
      }
      WantedSame(s.rows, s'.rows, u);
    }
    forall n | n in s'.notices && n.uid !in except + copies ensures Wanted(s'.rows, n.uid) == Some(n.kind) {
      assert Wanted(s.rows, n.uid) == Some(n.kind);
    }
  }

  lemma RemoveLinks(s: Store, uid: Uid)
    requires Good(s) && uid in s.rows
    ensures var s' := Remove(s, uid);
            Linked(s') && Frozen(s')
            && SettledExcept(s', (if s.rows[uid].owner == GLOBAL then CopiesOf(s.rows, uid) else {}) + {uid})
  {
    var s' := Remove(s, uid);
    forall u | u in s'.rows ensures LinkedRow(s'.rows, s'.held, s'.nextUid, s'.rows[u]) {
      assert LinkedRow(s.rows, s.held, s.nextUid, s.rows[u]);
    }
    forall u | u in s'.rows && u !in CopiesOf(s.rows, uid) ensures Wanted(s'.rows, u) == Wanted(s.rows, u) {
      assert LinkedRow(s.rows, s.held, s.nextUid, s.rows[u]);
      if s.rows[u].origin.Some? && s.rows[u].origin.value.uid in s.rows {
        var o := s.rows[u].origin.value.uid;
        assert LinkedRow(s.rows, s.held, s.nextUid, s.rows[o]);
      }
      WantedSame(s.rows, s'.rows, u);
    }
    OnlyCatalogueIsCopied(s, uid);
    forall n | n in s'.notices && n.uid !in CopiesOf(s.rows, uid) + {uid} ensures Wanted(s'.rows, n.uid) == Some(n.kind) {
      assert Wanted(s.rows, n.uid) == Some(n.kind);
    }
  }

  /** Changing how a copy takes updates, or making it the agency's own, concerns
      that calendar alone. */
  lemma SetOriginLinks(s: Store, uid: Uid, origin: Option<Origin>)
    requires Good(s) && uid in s.rows && s.rows[uid].origin.Some?
    requires origin.Some? ==> origin.value == s.rows[uid].origin.value.(mode := origin.value.mode)
    ensures var s' := SetOrigin(s, uid, origin);
            Linked(s') && Frozen(s') && SettledExcept(s', {uid})
  {
    var s' := SetOrigin(s, uid, origin);
    assert LinkedRow(s.rows, s.held, s.nextUid, s.rows[uid]);
    forall u | u in s'.rows ensures LinkedRow(s'.rows, s'.held, s'.nextUid, s'.rows[u]) {
      assert LinkedRow(s.rows, s.held, s.nextUid, s.rows[u]);
    }
    forall u | u in s.rows && u != uid ensures Wanted(s'.rows, u) == Wanted(s.rows, u) {
      WantedSame(s.rows, s'.rows, u);
    }
    forall n | n in s'.notices && n.uid != uid ensures Wanted(s'.rows, n.uid) == Some(n.kind) {
      assert Wanted(s.rows, n.uid) == Some(n.kind);
    }
  }

  lemma SettleIsGood(s: Store, uids: set<Uid>)
    requires Linked(s) && Frozen(s) && SettledExcept(s, uids)
    ensures Good(Settle(s, uids))
  {
    SettleSettles(s, uids);
  }

  // ----- the handlers -----

  lemma SaveContentIsGood(s: Store, uid: Uid, c: Content)
    requires Good(s) && uid in s.rows && s.rows[uid].origin.None?
    requires !Blocked(s.entries, s.rows[uid].owner, s.rows[uid].name, c.global)
    ensures Good(SaveContent(s, uid, c))
  {
    var saved := SetContent(s, uid, c);
    var copies := CopiesOf(s.rows, uid);
    SetContentLinks(s, uid, c);
    if s.rows[uid].owner != GLOBAL {
      OnlyCatalogueIsCopied(s, uid);
    } else if s.rows[uid].content == c {
      assert saved.rows == s.rows;
    } else {
      var auto := Automatic(s, uid, c);
      assert uid !in auto;
      TakeLinks(saved, uid, auto, copies);
      assert copies + auto == copies;
      SettleIsGood(Take(saved, auto, c), copies);
    }
  }

  lemma {:induction false} InsertCopiesIsGood(s: Store, cat: Uid, name: Name, targets: seq<Agency>, c: Content, mode: Mode)
    requires Good(s) && cat in s.rows && s.rows[cat].owner == GLOBAL && s.rows[cat].content == c
    requires Distinct(targets)
    requires forall i :: 0 <= i < |targets| ==> CanAdd(s, targets[i], name, c.global)
    ensures Good(InsertCopies(s, cat, name, targets, c, mode))
    decreases |targets|
  {
    if targets != [] {
      var s1 := Insert(s, CopyRow(targets[0], name, cat, c, mode));
      assert CanAdd(s, targets[0], name, c.global);
      InsertIsGood(s, CopyRow(targets[0], name, cat, c, mode));
      forall i | 0 <= i < |targets[1..]| ensures CanAdd(s1, targets[1..][i], name, c.global) {
        assert CanAdd(s, targets[i + 1], name, c.global);
        assert targets[0] != targets[i + 1];
      }
      InsertCopiesIsGood(s1, cat, name, targets[1..], c, mode);
    }
  }

  lemma UpdateIsGood(s: Store, uid: Uid)
    requires Good(s)
    ensures Good(Update(s, uid).0)
  {
    if uid in s.rows {
      var row := s.rows[uid];
      assert LinkedRow(s.rows, s.held, s.nextUid, row);
      ExceptMore(s, {}, {uid});
      SettleIsGood(s, {uid});
      if LinkOf(s.rows, row) == Behind {
        var c := CatalogueOf(s.rows, row).value;
        if !Blocked(s.entries, row.owner, row.name, c.global) {
          TakeLinks(s, row.origin.value.uid, {uid}, {});
          assert {} + {uid} == {uid};
          SettleIsGood(Take(s, {uid}, c), {uid});
        }
      }
    }
  }

  lemma SetModeIsGood(s: Store, uid: Uid, mode: Mode)
    requires Good(s)
    ensures Good(SetMode(s, uid, mode).0)
  {
    if uid in s.rows {
      var row := s.rows[uid];
      var link := LinkOf(s.rows, row);
      assert LinkedRow(s.rows, s.held, s.nextUid, row);
      if link != Own && link != Gone {
        var c := CatalogueOf(s.rows, row).value;
        var set1 := SetOrigin(s, uid, Some(row.origin.value.(mode := mode)));
        SetOriginLinks(s, uid, Some(row.origin.value.(mode := mode)));
        SettleIsGood(set1, {uid});
        if mode == Auto && link == Behind && !Blocked(s.entries, row.owner, row.name, c.global) {
          assert row.origin.value.uid != uid;
          TakeLinks(set1, row.origin.value.uid, {uid}, {uid});
          assert {uid} + {uid} == {uid};
          SettleIsGood(Take(set1, {uid}, c), {uid});
        }
      }
    }
  }

  lemma PushIsGood(s: Store, cat: Uid, agencies: set<Agency>)
    requires Good(s)
    ensures Good(Push(s, cat, agencies).0)
  {
    if cat in s.rows && s.rows[cat].owner == GLOBAL {
      var copies := Pushed(s, cat, agencies);
      TakeLinks(s, cat, copies, {});
      assert {} + copies == copies;
      SettleIsGood(Take(s, copies, s.rows[cat].content), copies);
    }
  }

  lemma BindIsGood(s: Store, id: nat, agency: Agency, skip: set<Name>, only: set<Name>)
    requires Good(s)
    ensures Good(Bind(s, id, agency, skip, only).0)
  {
    var s' := Bind(s, id, agency, skip, only).0;
    forall u | u in s'.rows && s'.rows[u].content.global ensures !OnlyBound(s'.entries, s'.rows[u].owner, s'.rows[u].name) {
      assert !OnlyBound(s.entries, s.rows[u].owner, s.rows[u].name);
    }
  }

  lemma EntriesIsGood(s: Store, op: Op)
    requires Good(s) && (op.OpSetBinned? || op.OpUnbind?)
    ensures Good(Apply(s, op).0)
  {
    var s' := Apply(s, op).0;
    forall u | u in s'.rows && s'.rows[u].content.global ensures !OnlyBound(s'.entries, s'.rows[u].owner, s'.rows[u].name) {
      assert !OnlyBound(s.entries, s.rows[u].owner, s.rows[u].name);
    }
  }

  /** Every operation, accepted or refused, keeps the links true, no freeze
      calendar kept to as run-day, and the open notices exactly what the links
      call for. */
  lemma GoodStep(s: Store, op: Op)
    requires Good(s)
    ensures Good(Apply(s, op).0)
  {
    match op
    case OpCreate(owner, name, content) =>
      if Create(s, owner, name, content).1 == Done { InsertIsGood(s, Row(owner, name, content, None)); }
    case OpSave(uid, description, global, record) =>
      if Save(s, uid, description, global, record).1 == Done {
        SaveContentIsGood(s, uid, Content(description, global, record, s.rows[uid].content.days));
      }
    case OpReplaceDays(uid, days) =>
      if ReplaceDays(s, uid, days).1 == Done { SaveContentIsGood(s, uid, s.rows[uid].content.(days := days)); }
    case OpDelete(uid, force) =>
      if Delete(s, uid, force).1 == Done {
        RemoveLinks(s, uid);
        SettleIsGood(Remove(s, uid), (if s.rows[uid].owner == GLOBAL then CopiesOf(s.rows, uid) else {}) + {uid});
      }
    case OpAdd(cat, name, targets, mode) =>
      if Add(s, cat, name, targets, mode).1 == Done {
        InsertCopiesIsGood(s, cat, name, targets, s.rows[cat].content, mode);
      }
    case OpUpdate(uid) => UpdateIsGood(s, uid);
    case OpSetMode(uid, mode) => SetModeIsGood(s, uid, mode);
    case OpDetach(uid) =>
      if Detach(s, uid).1 == Done {
        SetOriginLinks(s, uid, None);
        SettleIsGood(SetOrigin(s, uid, None), {uid});
      }
    case OpPush(cat, agencies) => PushIsGood(s, cat, agencies);
    case OpBind(id, agency, skip, only) => BindIsGood(s, id, agency, skip, only);
    case OpSetBinned(_, _) => EntriesIsGood(s, op);
    case OpUnbind(_) => EntriesIsGood(s, op);
  }

  // ----- runs -----

  function RunAll(s: Store, ops: seq<Op>): Store
    decreases |ops|
  {
    if ops == [] then s else RunAll(Apply(s, ops[0]).0, ops[1..])
  }

  lemma {:induction false} GoodRun(s: Store, ops: seq<Op>)
    requires Good(s)
    ensures Good(RunAll(s, ops))
    decreases |ops|
  {
    if ops != [] {
      GoodStep(s, ops[0]);
      GoodRun(Apply(s, ops[0]).0, ops[1..]);
    }
  }

  ghost predicate Reachable(s: Store) {
    exists agencies, ops :: s == RunAll(Empty(agencies), ops)
  }

  lemma ReachableIsGood(s: Store)
    requires Reachable(s)
    ensures Good(s)
  {
    var agencies, ops :| s == RunAll(Empty(agencies), ops);
    EmptyIsGood(agencies);
    GoodRun(Empty(agencies), ops);
  }

  /** In every reachable state a copy holds exactly a content that its catalogue
      calendar once had, and its hash; its catalogue calendar, while there is one,
      is no copy itself; and it is up to date exactly when it holds the same. */
  lemma CopiesAreTrue(s: Store, u: Uid)
    requires Reachable(s) && u in s.rows && s.rows[u].origin.Some?
    ensures var o := s.rows[u].origin.value;
            && o.uid in s.held && s.rows[u].content in s.held[o.uid]
            && o.hash == ContentHash(s.rows[u].content)
            && (o.uid in s.rows ==> s.rows[o.uid].origin.None?)
            && (LinkOf(s.rows, s.rows[u]) == Gone <==> o.uid !in s.rows)
            && (LinkOf(s.rows, s.rows[u]) == UpToDate <==> o.uid in s.rows && s.rows[u].content == s.rows[o.uid].content)
  {
    ReachableIsGood(s);
    var row := s.rows[u];
    assert LinkedRow(s.rows, s.held, s.nextUid, row);
    var o := row.origin.value.uid;
    if o in s.rows {
      assert LinkedRow(s.rows, s.held, s.nextUid, s.rows[o]);
      DiffIsExact(row.content, s.rows[o].content);
    }
  }

  /** No reachable state has a freeze calendar that something of its agency keeps
      to as run-day, in the recycle bin or not. */
  lemma NoFreezeIsKeptTo(s: Store, u: Uid, e: nat)
    requires Reachable(s) && u in s.rows && s.rows[u].content.global
    requires e in s.entries && s.entries[e].agency == s.rows[u].owner
    ensures s.rows[u].name !in s.entries[e].only
  {
    ReachableIsGood(s);
    assert !OnlyBound(s.entries, s.rows[u].owner, s.rows[u].name);
  }

  /** In every reachable state the open notices are exactly those the links call
      for: one for a copy behind, one for a copy whose calendar is gone, no other. */
  lemma NoticesAreTheLinks(s: Store, n: Notice)
    requires Reachable(s)
    ensures n in s.notices <==>
              && n.uid in s.rows
              && LinkOf(s.rows, s.rows[n.uid]) == (if n.kind == UpdateAvailable then Behind else Gone)
  {
    ReachableIsGood(s);
    if n.uid in s.rows && Wanted(s.rows, n.uid) == Some(n.kind) {
      assert Notice(Wanted(s.rows, n.uid).value, n.uid) in s.notices;
    }
  }

  /** The three parts of a catalogue save. */
  function Level(s: Store, uid: Uid, next: Content): set<Uid> {
    set u | u in CopiesOf(s.rows, uid) && Live(s.rows[u]) && s.rows[u].content == next
  }

  /** The live copies of a catalogue calendar, split into three. */
  ghost predicate Splits(s: Store, uid: Uid, updated: set<Uid>, behind: set<Uid>, level: set<Uid>) {
    && updated + behind + level == (set u | u in CopiesOf(s.rows, uid) && Live(s.rows[u]))
    && updated !! behind && updated !! level && behind !! level
  }

  /** A save of a calendar that gave some copies its content and left others behind. */
  ghost predicate SavedTo(s: Store, s': Store, uid: Uid, next: Content, updated: set<Uid>, behind: set<Uid>) {
    && s'.rows.Keys == s.rows.Keys && uid in s'.rows && s'.rows[uid].content == next
    && (forall u :: u in CopiesOf(s.rows, uid) && Live(s.rows[u]) && u !in behind ==> s'.rows[u].content == next)
    && (forall u :: u in s.rows && u !in updated && u != uid ==> s'.rows[u] == s.rows[u])
    && (forall u :: u in behind ==> u in s.rows && s.rows[u].content != next && HeldBack(s, s.rows[u], next))
  }

  /** A copy left behind takes updates when asked, or a run-day binding holds it. */
  ghost predicate HeldBack(s: Store, row: Row, next: Content) {
    row.origin.Some? && (row.origin.value.mode == Auto ==> next.global && OnlyBound(s.entries, row.owner, row.name))
  }

  lemma LiveCopyIsLevelOrBehind(s: Store, uid: Uid, next: Content, u: Uid)
    requires Linked(s) && u in CopiesOf(s.rows, uid)
    ensures LinkAgainst(s.rows[u], Some(next)) == (if s.rows[u].content == next then UpToDate else Behind)
  {
    assert LinkedRow(s.rows, s.held, s.nextUid, s.rows[u]);
    DiffIsExact(s.rows[u].content, next);
  }

  lemma SaveSplits(s: Store, uid: Uid, next: Content)
    requires Linked(s)
    ensures Splits(s, uid, Automatic(s, uid, next), LeftBehind(s, uid, next), Level(s, uid, next))
  {
    forall u | u in CopiesOf(s.rows, uid)
      ensures LinkAgainst(s.rows[u], Some(next)) == (if s.rows[u].content == next then UpToDate else Behind)
    {
      LiveCopyIsLevelOrBehind(s, uid, next, u);
    }
  }

  lemma SaveSaves(s: Store, uid: Uid, next: Content)
    requires Linked(s) && uid in s.rows && s.rows[uid].owner == GLOBAL && s.rows[uid].content != next
    ensures SavedTo(s, SaveContent(s, uid, next), uid, next, Automatic(s, uid, next), LeftBehind(s, uid, next))
  {
    forall u | u in CopiesOf(s.rows, uid)
      ensures LinkAgainst(s.rows[u], Some(next)) == (if s.rows[u].content == next then UpToDate else Behind)
    {
      LiveCopyIsLevelOrBehind(s, uid, next, u);
    }
    assert LinkedRow(s.rows, s.held, s.nextUid, s.rows[uid]);
    assert uid !in CopiesOf(s.rows, uid);
    HeldBackIfBehind(s, uid, next);
  }

  lemma HeldBackIfBehind(s: Store, uid: Uid, next: Content)
    requires Linked(s)
    ensures forall u :: u in LeftBehind(s, uid, next) ==> u in s.rows && s.rows[u].content != next && HeldBack(s, s.rows[u], next)
  {
    forall u | u in CopiesOf(s.rows, uid)
      ensures LinkAgainst(s.rows[u], Some(next)) == (if s.rows[u].content == next then UpToDate else Behind)
    {
      LiveCopyIsLevelOrBehind(s, uid, next, u);
    }
  }

  /** A catalogue save that changes the content splits its live copies into those
      it updates, those it leaves behind and those already level. Afterwards each
      copy not behind holds the new content; each automatic one behind is held by
      a run-day binding of a freeze calendar; and no other content changed. */
  lemma SaveSplitsTheCopies(s: Store, uid: Uid, next: Content)
    requires Reachable(s) && uid in s.rows && s.rows[uid].owner == GLOBAL && s.rows[uid].content != next
    ensures Splits(s, uid, Automatic(s, uid, next), LeftBehind(s, uid, next), Level(s, uid, next))
    ensures SavedTo(s, SaveContent(s, uid, next), uid, next, Automatic(s, uid, next), LeftBehind(s, uid, next))
  {
    ReachableIsGood(s);
    SaveSplits(s, uid, next);
    SaveSaves(s, uid, next);
  }

  lemma UidsMoveOn(s: Store, op: Op)
    requires Good(s)
    ensures s.nextUid <= Apply(s, op).0.nextUid
    ensures forall u :: u in Apply(s, op).0.rows && u < s.nextUid ==> u in s.rows
  {
    if op.OpAdd? && Add(s, op.cat, op.name, op.targets, op.mode).1 == Done {
      InsertedAreNew(s, op.cat, op.name, op.targets, s.rows[op.cat].content, op.mode);
    }
  }

  lemma {:induction false} InsertedAreNew(s: Store, cat: Uid, name: Name, targets: seq<Agency>, c: Content, mode: Mode)
    ensures var s' := InsertCopies(s, cat, name, targets, c, mode);
            s.nextUid <= s'.nextUid && forall u :: u in s'.rows && u < s.nextUid ==> u in s.rows
    decreases |targets|
  {
    if targets != [] {
      InsertedAreNew(Insert(s, CopyRow(targets[0], name, cat, c, mode)), cat, name, targets[1..], c, mode);
    }
  }

  /** A deleted calendar never comes back: whatever is created after it, under its
      name or another, a copy that was left without it is never offered it again. */
  lemma {:induction false} GoneForGood(s: Store, ops: seq<Op>, cat: Uid)
    requires Good(s) && cat < s.nextUid && cat !in s.rows
    ensures var s' := RunAll(s, ops);
            && cat !in s'.rows
            && forall u :: u in CopiesOf(s'.rows, cat) ==> LinkOf(s'.rows, s'.rows[u]) == Gone
    decreases |ops|
  {
    if ops != [] {
      var s1 := Apply(s, ops[0]).0;
      GoodStep(s, ops[0]);
      UidsMoveOn(s, ops[0]);
      GoneForGood(s1, ops[1..], cat);
    }
  }

  /** A write that is refused changes no calendar and no binding. */
  lemma RefusedChangesNothing(s: Store, op: Op)
    requires Apply(s, op).1 in {Refused, NotFound, AsItIs}
    ensures Apply(s, op).0.rows == s.rows && Apply(s, op).0.entries == s.entries
  {
  }

  /** From s to s', a copy kept its content or took its catalogue calendar's. */
  ghost predicate Follows(s: Store, s': Store, u: Uid) {
    u in s.rows && u in s'.rows && s.rows[u].origin.Some? && s'.rows[u].content != s.rows[u].content ==>
      var o := s.rows[u].origin.value.uid;
      o in s'.rows && s'.rows[u].content == s'.rows[o].content && s'.rows[o].owner == GLOBAL
  }

  lemma UpdateFollows(s: Store, uid: Uid, u: Uid)
    requires Good(s)
    ensures Follows(s, Update(s, uid).0, u)
  {
    if uid in s.rows && s.rows[uid].origin.Some? && s.rows[uid].origin.value.uid in s.rows {
      assert LinkedRow(s.rows, s.held, s.nextUid, s.rows[uid]);
      assert LinkedRow(s.rows, s.held, s.nextUid, s.rows[s.rows[uid].origin.value.uid]);
    }
  }

  lemma SetModeFollows(s: Store, uid: Uid, mode: Mode, u: Uid)
    requires Good(s)
    ensures Follows(s, SetMode(s, uid, mode).0, u)
  {
    if uid in s.rows && s.rows[uid].origin.Some? && s.rows[uid].origin.value.uid in s.rows {
      assert LinkedRow(s.rows, s.held, s.nextUid, s.rows[uid]);
      assert LinkedRow(s.rows, s.held, s.nextUid, s.rows[s.rows[uid].origin.value.uid]);
    }
  }

  lemma PushFollows(s: Store, cat: Uid, agencies: set<Agency>, u: Uid)
    requires Good(s)
    ensures Follows(s, Push(s, cat, agencies).0, u)
  {
    if cat in s.rows { assert LinkedRow(s.rows, s.held, s.nextUid, s.rows[cat]); }
  }

  /** A copy's content changes only by taking its catalogue calendar's: no other
      write reaches it. */
  lemma CopiesAreReadOnly(s: Store, op: Op, u: Uid)
    requires Good(s) && u in s.rows && s.rows[u].origin.Some?
    ensures Follows(s, Apply(s, op).0, u)
  {
    match op
    case OpAdd(cat, name, targets, mode) =>
      if Add(s, cat, name, targets, mode).1 == Done {
        InsertedKeeps(s, cat, name, targets, s.rows[cat].content, mode, u);
      }
    case OpUpdate(uid) => UpdateFollows(s, uid, u);
    case OpSetMode(uid, mode) => SetModeFollows(s, uid, mode, u);
    case OpPush(cat, agencies) => PushFollows(s, cat, agencies, u);
    case OpSave(uid, description, global, record) => SaveFollows(s, uid, description, global, record, u);
    case OpReplaceDays(uid, days) => ReplaceDaysFollows(s, uid, days, u);
    case _ => OthersFollow(s, op, u);
  }

  lemma OthersFollow(s: Store, op: Op, u: Uid)
    requires Good(s) && u in s.rows
    requires op.OpCreate? || op.OpDelete? || op.OpDetach? || op.OpBind? || op.OpSetBinned? || op.OpUnbind?
    ensures Follows(s, Apply(s, op).0, u)
  {
  }

  lemma SaveFollows(s: Store, uid: Uid, description: string, global: bool, record: bool, u: Uid)
    requires Good(s) && u in s.rows && s.rows[u].origin.Some?
    ensures Follows(s, Save(s, uid, description, global, record).0, u)
  {
    if Save(s, uid, description, global, record).1 == Done {
      SavedKeeps(s, uid, Content(description, global, record, s.rows[uid].content.days), u);
    }
  }

  lemma ReplaceDaysFollows(s: Store, uid: Uid, days: map<string, string>, u: Uid)
    requires Good(s) && u in s.rows && s.rows[u].origin.Some?
    ensures Follows(s, ReplaceDays(s, uid, days).0, u)
  {
    if ReplaceDays(s, uid, days).1 == Done { SavedKeeps(s, uid, s.rows[uid].content.(days := days), u); }
  }

  lemma SavedKeeps(s: Store, uid: Uid, c: Content, u: Uid)
    requires Good(s) && uid in s.rows && s.rows[uid].origin.None? && u in s.rows && s.rows[u].origin.Some?
    ensures var s' := SaveContent(s, uid, c);
            s'.rows[u].content != s.rows[u].content ==>
              s.rows[u].origin.value.uid == uid && s'.rows[u].content == c && s'.rows[uid].content == c && s'.rows[uid].owner == GLOBAL
  {
  }

  lemma {:induction false} InsertedKeeps(s: Store, cat: Uid, name: Name, targets: seq<Agency>, c: Content, mode: Mode, u: Uid)
    requires u in s.rows && u < s.nextUid
    ensures var s' := InsertCopies(s, cat, name, targets, c, mode); u in s'.rows && s'.rows[u] == s.rows[u]
    decreases |targets|
  {
    if targets != [] {
      InsertedKeeps(Insert(s, CopyRow(targets[0], name, cat, c, mode)), cat, name, targets[1..], c, mode, u);
    }
  }
}
