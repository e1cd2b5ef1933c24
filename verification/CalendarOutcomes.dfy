/** When each calendar operation is done, and what it then writes, row by row. */
module CalendarOutcomes {
  import opened Calendars
  import opened CalendarLaws
  import opened Options

  // ----- the conditions, on the tables -----

  /** Something of the agency, in the recycle bin or not, keeps to the name as run-day. */
  ghost predicate KeepsTo(s: Store, owner: Agency, name: Name) {
    exists e :: e in s.entries && s.entries[e].agency == owner && name in s.entries[e].only
  }

  ghost predicate Uses(s: Store, owner: Agency, name: Name) {
    exists e :: e in s.entries && s.entries[e].agency == owner && (name in s.entries[e].only || name in s.entries[e].skip)
  }

  ghost predicate Has(s: Store, owner: Agency, name: Name) {
    exists u :: u in s.rows && s.rows[u].owner == owner && s.rows[u].name == name
  }

  /** A copy of that calendar, which is still offered. */
  ghost predicate LiveCopy(row: Row, cat: Uid) {
    row.origin.Some? && row.origin.value.uid == cat && !row.origin.value.gone
  }

  /** The row with another content, and the hash of it. */
  ghost function With(row: Row, c: Content): Row
    requires row.origin.Some?
  {
    Row(row.owner, row.name, c, Some(Origin(row.origin.value.uid, Hash(c), row.origin.value.mode, row.origin.value.gone)))
  }

  /** Content c may be given to this row: it is no freeze, or nothing keeps to it. */
  ghost predicate MayHold(s: Store, row: Row, c: Content) {
    c.global ==> !KeepsTo(s, row.owner, row.name)
  }

  /** In a linked store a copy is behind a content exactly when it holds another. */
  lemma BehindExactly(s: Store, cat: Uid, c: Content, u: Uid)
    requires Linked(s) && u in s.rows && s.rows[u].origin.Some? && s.rows[u].origin.value.uid == cat
    ensures LinkAgainst(s.rows[u], Some(c)) == (if s.rows[u].content == c then UpToDate else Behind)
  {
    LiveCopyIsLevelOrBehind(s, cat, c, u);
  }

  // ----- create, save, replace days, delete -----

  lemma CreateExactly(s: Store, owner: Agency, name: Name, c: Content)
    ensures var (s', o) := Create(s, owner, name, c);
            var ok := name != "catalogue" && owner in s.agencies && !Has(s, owner, name) && (c.global ==> !KeepsTo(s, owner, name));
            && o == (if ok then Done else Refused)
            && s'.rows == (if ok then s.rows[s.nextUid := Row(owner, name, c, None)] else s.rows)
            && s'.nextUid == (if ok then s.nextUid + 1 else s.nextUid)
            && s'.entries == s.entries && s'.notices == s.notices && s'.agencies == s.agencies
  {
    assert Taking(s.rows, owner, name) <==> Has(s, owner, name);
    assert OnlyBound(s.entries, owner, name) <==> KeepsTo(s, owner, name);
  }

  /** A catalogue save reaches the copies that take updates by themselves, hold something
      else, and may hold the new content. */
  ghost predicate Reaches(s: Store, uid: Uid, next: Content, u: Uid)
    requires uid in s.rows && u in s.rows
  {
    && s.rows[uid].owner == "global" && s.rows[uid].content != next
    && LiveCopy(s.rows[u], uid) && s.rows[u].origin.value.mode == Auto
    && s.rows[u].content != next && MayHold(s, s.rows[u], next)
  }

  /** The rows after a save: the calendar's own, those it reaches, and no other. */
  ghost predicate Saved(s: Store, s': Store, uid: Uid, next: Content)
    requires uid in s.rows
  {
    && s'.rows.Keys == s.rows.Keys && s'.entries == s.entries && s'.nextUid == s.nextUid
    && s'.rows[uid] == Row(s.rows[uid].owner, s.rows[uid].name, next, None)
    && forall u :: u in s.rows && u != uid ==> s'.rows[u] == if Reaches(s, uid, next, u) then With(s.rows[u], next) else s.rows[u]
  }

  lemma SavedExactly(s: Store, uid: Uid, next: Content)
    requires Linked(s) && uid in s.rows && s.rows[uid].origin.None?
    ensures Saved(s, SaveContent(s, uid, next), uid, next)
  {
    var s' := SaveContent(s, uid, next);
    forall u | u in s.rows && u != uid
      ensures s'.rows[u] == if Reaches(s, uid, next, u) then With(s.rows[u], next) else s.rows[u]
    {
      assert OnlyBound(s.entries, s.rows[u].owner, s.rows[u].name) <==> KeepsTo(s, s.rows[u].owner, s.rows[u].name);
      if s.rows[u].origin.Some? && s.rows[u].origin.value.uid == uid {
        BehindExactly(s, uid, next, u);
      }
    }
  }

  /** Saving is refused on a copy, and as a freeze calendar something keeps to; otherwise
      the calendar has the description, the freeze and the record asked for, and its days. */
  lemma SaveExactly(s: Store, uid: Uid, description: string, global: bool, record: bool)
    requires Linked(s)
    ensures var (s', o) := Save(s, uid, description, global, record);
            && (o == NotFound <==> uid !in s.rows) && o != AsItIs
            && (o == Done <==> uid in s.rows && s.rows[uid].origin.None? && (global ==> !KeepsTo(s, s.rows[uid].owner, s.rows[uid].name)))
            && (o == Done ==> Saved(s, s', uid, Content(description, global, record, s.rows[uid].content.days)))
            && (o != Done ==> s' == s)
  {
    if uid in s.rows {
      assert OnlyBound(s.entries, s.rows[uid].owner, s.rows[uid].name) <==> KeepsTo(s, s.rows[uid].owner, s.rows[uid].name);
      if s.rows[uid].origin.None? { SavedExactly(s, uid, Content(description, global, record, s.rows[uid].content.days)); }
    }
  }

  lemma ReplaceDaysExactly(s: Store, uid: Uid, days: map<string, string>)
    requires Linked(s)
    ensures var (s', o) := ReplaceDays(s, uid, days);
            && (o == NotFound <==> uid !in s.rows) && o != AsItIs
            && (o == Done <==> uid in s.rows && s.rows[uid].origin.None?)
            && (o == Done ==> var was := s.rows[uid].content;
                              Saved(s, s', uid, Content(was.description, was.global, was.recordSuppressed, days)))
            && (o != Done ==> s' == s)
  {
    if uid in s.rows && s.rows[uid].origin.None? { SavedExactly(s, uid, s.rows[uid].content.(days := days)); }
  }

  /** Deleting is refused while something uses the calendar, unless it is forced; it takes
      the one row, and of a catalogue calendar's copies the offer. */
  lemma DeleteExactly(s: Store, uid: Uid, force: bool)
    ensures var (s', o) := Delete(s, uid, force);
            && (o == NotFound <==> uid !in s.rows) && o != AsItIs
            && (o == Done <==> uid in s.rows && (force || !Uses(s, s.rows[uid].owner, s.rows[uid].name)))
            && (o == Done ==>
                  && s'.rows.Keys == s.rows.Keys - {uid} && s'.entries == s.entries && s'.nextUid == s.nextUid
                  && (forall u :: u in s'.rows ==>
                        s'.rows[u] == if s.rows[uid].owner == "global" && s.rows[u].origin.Some? && s.rows[u].origin.value.uid == uid
                                      then s.rows[u].(origin := Some(s.rows[u].origin.value.(gone := true))) else s.rows[u]))
            && (o != Done ==> s' == s)
  {
    if uid in s.rows {
      assert Bound(s.entries, s.rows[uid].owner, s.rows[uid].name) <==> Uses(s, s.rows[uid].owner, s.rows[uid].name);
    }
  }

  // ----- add, update, mode, detach, push -----

  ghost predicate MayAdd(s: Store, a: Agency, name: Name, c: Content) {
    a != "global" && a in s.agencies && !Has(s, a, name) && (c.global ==> !KeepsTo(s, a, name))
  }

  lemma CanAddExactly(s: Store, a: Agency, name: Name, c: Content)
    ensures CanAdd(s, a, name, c.global) <==> MayAdd(s, a, name, c)
  {
    assert Taking(s.rows, a, name) <==> Has(s, a, name);
    assert OnlyBound(s.entries, a, name) <==> KeepsTo(s, a, name);
  }

  lemma {:induction false} CopiesExactly(s: Store, cat: Uid, name: Name, targets: seq<Agency>, c: Content, mode: Mode)
    ensures var s' := InsertCopies(s, cat, name, targets, c, mode);
            && s'.nextUid == s.nextUid + |targets| && s'.entries == s.entries && s'.notices == s.notices
            && (forall u :: u in s'.rows <==> u in s.rows || s.nextUid <= u < s.nextUid + |targets|)
            && (forall u :: u in s.rows && u < s.nextUid ==> s'.rows[u] == s.rows[u])
            && (forall i :: 0 <= i < |targets| ==>
                  s'.rows[s.nextUid + i] == Row(targets[i], name, c, Some(Origin(cat, Hash(c), mode, false))))
    decreases |targets|
  {
    if targets != [] {
      var s1 := Insert(s, CopyRow(targets[0], name, cat, c, mode));
      CopiesExactly(s1, cat, name, targets[1..], c, mode);
      var s' := InsertCopies(s, cat, name, targets, c, mode);
      forall i | 0 <= i < |targets|
        ensures s'.rows[s.nextUid + i] == Row(targets[i], name, c, Some(Origin(cat, Hash(c), mode, false)))
      {
        if i > 0 {
          assert targets[1..][i - 1] == targets[i] && s1.nextUid + (i - 1) == s.nextUid + i;
        }
      }
    }
  }

  /** Adding gives each agency named, once, a copy with the catalogue's content; or, if any
      of them may not have it, none of them. */
  lemma AddExactly(s: Store, cat: Uid, name: Name, targets: seq<Agency>, mode: Mode)
    requires Linked(s)
    ensures var (s', o) := Add(s, cat, name, targets, mode);
            var there := cat in s.rows && s.rows[cat].owner == "global";
            && (o == NotFound <==> !there) && o != AsItIs
            && (o == Done <==>
                  && there && name != "catalogue" && (forall i, j :: 0 <= i < j < |targets| ==> targets[i] != targets[j])
                  && forall i :: 0 <= i < |targets| ==> MayAdd(s, targets[i], name, s.rows[cat].content))
            && (o == Done ==>
                  && s'.entries == s.entries && s'.notices == s.notices
                  && (forall u :: u in s'.rows <==> u in s.rows || s.nextUid <= u < s.nextUid + |targets|)
                  && (forall u :: u in s.rows ==> s'.rows[u] == s.rows[u])
                  && (forall i :: 0 <= i < |targets| ==>
                        s'.rows[s.nextUid + i] == Row(targets[i], name, s.rows[cat].content, Some(Origin(cat, Hash(s.rows[cat].content), mode, false)))))
            && (o != Done ==> s' == s)
  {
    if cat in s.rows && s.rows[cat].owner == GLOBAL {
      forall i | 0 <= i < |targets|
        ensures CanAdd(s, targets[i], name, s.rows[cat].content.global) <==> MayAdd(s, targets[i], name, s.rows[cat].content)
      {
        CanAddExactly(s, targets[i], name, s.rows[cat].content);
      }
      CopiesExactly(s, cat, name, targets, s.rows[cat].content, mode);
    }
  }

  /** A copy whose catalogue calendar is there; and in a linked store that is what a link
      that is no longer offered lacks. */
  ghost predicate Offered(s: Store, uid: Uid) {
    uid in s.rows && s.rows[uid].origin.Some? && s.rows[uid].origin.value.uid in s.rows
  }

  lemma LinkExactly(s: Store, uid: Uid)
    requires Linked(s) && uid in s.rows
    ensures LinkOf(s.rows, s.rows[uid]) ==
            if s.rows[uid].origin.None? then Own
            else if !Offered(s, uid) then Gone
            else if s.rows[uid].content == s.rows[s.rows[uid].origin.value.uid].content then UpToDate
            else Behind
    ensures Offered(s, uid) ==> CatalogueOf(s.rows, s.rows[uid]) == Some(s.rows[s.rows[uid].origin.value.uid].content)
    ensures Offered(s, uid) ==> LiveCopy(s.rows[uid], s.rows[uid].origin.value.uid) && s.rows[uid].origin.value.uid != uid
  {
    assert LinkedRow(s.rows, s.held, s.nextUid, s.rows[uid]);
    if Offered(s, uid) {
      BehindExactly(s, s.rows[uid].origin.value.uid, s.rows[s.rows[uid].origin.value.uid].content, uid);
    }
  }

  /** Updating gives a copy that is behind, and may hold it, what its catalogue calendar
      holds, and changes no other row. */
  lemma UpdateExactly(s: Store, uid: Uid)
    requires Linked(s)
    ensures var (s', o) := Update(s, uid);
            && (o == NotFound <==> uid !in s.rows)
            && (o == AsItIs <==> Offered(s, uid) && s.rows[uid].content == s.rows[s.rows[uid].origin.value.uid].content)
            && (o == Done <==>
                  && Offered(s, uid) && s.rows[uid].content != s.rows[s.rows[uid].origin.value.uid].content
                  && MayHold(s, s.rows[uid], s.rows[s.rows[uid].origin.value.uid].content))
            && s'.entries == s.entries
            && s'.rows == if o == Done then s.rows[uid := With(s.rows[uid], s.rows[s.rows[uid].origin.value.uid].content)] else s.rows
  {
    if uid in s.rows {
      LinkExactly(s, uid);
      assert OnlyBound(s.entries, s.rows[uid].owner, s.rows[uid].name) <==> KeepsTo(s, s.rows[uid].owner, s.rows[uid].name);
    }
  }

  /** How a copy takes updates is set while it is offered any; made automatic it takes what
      it is behind, if it may hold it. No other row changes. */
  lemma SetModeExactly(s: Store, uid: Uid, mode: Mode)
    requires Linked(s)
    ensures var (s', o) := SetMode(s, uid, mode);
            && (o == NotFound <==> uid !in s.rows) && (o == Done <==> Offered(s, uid)) && o != AsItIs
            && s'.entries == s.entries
            && (o == Done ==>
                  var row := s.rows[uid].(origin := Some(s.rows[uid].origin.value.(mode := mode)));
                  var c := s.rows[row.origin.value.uid].content;
                  s'.rows == s.rows[uid := if mode == Auto && row.content != c && MayHold(s, row, c) then With(row, c) else row])
            && (o != Done ==> s' == s)
  {
    if uid in s.rows {
      LinkExactly(s, uid);
      assert OnlyBound(s.entries, s.rows[uid].owner, s.rows[uid].name) <==> KeepsTo(s, s.rows[uid].owner, s.rows[uid].name);
    }
  }

  /** Detaching makes a copy the agency's own, with what it holds. */
  lemma DetachExactly(s: Store, uid: Uid)
    ensures var (s', o) := Detach(s, uid);
            && (o == NotFound <==> uid !in s.rows) && (o == Done <==> uid in s.rows && s.rows[uid].origin.Some?) && o != AsItIs
            && s'.entries == s.entries
            && (o == Done ==> s'.rows == s.rows[uid := Row(s.rows[uid].owner, s.rows[uid].name, s.rows[uid].content, None)]
                              && forall n :: n in s'.notices ==> n.uid != uid)
            && (o != Done ==> s' == s)
  {
    if Detach(s, uid).1 == Done {
      var s1 := SetOrigin(s, uid, None);
      forall n | n in Settle(s1, {uid}).notices ensures n.uid != uid {
        assert forall v :: n in WantedNotices(s1.rows, v) ==> n.uid == v;
      }
    }
  }

  /** A push reaches the copies of the agencies it names, and no other: afterwards every
      live copy of theirs holds the catalogue's content, unless that is a freeze something
      of its agency keeps to; and a row that changed was one of them. */
  lemma PushExactly(s: Store, cat: Uid, agencies: set<Agency>)
    requires Linked(s)
    ensures var (s', o) := Push(s, cat, agencies);
            var there := cat in s.rows && s.rows[cat].owner == "global";
            && o == (if there then Done else NotFound) && (!there ==> s' == s)
            && s'.rows.Keys == s.rows.Keys && s'.entries == s.entries && s'.nextUid == s.nextUid
    ensures var (s', o) := Push(s, cat, agencies);
            o == Done ==> forall u :: u in s.rows ==>
              s'.rows[u] == if LiveCopy(s.rows[u], cat) && s.rows[u].owner in agencies && MayHold(s, s.rows[u], s.rows[cat].content)
                            then With(s.rows[u], s.rows[cat].content) else s.rows[u]
  {
    if cat in s.rows && s.rows[cat].owner == GLOBAL {
      var c, s' := s.rows[cat].content, Push(s, cat, agencies).0;
      forall u | u in s.rows
        ensures s'.rows[u] == if LiveCopy(s.rows[u], cat) && s.rows[u].owner in agencies && MayHold(s, s.rows[u], c)
                              then With(s.rows[u], c) else s.rows[u]
      {
        assert OnlyBound(s.entries, s.rows[u].owner, s.rows[u].name) <==> KeepsTo(s, s.rows[u].owner, s.rows[u].name);
        assert LinkedRow(s.rows, s.held, s.nextUid, s.rows[u]);
        if s.rows[u].origin.Some? && s.rows[u].origin.value.uid == cat {
          BehindExactly(s, cat, c, u);
        }
      }
    }
  }

  // ----- bindings -----

  /** A binding is written if every name is a calendar of its agency, none is in both
      roles, and none kept to is a freeze. */
  lemma BindExactly(s: Store, id: nat, agency: Agency, skip: set<Name>, only: set<Name>)
    ensures var (s', o) := Bind(s, id, agency, skip, only);
            && (o == Done <==>
                  && (forall n :: n in skip ==> n !in only)
                  && (forall n :: n in skip || n in only ==> Has(s, agency, n))
                  && (forall u :: u in s.rows && s.rows[u].owner == agency && s.rows[u].name in only ==> !s.rows[u].content.global))
            && s' == if o == Done then s.(entries := s.entries[id := Entry(agency, skip, only, false)]) else s
  {
    forall n ensures Taking(s.rows, agency, n) <==> Has(s, agency, n) {
    }
    assert skip !! only <==> forall n :: n in skip ==> n !in only;
  }
}
