/** The calendar handlers as the server runs them, over its tables: each is shown
    to be the step of the same name. */
module CalendarServer {
  import opened Calendars
  import opened Options

  datatype DayInput = DayInput(day: string, note: string)

  /** The agencies a request names: blanks dropped, repeats once, in order. */
  function Dedup(ids: seq<Agency>): (r: seq<Agency>)
    ensures Distinct(r)
    ensures forall a :: a in r <==> a in ids && a != ""
    decreases |ids|
  {
    if ids == [] then []
    else
      var r := Dedup(ids[..|ids| - 1]);
      var a := ids[|ids| - 1];
      assert ids == ids[..|ids| - 1] + [a];
      if a == "" || a in r then r else r + [a]
  }

  /** A day list made a calendar's days: every day must be real, a repeated one
      keeps its first label. */
  method NormalizeDays(days: seq<DayInput>, valid: string -> bool) returns (out: Option<map<string, string>>)
    ensures out.None? <==> exists i :: 0 <= i < |days| && !valid(days[i].day)
    ensures out.Some? ==> out.value.Keys == set i | 0 <= i < |days| :: days[i].day
    ensures out.Some? ==> forall i :: 0 <= i < |days| && (forall j :: 0 <= j < i ==> days[j].day != days[i].day)
                            ==> days[i].day in out.value && out.value[days[i].day] == days[i].note
  {
    var seen: map<string, string> := map[];
    var i := 0;
    while i < |days|
      invariant 0 <= i <= |days|
      invariant forall k :: 0 <= k < i ==> valid(days[k].day)
      invariant seen.Keys == set k | 0 <= k < i :: days[k].day
      invariant forall k :: 0 <= k < i && (forall j :: 0 <= j < k ==> days[j].day != days[k].day)
                  ==> days[k].day in seen && seen[days[k].day] == days[k].note
    {
      if !valid(days[i].day) {
        return None;
      }
      if days[i].day !in seen {
        seen := seen[days[i].day := days[i].note];
      }
      i := i + 1;
    }
    return Some(seen);
  }

  class Server {
    const agencies: set<Agency>
    var rows: map<Uid, Row>
    var entries: map<nat, Entry>
    var notices: set<Notice>
    var nextUid: Uid
    ghost var held: map<Uid, set<Content>>

    constructor (agencies: set<Agency>)
      ensures Abs() == Empty(agencies)
    {
      this.agencies := agencies;
      rows, entries, notices, nextUid, held := map[], map[], {}, 0, map[];
    }

    ghost function Abs(): Store
      reads this
    {
      Store(agencies, rows, entries, notices, nextUid, held)
    }

    method InsertRow(row: Row) returns (uid: Uid)
      modifies this`rows, this`nextUid, this`held
      ensures Abs() == Insert(old(Abs()), row) && uid == old(nextUid)
    {
      uid := nextUid;
      rows := rows[uid := row];
      nextUid := nextUid + 1;
      if row.owner == GLOBAL {
        held := held[uid := {row.content}];
      }
    }

    method WriteContent(uid: Uid, c: Content)
      requires uid in rows
      modifies this`rows, this`held
      ensures Abs() == SetContent(old(Abs()), uid, c)
    {
      rows := rows[uid := rows[uid].(content := c)];
      if rows[uid].owner == GLOBAL {
        held := held[uid := (if uid in held then held[uid] else {}) + {c}];
      }
    }

    /** Writes the catalogue's content into a copy, while it is still one. */
    method ApplyFrom(copy: Uid, from: Uid, c: Content) returns (applied: bool)
      modifies this`rows
      ensures applied <==> copy in old(rows) && Live(old(rows)[copy]) && old(rows)[copy].origin.value.uid == from
      ensures rows == if applied then old(rows)[copy := Taken(old(rows)[copy], c)] else old(rows)
    {
      if copy !in rows || rows[copy].origin.None? || rows[copy].origin.value.uid != from || rows[copy].origin.value.gone {
        return false;
      }
      var row := rows[copy];
      rows := rows[copy := row.(content := c, origin := Some(row.origin.value.(hash := ContentHash(c))))];
      return true;
    }

    /** Updates the automatic copies of a saved catalogue calendar, judged on the
        rows as they were before the save, and lists those it leaves behind. */
    method PropagateCatalogue(view: map<Uid, Row>, uid: Uid, next: Content)
      returns (changed: bool, updated: set<Uid>, behind: set<Uid>, all: set<Uid>)
      requires uid in view && view[uid].origin.None?
      requires rows == view[uid := view[uid].(content := next)]
      modifies this`rows
      ensures changed <==> view[uid].content != next
      ensures !changed ==> rows == old(rows) && all == {}
      ensures changed ==> all == CopiesOf(view, uid)
      ensures changed ==> updated == Automatic(old(Abs()).(rows := view), uid, next)
      ensures changed ==> behind == LeftBehind(old(Abs()).(rows := view), uid, next)
      ensures changed ==> rows == Take(old(Abs()), updated, next).rows
    {
      updated, behind, all := {}, {}, {};
      if ContentHash(view[uid].content) == ContentHash(next) {
        return false, updated, behind, all;
      }
      ghost var s := old(Abs()).(rows := view);
      ghost var saved := rows;
      var copies := CopiesOf(view, uid);
      var left := copies;
      while left != {}
        invariant left <= copies && all == copies - left
        invariant updated == Automatic(s, uid, next) * all
        invariant behind == LeftBehind(s, uid, next) * all
        invariant rows.Keys == saved.Keys
        invariant forall u :: u in rows ==> rows[u] == if u in updated then Taken(saved[u], next) else saved[u]
      {
        var cp :| cp in left;
        left := left - {cp};
        all := all + {cp};
        if !view[cp].origin.value.gone && LinkAgainst(view[cp], Some(next)) == Behind {
          var blocked := IsBlocked(view[cp].owner, view[cp].name, next.global);
          if view[cp].origin.value.mode != Auto || blocked {
            behind := behind + {cp};
          } else {
            var applied := ApplyFrom(cp, uid, next);
            assert applied;
            updated := updated + {cp};
          }
        }
      }
      assert all == copies;
      assert rows == Take(old(Abs()), updated, next).rows;
      changed := true;
    }

    method IsBlocked(owner: Agency, name: Name, global: bool) returns (b: bool)
      ensures b <==> Blocked(entries, owner, name, global)
    {
      if !global {
        return false;
      }
      return exists e :: e in entries && entries[e].agency == owner && name in entries[e].only;
    }

    /** Brings the notices of the named calendars to their links as they are. */
    method SettleCopyNotices(uids: set<Uid>)
      modifies this`notices
      ensures Abs() == Settle(old(Abs()), uids)
    {
      ghost var n0 := notices;
      var left := uids;
      while left != {}
        invariant left <= uids
        invariant forall n :: n in notices <==>
                    if n.uid in uids - left then n in WantedNotices(rows, n.uid) else n in n0
      {
        var uid :| uid in left;
        left := left - {uid};
        SettleOne(uid);
      }
      assert uids - left == uids;
      forall n ensures n in notices <==> n in Settle(old(Abs()), uids).notices {
        assert forall u :: n in WantedNotices(rows, u) ==> u == n.uid;
      }
    }

    method SettleOne(uid: Uid)
      modifies this`notices
      ensures forall n :: n in notices <==> if n.uid == uid then n in WantedNotices(rows, uid) else n in old(notices)
    {
      match Wanted(rows, uid) {
        case Some(UpdateAvailable) =>
          notices := notices + {Notice(UpdateAvailable, uid)};
          notices := notices - {Notice(NoLongerOffered, uid)};
        case Some(NoLongerOffered) =>
          notices := notices + {Notice(NoLongerOffered, uid)};
          notices := notices - {Notice(UpdateAvailable, uid)};
        case None =>
          notices := notices - {Notice(UpdateAvailable, uid)};
          notices := notices - {Notice(NoLongerOffered, uid)};
      }
      forall n: Notice | n.uid == uid ensures n in notices <==> n in WantedNotices(rows, uid) {
        assert n.kind.UpdateAvailable? || n.kind.NoLongerOffered?;
        assert n == Notice(n.kind, uid);
      }
    }

    method HasName(owner: Agency, name: Name) returns (b: bool)
      ensures b <==> Taking(rows, owner, name)
    {
      b := exists u :: u in rows && rows[u].owner == owner && rows[u].name == name;
    }

    method CreateCalendar(owner: Agency, name: Name, c: Content) returns (out: Outcome)
      modifies this
      ensures (Abs(), out) == Create(old(Abs()), owner, name, c)
    {
      if name == RESERVED || owner !in agencies {
        return Refused;
      }
      var exists_ := HasName(owner, name);
      if exists_ {
        return Refused;
      }
      var blocked := IsBlocked(owner, name, c.global);
      if blocked {
        return Refused;
      }
      var _ := InsertRow(Row(owner, name, c, None));
      return Done;
    }

    /** The save behind an update of metadata and a replacement of days. */
    method SaveRow(uid: Uid, c: Content)
      requires uid in rows && rows[uid].origin.None?
      modifies this
      ensures Abs() == SaveContent(old(Abs()), uid, c)
    {
      var view := rows;
      WriteContent(uid, c);
      if view[uid].owner == GLOBAL {
        ghost var saved := Abs();
        var changed, updated, behind, all := PropagateCatalogue(view, uid, c);
        if changed {
          assert Abs() == Take(saved, updated, c);
          assert updated == Automatic(old(Abs()), uid, c);
          SettleCopyNotices(all);
        }
      }
    }

    method UpdateCalendar(uid: Uid, description: string, global: bool, record: bool) returns (out: Outcome)
      modifies this
      ensures (Abs(), out) == Save(old(Abs()), uid, description, global, record)
    {
      if uid !in rows {
        return NotFound;
      }
      var row := rows[uid];
      if row.origin.Some? {
        return Refused;
      }
      var blocked := IsBlocked(row.owner, row.name, global);
      if blocked {
        return Refused;
      }
      SaveRow(uid, Content(description, global, record, row.content.days));
      return Done;
    }

    method ReplaceCalendarDays(uid: Uid, days: map<string, string>) returns (out: Outcome)
      modifies this
      ensures (Abs(), out) == ReplaceDays(old(Abs()), uid, days)
    {
      if uid !in rows {
        return NotFound;
      }
      if rows[uid].origin.Some? {
        return Refused;
      }
      SaveRow(uid, rows[uid].content.(days := days));
      return Done;
    }

    method DeleteCalendar(uid: Uid, force: bool) returns (out: Outcome)
      modifies this
      ensures (Abs(), out) == Delete(old(Abs()), uid, force)
    {
      if uid !in rows {
        return NotFound;
      }
      var owner, name := rows[uid].owner, rows[uid].name;
      var used := exists e :: e in entries && entries[e].agency == owner && (name in entries[e].only || name in entries[e].skip);
      if used && !force {
        return Refused;
      }
      var copies := if owner == GLOBAL then CopiesOf(rows, uid) else {};
      rows := map u | u in rows && u != uid :: if u in copies then MarkGone(rows[u]) else rows[u];
      SettleCopyNotices(copies + {uid});
      return Done;
    }

    /** Add from the catalogue: judged for every agency before any copy is made. */
    method AddFromCentral(cat: Uid, name: Name, ids: seq<Agency>, mode: Mode) returns (out: Outcome)
      modifies this
      ensures (Abs(), out) == Add(old(Abs()), cat, name, Dedup(ids), mode)
    {
      if cat !in rows || rows[cat].owner != GLOBAL {
        return NotFound;
      }
      var c := rows[cat].content;
      if name == RESERVED {
        return Refused;
      }
      var targets := Dedup(ids);
      for i := 0 to |targets|
        invariant Abs() == old(Abs())
        invariant forall k :: 0 <= k < i ==> CanAdd(Abs(), targets[k], name, c.global)
      {
        var a := targets[i];
        var taken := HasName(a, name);
        var blocked := IsBlocked(a, name, c.global);
        if a == GLOBAL || a !in agencies || taken || blocked {
          assert !CanAdd(Abs(), targets[i], name, c.global);
          return Refused;
        }
      }
      MakeCopies(cat, name, targets, c, mode);
      return Done;
    }

    method MakeCopies(cat: Uid, name: Name, targets: seq<Agency>, c: Content, mode: Mode)
      modifies this
      ensures Abs() == InsertCopies(old(Abs()), cat, name, targets, c, mode)
    {
      var i := 0;
      while i < |targets|
        invariant 0 <= i <= |targets|
        invariant InsertCopies(Abs(), cat, name, targets[i..], c, mode) == InsertCopies(old(Abs()), cat, name, targets, c, mode)
      {
        assert targets[i..][0] == targets[i] && targets[i..][1..] == targets[i + 1..];
        var _ := InsertRow(CopyRow(targets[i], name, cat, c, mode));
        i := i + 1;
      }
    }

    /** One copy takes the catalogue's content: the only row that changes. */
    method TakeOne(uid: Uid, c: Content)
      requires uid in rows && Live(rows[uid])
      modifies this`rows
      ensures Abs() == Take(old(Abs()), {uid}, c)
    {
      var _ := ApplyFrom(uid, rows[uid].origin.value.uid, c);
      assert rows == Take(old(Abs()), {uid}, c).rows;
    }

    method UpdateFromCentral(uid: Uid) returns (out: Outcome)
      modifies this
      ensures (Abs(), out) == Update(old(Abs()), uid)
    {
      if uid !in rows {
        return NotFound;
      }
      var row := rows[uid];
      match LinkOf(rows, row) {
        case Own => return Refused;
        case Gone => return Refused;
        case UpToDate =>
          SettleCopyNotices({uid});
          return AsItIs;
        case Behind =>
          var c := CatalogueOf(rows, row).value;
          var blocked := IsBlocked(row.owner, row.name, c.global);
          if blocked {
            SettleCopyNotices({uid});
            return Refused;
          }
          TakeOne(uid, c);
          SettleCopyNotices({uid});
          return Done;
      }
    }

    method SetUpdateMode(uid: Uid, mode: Mode) returns (out: Outcome)
      modifies this
      ensures (Abs(), out) == SetMode(old(Abs()), uid, mode)
    {
      if uid !in rows {
        return NotFound;
      }
      var row := rows[uid];
      var link := LinkOf(rows, row);
      if link == Own || link == Gone {
        return Refused;
      }
      var c := CatalogueOf(rows, row).value;
      rows := rows[uid := row.(origin := Some(row.origin.value.(mode := mode)))];
      if mode == Auto && link == Behind {
        var blocked := IsBlocked(row.owner, row.name, c.global);
        if !blocked {
          TakeOne(uid, c);
        }
      }
      SettleCopyNotices({uid});
      return Done;
    }

    method DetachCalendar(uid: Uid) returns (out: Outcome)
      modifies this
      ensures (Abs(), out) == Detach(old(Abs()), uid)
    {
      if uid !in rows {
        return NotFound;
      }
      if rows[uid].origin.None? {
        return Refused;
      }
      rows := rows[uid := rows[uid].(origin := None)];
      SettleCopyNotices({uid});
      return Done;
    }

    /** Push: what it will update is judged for every copy first, then written. */
    method PushCatalogue(cat: Uid, ids: seq<Agency>) returns (out: Outcome)
      modifies this
      ensures (Abs(), out) == Push(old(Abs()), cat, set a | a in Dedup(ids))
    {
      if cat !in rows || rows[cat].owner != GLOBAL {
        return NotFound;
      }
      var c := rows[cat].content;
      var wanted := set a | a in Dedup(ids);
      var apply := ToPush(cat, c, wanted);
      ghost var s := Abs();
      var left, done := apply, {};
      while left != {}
        invariant left <= apply && done == apply - left && rows.Keys == s.rows.Keys && Abs() == s.(rows := rows)
        invariant forall u :: u in rows ==> rows[u] == if u in done then Taken(s.rows[u], c) else s.rows[u]
      {
        var cp :| cp in left;
        left := left - {cp};
        var applied := ApplyFrom(cp, cat, c);
        assert applied;
        done := done + {cp};
      }
      assert done == apply;
      assert rows == Take(s, done, c).rows;
      SettleCopyNotices(done);
      return Done;
    }

    method ToPush(cat: Uid, c: Content, wanted: set<Agency>) returns (apply: set<Uid>)
      requires cat in rows && rows[cat].content == c
      ensures apply == Pushed(Abs(), cat, wanted)
    {
      apply := {};
      var copies := CopiesOf(rows, cat);
      var left := copies;
      while left != {}
        invariant left <= copies
        invariant apply == Pushed(Abs(), cat, wanted) * (copies - left)
      {
        var cp :| cp in left;
        left := left - {cp};
        if rows[cp].owner in wanted && !rows[cp].origin.value.gone && LinkAgainst(rows[cp], Some(c)) == Behind {
          var blocked := IsBlocked(rows[cp].owner, rows[cp].name, c.global);
          if !blocked {
            apply := apply + {cp};
          }
        }
      }
      assert copies - left == copies;
    }

    /** A schedule entry's (or a definition's) calendars, checked and written. */
    method WriteBinding(id: nat, agency: Agency, skip: set<Name>, only: set<Name>) returns (out: Outcome)
      modifies this`entries
      ensures (Abs(), out) == Bind(old(Abs()), id, agency, skip, only)
    {
      if !(skip !! only) {
        return Refused;
      }
      var known := set u | u in rows && rows[u].owner == agency :: rows[u].name;
      var freeze := set u | u in rows && rows[u].owner == agency && rows[u].content.global :: rows[u].name;
      if !(skip + only <= known) || !(only !! freeze) {
        assert !(only !! freeze) ==> !ValidBinding(rows, agency, skip, only) by {
          if n :| n in only * freeze {
            var u :| u in rows && rows[u].owner == agency && rows[u].content.global && rows[u].name == n;
          }
        }
        assert !(skip + only <= known) ==> !ValidBinding(rows, agency, skip, only) by {
          if n :| n in skip + only && n !in known {
            assert !Taking(rows, agency, n);
          }
        }
        return Refused;
      }
      forall n | n in skip + only ensures Taking(rows, agency, n) {
        assert n in known;
      }
      forall u | u in rows && rows[u].owner == agency && rows[u].content.global ensures rows[u].name !in only {
        assert rows[u].name in freeze;
      }
      entries := entries[id := Entry(agency, skip, only, false)];
      return Done;
    }
  }
}
