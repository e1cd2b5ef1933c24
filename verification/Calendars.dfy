/** The catalogue of calendars and the agencies' linked copies of them: the rows,
    the bindings that name them, the open notices, and each handler as one step. */
module Calendars {
  import opened Options

  type Agency = string
  type Name = string
  type Uid = nat

  const GLOBAL: Agency := "global"
  const RESERVED: Name := "catalogue"

  /** What a copy takes from its catalogue calendar: not the name. */
  datatype Content = Content(description: string, global: bool, recordSuppressed: bool, days: map<string, string>)

  /** ContentHash is taken to tell any two contents apart. */
  datatype Hash = Hash(of: Content)

  function ContentHash(c: Content): Hash {
    Hash(c)
  }

  datatype Mode = Ask | Auto

  /** A copy's link: the catalogue calendar it came from, the hash of what it
      holds, how it takes updates, and whether the catalogue calendar is gone. */
  datatype Origin = Origin(uid: Uid, hash: Hash, mode: Mode, gone: bool)

  datatype Row = Row(owner: Agency, name: Name, content: Content, origin: Option<Origin>)

  /** What names calendars: a schedule entry, a definition or a schedule of an
      agency, with its skip and its run-day (only) names; it may be in the bin. */
  datatype Entry = Entry(agency: Agency, skip: set<Name>, only: set<Name>, binned: bool)

  datatype Kind = UpdateAvailable | NoLongerOffered

  datatype Notice = Notice(kind: Kind, uid: Uid)

  /** `held` records every content each catalogue calendar has had. */
  datatype Store = Store(
    agencies: set<Agency>,
    rows: map<Uid, Row>,
    entries: map<nat, Entry>,
    notices: set<Notice>,
    nextUid: Uid,
    held: map<Uid, set<Content>>)

  function Empty(agencies: set<Agency>): Store {
    Store(agencies, map[], map[], {}, 0, map[])
  }

  // ----- what an update would change -----

  datatype Diff = Diff(added: set<string>, removed: set<string>, relabelled: set<string>,
                       description: bool, global: bool, recordSuppressed: bool)

  function DiffOf(from: Content, to: Content): Diff {
    Diff(to.days.Keys - from.days.Keys,
         from.days.Keys - to.days.Keys,
         (set d | d in to.days && d in from.days && from.days[d] != to.days[d]),
         from.description != to.description,
         from.global != to.global,
         from.recordSuppressed != to.recordSuppressed)
  }

  predicate NoChange(d: Diff) {
    d.added == {} && d.removed == {} && d.relabelled == {} && !d.description && !d.global && !d.recordSuppressed
  }

  /** An update that would change nothing is one between equal contents. */
  lemma DiffIsExact(from: Content, to: Content)
    ensures NoChange(DiffOf(from, to)) <==> from == to
  {
    if NoChange(DiffOf(from, to)) {
      assert to.days.Keys == from.days.Keys;
      forall d | d in from.days ensures from.days[d] == to.days[d] {
        assert d !in DiffOf(from, to).relabelled;
      }
      assert from.days == to.days;
    }
  }

  // ----- links -----

  datatype Link = Own | UpToDate | Behind | Gone

  /** How a copy stands to a content of its catalogue calendar: the one stored, or the
      one being saved. */
  function LinkAgainst(row: Row, cat: Option<Content>): Link {
    if row.origin.None? then Own
    else if cat.None? then Gone
    else if ContentHash(cat.value) == row.origin.value.hash || NoChange(DiffOf(row.content, cat.value)) then UpToDate
    else Behind
  }

  /** The catalogue calendar a copy came from, unless it is gone. */
  function CatalogueOf(rows: map<Uid, Row>, row: Row): Option<Content> {
    if row.origin.None? || row.origin.value.gone then None
    else
      var u := row.origin.value.uid;
      if u in rows && rows[u].owner == GLOBAL then Some(rows[u].content) else None
  }

  function LinkOf(rows: map<Uid, Row>, row: Row): Link {
    LinkAgainst(row, CatalogueOf(rows, row))
  }

  predicate OnlyBound(entries: map<nat, Entry>, owner: Agency, name: Name) {
    exists e :: e in entries && entries[e].agency == owner && name in entries[e].only
  }

  /** Why a calendar may not be, or become, a freeze calendar: something keeps to
      it as run-day. Owners in the recycle bin count. */
  predicate Blocked(entries: map<nat, Entry>, owner: Agency, name: Name, global: bool) {
    global && OnlyBound(entries, owner, name)
  }

  function CopiesOf(rows: map<Uid, Row>, uid: Uid): set<Uid> {
    set u | u in rows && rows[u].origin.Some? && rows[u].origin.value.uid == uid
  }

  /** The notice a calendar's link calls for. */
  function Wanted(rows: map<Uid, Row>, uid: Uid): Option<Kind> {
    if uid !in rows then None
    else match LinkOf(rows, rows[uid])
      case Behind => Some(UpdateAvailable)
      case Gone => Some(NoLongerOffered)
      case _ => None
  }

  function WantedNotices(rows: map<Uid, Row>, uid: Uid): set<Notice> {
    var w := Wanted(rows, uid);
    if w.Some? then {Notice(w.value, uid)} else {}
  }

  // ----- what every step keeps -----

  ghost predicate Named(rows: map<Uid, Row>) {
    forall u, v :: u in rows && v in rows && rows[u].owner == rows[v].owner && rows[u].name == rows[v].name ==> u == v
  }

  /** A copy belongs to an agency, holds exactly some content its catalogue
      calendar once had, with that content's hash, and is marked gone exactly when
      the catalogue calendar is; what it is a copy of is no copy. */
  ghost predicate LinkedRow(rows: map<Uid, Row>, held: map<Uid, set<Content>>, nextUid: Uid, row: Row) {
    row.origin.Some? ==>
      var o := row.origin.value;
      && row.owner != GLOBAL
      && o.uid < nextUid
      && o.hash == ContentHash(row.content)
      && o.uid in held && row.content in held[o.uid]
      && (o.gone <==> o.uid !in rows)
      && (o.uid in rows ==> rows[o.uid].owner == GLOBAL)
  }

  ghost predicate Linked(s: Store) {
    && Named(s.rows)
    && (forall u :: u in s.rows ==> u < s.nextUid && LinkedRow(s.rows, s.held, s.nextUid, s.rows[u]))
    && (forall u :: u in s.rows && s.rows[u].owner == GLOBAL ==> u in s.held && s.rows[u].content in s.held[u])
    && (forall u :: u in s.held ==> u < s.nextUid)
  }

  /** No freeze calendar is kept to as run-day by anything of its agency. */
  ghost predicate Frozen(s: Store) {
    forall u :: u in s.rows && s.rows[u].content.global ==> !OnlyBound(s.entries, s.rows[u].owner, s.rows[u].name)
  }

  /** The open notices are what the links call for, calendars in `except` aside. */
  ghost predicate SettledExcept(s: Store, except: set<Uid>) {
    && (forall n :: n in s.notices && n.uid !in except ==> Wanted(s.rows, n.uid) == Some(n.kind))
    && (forall u :: u in s.rows && u !in except && Wanted(s.rows, u).Some? ==> Notice(Wanted(s.rows, u).value, u) in s.notices)
  }

  ghost predicate Good(s: Store) {
    Linked(s) && Frozen(s) && SettledExcept(s, {})
  }

  // ----- the rows' own changes -----

  function Insert(s: Store, row: Row): Store {
    s.(rows := s.rows[s.nextUid := row],
       nextUid := s.nextUid + 1,
       held := if row.owner == GLOBAL then s.held[s.nextUid := {row.content}] else s.held)
  }

  function SetContent(s: Store, uid: Uid, c: Content): Store
    requires uid in s.rows
  {
    s.(rows := s.rows[uid := s.rows[uid].(content := c)],
       held := if s.rows[uid].owner == GLOBAL then s.held[uid := (if uid in s.held then s.held[uid] else {}) + {c}] else s.held)
  }

  /** A row that takes the catalogue's content, and the hash of it. */
  function Taken(row: Row, c: Content): Row {
    if row.origin.None? then row
    else row.(content := c, origin := Some(row.origin.value.(hash := ContentHash(c))))
  }

  function Take(s: Store, copies: set<Uid>, c: Content): Store {
    s.(rows := map u | u in s.rows :: if u in copies then Taken(s.rows[u], c) else s.rows[u])
  }

  /** The row goes; copies of a catalogue calendar stay, no longer offered. */
  function Remove(s: Store, uid: Uid): Store
    requires uid in s.rows
  {
    var copies := if s.rows[uid].owner == GLOBAL then CopiesOf(s.rows, uid) else {};
    s.(rows := map u | u in s.rows && u != uid :: if u in copies then MarkGone(s.rows[u]) else s.rows[u])
  }

  function MarkGone(row: Row): Row {
    if row.origin.None? then row else row.(origin := Some(row.origin.value.(gone := true)))
  }

  function SetOrigin(s: Store, uid: Uid, origin: Option<Origin>): Store
    requires uid in s.rows
  {
    s.(rows := s.rows[uid := s.rows[uid].(origin := origin)])
  }

  /** Brings the notices of the calendars named to what their links call for. */
  function Settle(s: Store, uids: set<Uid>): Store {
    s.(notices := (set n | n in s.notices && n.uid !in uids) + (set u, n | u in uids && n in WantedNotices(s.rows, u) :: n))
  }

  // ----- the handlers -----

  datatype Outcome = Done | NotFound | Refused | AsItIs

  predicate Taking(rows: map<Uid, Row>, owner: Agency, name: Name) {
    exists u :: u in rows && rows[u].owner == owner && rows[u].name == name
  }

  /** Create: not under the reserved name, not a second of the name, and not as a
      freeze calendar where a dangling run-day binding names it. */
  function Create(s: Store, owner: Agency, name: Name, c: Content): (Store, Outcome) {
    if name == RESERVED || owner !in s.agencies || Taking(s.rows, owner, name) || Blocked(s.entries, owner, name, c.global)
    then (s, Refused)
    else (Insert(s, Row(owner, name, c, None)), Done)
  }

  /** The copies a save of catalogue calendar `uid` to content `next` updates. */
  function Automatic(s: Store, uid: Uid, next: Content): set<Uid> {
    set u | u in CopiesOf(s.rows, uid) && Live(s.rows[u]) && LinkAgainst(s.rows[u], Some(next)) == Behind
         && s.rows[u].origin.value.mode == Auto && !Blocked(s.entries, s.rows[u].owner, s.rows[u].name, next.global)
  }

  /** The copies it leaves behind: those that ask, and those held by a binding. */
  function LeftBehind(s: Store, uid: Uid, next: Content): set<Uid> {
    set u | u in CopiesOf(s.rows, uid) && Live(s.rows[u]) && LinkAgainst(s.rows[u], Some(next)) == Behind
         && (s.rows[u].origin.value.mode != Auto || Blocked(s.entries, s.rows[u].owner, s.rows[u].name, next.global))
  }

  predicate Live(row: Row) {
    row.origin.Some? && !row.origin.value.gone
  }

  /** A save of a calendar's content. On the catalogue's it reaches the automatic
      copies in the same step, and settles every copy's notices if it changed
      anything. */
  function SaveContent(s: Store, uid: Uid, c: Content): Store
    requires uid in s.rows
  {
    var saved := SetContent(s, uid, c);
    if s.rows[uid].owner != GLOBAL || ContentHash(s.rows[uid].content) == ContentHash(c) then saved
    else Settle(Take(saved, Automatic(s, uid, c), c), CopiesOf(s.rows, uid))
  }

  function Save(s: Store, uid: Uid, description: string, global: bool, record: bool): (Store, Outcome) {
    if uid !in s.rows then (s, NotFound)
    else
      var row := s.rows[uid];
      if row.origin.Some? || Blocked(s.entries, row.owner, row.name, global) then (s, Refused)
      else (SaveContent(s, uid, Content(description, global, record, row.content.days)), Done)
  }

  function ReplaceDays(s: Store, uid: Uid, days: map<string, string>): (Store, Outcome) {
    if uid !in s.rows then (s, NotFound)
    else if s.rows[uid].origin.Some? then (s, Refused)
    else (SaveContent(s, uid, s.rows[uid].content.(days := days)), Done)
  }

  predicate Bound(entries: map<nat, Entry>, owner: Agency, name: Name) {
    exists e :: e in entries && entries[e].agency == owner && (name in entries[e].only || name in entries[e].skip)
  }

  function Delete(s: Store, uid: Uid, force: bool): (Store, Outcome) {
    if uid !in s.rows then (s, NotFound)
    else
      var row := s.rows[uid];
      if Bound(s.entries, row.owner, row.name) && !force then (s, Refused)
      else
        var copies := if row.owner == GLOBAL then CopiesOf(s.rows, uid) else {};
        (Settle(Remove(s, uid), copies + {uid}), Done)
  }

  /** Whether an agency can be given a copy under this name. */
  predicate CanAdd(s: Store, a: Agency, name: Name, global: bool) {
    a != GLOBAL && a in s.agencies && !Taking(s.rows, a, name) && !Blocked(s.entries, a, name, global)
  }

  function CopyRow(a: Agency, name: Name, cat: Uid, c: Content, mode: Mode): Row {
    Row(a, name, c, Some(Origin(cat, ContentHash(c), mode, false)))
  }

  function InsertCopies(s: Store, cat: Uid, name: Name, targets: seq<Agency>, c: Content, mode: Mode): Store
    decreases |targets|
  {
    if targets == [] then s
    else InsertCopies(Insert(s, CopyRow(targets[0], name, cat, c, mode)), cat, name, targets[1..], c, mode)
  }

  predicate Distinct(targets: seq<Agency>) {
    forall i, j :: 0 <= i < j < |targets| ==> targets[i] != targets[j]
  }

  /** Add from the catalogue, to one agency or several: judged whole, then made. */
  function Add(s: Store, cat: Uid, name: Name, targets: seq<Agency>, mode: Mode): (Store, Outcome) {
    if cat !in s.rows || s.rows[cat].owner != GLOBAL then (s, NotFound)
    else
      var c := s.rows[cat].content;
      if name == RESERVED || !Distinct(targets) || (exists i :: 0 <= i < |targets| && !CanAdd(s, targets[i], name, c.global))
      then (s, Refused)
      else (InsertCopies(s, cat, name, targets, c, mode), Done)
  }

  /** Update: the copy takes the catalogue's content as it is now. */
  function Update(s: Store, uid: Uid): (Store, Outcome) {
    if uid !in s.rows then (s, NotFound)
    else
      var row := s.rows[uid];
      match LinkOf(s.rows, row)
      case Own => (s, Refused)
      case Gone => (s, Refused)
      case UpToDate => (Settle(s, {uid}), AsItIs)
      case Behind =>
        var c := CatalogueOf(s.rows, row).value;
        if Blocked(s.entries, row.owner, row.name, c.global) then (Settle(s, {uid}), Refused)
        else (Settle(Take(s, {uid}, c), {uid}), Done)
  }

  /** How a copy takes updates; set to auto while behind, it takes the pending one
      at once if the agency's bindings allow it. */
  function SetMode(s: Store, uid: Uid, mode: Mode): (Store, Outcome) {
    if uid !in s.rows then (s, NotFound)
    else
      var row := s.rows[uid];
      var link := LinkOf(s.rows, row);
      if link == Own || link == Gone then (s, Refused)
      else
        var c := CatalogueOf(s.rows, row).value;
        var set1 := SetOrigin(s, uid, Some(row.origin.value.(mode := mode)));
        if mode == Auto && link == Behind && !Blocked(s.entries, row.owner, row.name, c.global)
        then (Settle(Take(set1, {uid}, c), {uid}), Done)
        else (Settle(set1, {uid}), Done)
  }

  /** Make it our own. */
  function Detach(s: Store, uid: Uid): (Store, Outcome) {
    if uid !in s.rows then (s, NotFound)
    else if s.rows[uid].origin.None? then (s, Refused)
    else (Settle(SetOrigin(s, uid, None), {uid}), Done)
  }

  /** The copies a push to these agencies updates. */
  function Pushed(s: Store, cat: Uid, agencies: set<Agency>): set<Uid>
    requires cat in s.rows
  {
    var c := s.rows[cat].content;
    set u | u in CopiesOf(s.rows, cat) && s.rows[u].owner in agencies && Live(s.rows[u])
         && LinkAgainst(s.rows[u], Some(c)) == Behind && !Blocked(s.entries, s.rows[u].owner, s.rows[u].name, c.global)
  }

  /** Push: only the copies it updates have their notices settled. */
  function Push(s: Store, cat: Uid, agencies: set<Agency>): (Store, Outcome) {
    if cat !in s.rows || s.rows[cat].owner != GLOBAL then (s, NotFound)
    else
      var copies := Pushed(s, cat, agencies);
      (Settle(Take(s, copies, s.rows[cat].content), copies), Done)
  }

  /** A binding is written for names its agency has, none of them in both roles,
      and no freeze calendar as run-day. */
  predicate ValidBinding(rows: map<Uid, Row>, agency: Agency, skip: set<Name>, only: set<Name>) {
    && skip !! only
    && (forall n :: n in skip + only ==> Taking(rows, agency, n))
    && (forall u :: u in rows && rows[u].owner == agency && rows[u].content.global ==> rows[u].name !in only)
  }

  function Bind(s: Store, id: nat, agency: Agency, skip: set<Name>, only: set<Name>): (Store, Outcome) {
    if ValidBinding(s.rows, agency, skip, only) then (s.(entries := s.entries[id := Entry(agency, skip, only, false)]), Done)
    else (s, Refused)
  }

  function SetBinned(s: Store, id: nat, binned: bool): (Store, Outcome) {
    if id in s.entries then (s.(entries := s.entries[id := s.entries[id].(binned := binned)]), Done) else (s, NotFound)
  }

  function Unbind(s: Store, id: nat): (Store, Outcome) {
    (s.(entries := s.entries - {id}), Done)
  }

  datatype Op =
    | OpCreate(owner: Agency, name: Name, content: Content)
    | OpSave(uid: Uid, description: string, global: bool, record: bool)
    | OpReplaceDays(uid: Uid, days: map<string, string>)
    | OpDelete(uid: Uid, force: bool)
    | OpAdd(cat: Uid, name: Name, targets: seq<Agency>, mode: Mode)
    | OpUpdate(uid: Uid)
    | OpSetMode(uid: Uid, mode: Mode)
    | OpDetach(uid: Uid)
    | OpPush(cat: Uid, agencies: set<Agency>)
    | OpBind(id: nat, agency: Agency, skip: set<Name>, only: set<Name>)
    | OpSetBinned(id: nat, binned: bool)
    | OpUnbind(id: nat)

  function Apply(s: Store, op: Op): (Store, Outcome) {
    match op
    case OpCreate(owner, name, content) => Create(s, owner, name, content)
    case OpSave(uid, description, global, record) => Save(s, uid, description, global, record)
    case OpReplaceDays(uid, days) => ReplaceDays(s, uid, days)
    case OpDelete(uid, force) => Delete(s, uid, force)
    case OpAdd(cat, name, targets, mode) => Add(s, cat, name, targets, mode)
    case OpUpdate(uid) => Update(s, uid)
    case OpSetMode(uid, mode) => SetMode(s, uid, mode)
    case OpDetach(uid) => Detach(s, uid)
    case OpPush(cat, agencies) => Push(s, cat, agencies)
    case OpBind(id, agency, skip, only) => Bind(s, id, agency, skip, only)
    case OpSetBinned(id, binned) => SetBinned(s, id, binned)
    case OpUnbind(id) => Unbind(s, id)
  }
}
