/** The online re-wrap of every stored credential under the active key, while the
    server goes on saving, adding and deleting the same rows. */
module Rewrap {
  import opened Options

  /** A stored item: a row of an envelope table, or one token of a settings column. */
  datatype Key = Key(store: string, id: string)

  type Plain = string

  /** A sealed value: a ciphertext no two seals share, what it holds, the key
      version it is sealed under, and the row it is bound to, if any. */
  datatype Box = Box(cipher: nat, plain: Plain, under: int, boundTo: Option<Key>)

  /** What is stored: a sealed value with the key version and the form recorded
      beside it, or (in a settings column) a text that is no token. */
  datatype Item = Sealed(box: Box, version: int, bound: bool) | Text(text: string)

  /** What the server does meanwhile: every save seals at the active version, bound
      to its row. */
  datatype ServerStep = Save(key: Key, plain: Plain) | Delete(key: Key)

  /** One database statement of the pass, a read or a write: what the server does
      before it, whether it fails, and, should it list a table's rows, after how many
      the listing is cut short, if it is. */
  datatype Turn = Turn(before: seq<ServerStep>, broken: bool, cut: Option<nat>)

  /** All that the server does in some turns, in order. */
  function Steps(turns: seq<Turn>): seq<ServerStep>
    decreases |turns|
  {
    if turns == [] then [] else turns[0].before + Steps(turns[1..])
  }

  lemma {:induction false} StepsOfBoth(a: seq<Turn>, b: seq<Turn>)
    ensures Steps(a + b) == Steps(a) + Steps(b)
    decreases |a|
  {
    if a == [] {
      assert a + b == b;
    } else {
      assert (a + b)[1..] == a[1..] + b;
      StepsOfBoth(a[1..], b);
    }
  }

  /** The turns gone by, of those that were to come. */
  function Gone(before: seq<Turn>, after: seq<Turn>): seq<Turn>
    requires |after| <= |before|
  {
    before[..|before| - |after|]
  }

  /** What is left to come is the end of what was. */
  ghost predicate Later(before: seq<Turn>, after: seq<Turn>) {
    |after| <= |before| && before == Gone(before, after) + after
  }

  lemma GoneOn(a: seq<Turn>, b: seq<Turn>, c: seq<Turn>)
    requires Later(a, b) && Later(b, c)
    ensures Later(a, c) && Steps(Gone(a, c)) == Steps(Gone(a, b)) + Steps(Gone(b, c))
  {
    BothGone(Gone(a, b), Gone(b, c), a, c);
    StepsOfBoth(Gone(a, b), Gone(b, c));
  }

  lemma BothGone(x: seq<Turn>, y: seq<Turn>, a: seq<Turn>, c: seq<Turn>)
    requires a == x + (y + c)
    ensures Later(a, c) && Gone(a, c) == x + y
  {
    assert a == x + y + c;
  }

  /** No statement to come fails. */
  ghost predicate Calm(turns: seq<Turn>) {
    forall i :: 0 <= i < |turns| ==> !turns[i].broken
  }

  /** No listing of a table's rows is cut short. */
  ghost predicate Whole(turns: seq<Turn>) {
    forall i :: 0 <= i < |turns| ==> turns[i].cut.None?
  }

  /** The server is idle. */
  ghost predicate Quiet(turns: seq<Turn>) {
    forall i :: 0 <= i < |turns| ==> turns[i].before == []
  }

  lemma {:induction false} QuietSteps(turns: seq<Turn>)
    requires Quiet(turns)
    ensures Steps(turns) == []
    decreases |turns|
  {
    if turns != [] {
      QuietSteps(turns[1..]);
    }
  }

  datatype RewrapOutcome = RewrapSkipped | RewrapMoved | RewrapFailed

  datatype Keys = Keys(active: int, configured: set<int>, unboundRefused: bool)

  /** Opening a stored value: with the key of its recorded version, under its row's
      binding when it is bound. */
  function Open(keys: Keys, key: Key, item: Item): Option<Plain>
    requires item.Sealed?
  {
    if !item.bound && keys.unboundRefused then None
    else if item.version !in keys.configured || item.version != item.box.under then None
    else if item.box.boundTo != (if item.bound then Some(key) else None) then None
    else Some(item.box.plain)
  }

  /** What is sealed for a row opens there, with its key at hand, and in no other row. */
  lemma SealedOpensInItsRow(keys: Keys, key: Key, other: Key, cipher: nat, plain: Plain)
    ensures var item := Sealed(Box(cipher, plain, keys.active, Some(key)), keys.active, true);
            && Open(keys, key, item) == (if keys.active in keys.configured then Some(plain) else None)
            && (other != key ==> Open(keys, other, item) == None)
  {
  }

  /** What is bound to no row opens in any, until unbound values are refused; and nothing
      opens as bound that is not, or under another version than it was sealed with. */
  lemma UnboundOpensUnlessRefused(keys: Keys, key: Key, cipher: nat, plain: Plain, v: int, w: int)
    ensures Open(keys, key, Sealed(Box(cipher, plain, v, None), v, false)) ==
            if keys.unboundRefused || v !in keys.configured then None else Some(plain)
    ensures Open(keys, key, Sealed(Box(cipher, plain, v, None), v, true)) == None
    ensures v != w ==> Open(keys, key, Sealed(Box(cipher, plain, v, Some(key)), w, true)) == None
  {
  }

  predicate Current(keys: Keys, item: Item) {
    item.Text? || (item.version == keys.active && item.bound)
  }

  ghost predicate AllCurrent(keys: Keys, items: map<Key, Item>, stores: set<string>) {
    forall k :: k in items && k.store in stores ==> Current(keys, items[k])
  }

  /** What the server's own writes make of the saved values. */
  function Replay(saved: map<Key, Plain>, steps: seq<ServerStep>): map<Key, Plain>
    decreases |steps|
  {
    if steps == [] then saved
    else
      var before := Replay(saved, steps[..|steps| - 1]);
      match steps[|steps| - 1]
      case Save(key, plain) => before[key := plain]
      case Delete(key) => before - {key}
  }

  /** The plaintext of what is stored. */
  function Held(item: Item): Plain {
    if item.Sealed? then item.box.plain else item.text
  }

  /** Every stored item holds what was last saved there, by the server or before
      the pass, and nothing else is stored. */
  ghost predicate Faithful(items: map<Key, Item>, saved: map<Key, Plain>) {
    items.Keys == saved.Keys && forall k :: k in items ==> Held(items[k]) == saved[k]
  }

  function Plains(items: map<Key, Item>): map<Key, Plain> {
    map k | k in items :: Held(items[k])
  }

  lemma {:induction false} ReplayOn(saved: map<Key, Plain>, a: seq<ServerStep>, b: seq<ServerStep>)
    ensures Replay(saved, a + b) == Replay(Replay(saved, a), b)
    decreases |b|
  {
    if b == [] {
      assert a + b == a;
    } else {
      assert (a + b)[..|a + b| - 1] == a + b[..|b| - 1];
      ReplayOn(saved, a, b[..|b| - 1]);
    }
  }

  /** Every ciphertext stored is below the next. */
  ghost predicate Below(items: map<Key, Item>, next: nat) {
    forall k :: k in items && items[k].Sealed? ==> items[k].box.cipher < next
  }

  /** Rows read earlier whose ciphertext still stands are unchanged. */
  ghost predicate Standing(read: seq<(Key, Item)>, items: map<Key, Item>, next: nat) {
    forall r :: r in read && r.1.Sealed? ==>
      && r.1.box.cipher < next
      && (r.0 in items && items[r.0].Sealed? && items[r.0].box.cipher == r.1.box.cipher ==> items[r.0] == r.1)
  }

  /** The rows, and the next ciphertext, after one of the server's writes. */
  function Stepped(items: map<Key, Item>, next: nat, active: int, step: ServerStep): (map<Key, Item>, nat) {
    match step
    case Save(key, plain) => (items[key := Sealed(Box(next, plain, active, Some(key)), active, true)], next + 1)
    case Delete(key) => (items - {key}, next)
  }

  lemma SteppedFaithful(items: map<Key, Item>, next: nat, active: int, saved: map<Key, Plain>, writes: seq<ServerStep>, step: ServerStep)
    requires Faithful(items, Replay(saved, writes))
    ensures Faithful(Stepped(items, next, active, step).0, Replay(saved, writes + [step]))
  {
    assert (writes + [step])[..|writes|] == writes;
  }

  lemma SteppedStands(items: map<Key, Item>, next: nat, active: int, step: ServerStep, read: seq<(Key, Item)>)
    requires Below(items, next) && Standing(read, items, next)
    ensures Below(Stepped(items, next, active, step).0, Stepped(items, next, active, step).1)
    ensures Standing(read, Stepped(items, next, active, step).0, Stepped(items, next, active, step).1)
  {
  }

  /** The rows, and the next ciphertext, after all of its writes. */
  function Served(items: map<Key, Item>, next: nat, active: int, steps: seq<ServerStep>): (map<Key, Item>, nat)
    decreases |steps|
  {
    if steps == [] then (items, next)
    else
      var (before, n) := Served(items, next, active, steps[..|steps| - 1]);
      Stepped(before, n, active, steps[|steps| - 1])
  }

  lemma {:induction false} ServedOn(items: map<Key, Item>, next: nat, active: int, a: seq<ServerStep>, b: seq<ServerStep>)
    ensures var (mid, n) := Served(items, next, active, a);
            Served(items, next, active, a + b) == Served(mid, n, active, b)
    decreases |b|
  {
    if b == [] {
      assert a + b == a;
    } else {
      assert (a + b)[..|a + b| - 1] == a + b[..|b| - 1];
      ServedOn(items, next, active, a, b[..|b| - 1]);
    }
  }

  /** The database between two statements: its rows, the next ciphertext, the turns to
      come, and all that was written by the server so far. */
  datatype Moment = Moment(items: map<Key, Item>, next: nat, turns: seq<Turn>, writes: seq<ServerStep>)

  /** Sealed under the active key, and bound to its own row. */
  predicate Proper(keys: Keys, key: Key, item: Item) {
    item.Sealed? && item.version == keys.active && item.bound && item.box.under == keys.active && item.box.boundTo == Some(key)
  }

  /** What was written is what the server did in the turns gone by, all of it, in order,
      and nothing else. */
  ghost predicate ServerOnly(turns0: seq<Turn>, writes0: seq<ServerStep>, turns: seq<Turn>, writes: seq<ServerStep>) {
    Later(turns0, turns) && writes == writes0 + Steps(Gone(turns0, turns))
  }

  lemma ServerOnlyOn(turns0: seq<Turn>, writes0: seq<ServerStep>, turns1: seq<Turn>, writes1: seq<ServerStep>,
                     turns2: seq<Turn>, writes2: seq<ServerStep>)
    requires ServerOnly(turns0, writes0, turns1, writes1) && ServerOnly(turns1, writes1, turns2, writes2)
    ensures ServerOnly(turns0, writes0, turns2, writes2)
  {
    GoneOn(turns0, turns1, turns2);
    Joined(writes0, Steps(Gone(turns0, turns1)), Steps(Gone(turns1, turns2)));
  }

  lemma Joined(a: seq<ServerStep>, b: seq<ServerStep>, c: seq<ServerStep>)
    ensures a + b + c == a + (b + c)
  {
  }

  /** Each row is as it was, or is sealed properly. */
  ghost predicate RowsKept(keys: Keys, before: map<Key, Item>, after: map<Key, Item>) {
    forall k :: k in after ==> (k in before && after[k] == before[k]) || Proper(keys, k, after[k])
  }

  lemma RowsKeptOn(keys: Keys, a: map<Key, Item>, b: map<Key, Item>, c: map<Key, Item>)
    requires RowsKept(keys, a, b) && RowsKept(keys, b, c)
    ensures RowsKept(keys, a, c)
  {
  }

  lemma {:induction false} ServedKeeps(keys: Keys, items: map<Key, Item>, next: nat, steps: seq<ServerStep>)
    ensures RowsKept(keys, items, Served(items, next, keys.active, steps).0) && next <= Served(items, next, keys.active, steps).1
    decreases |steps|
  {
    if steps != [] {
      ServedKeeps(keys, items, next, steps[..|steps| - 1]);
    }
  }

  /** From one moment to a later one: nothing else is written, and every row is kept. */
  ghost predicate Kept(keys: Keys, m: Moment, n: Moment) {
    && ServerOnly(m.turns, m.writes, n.turns, n.writes)
    && RowsKept(keys, m.items, n.items)
  }

  lemma KeptOn(keys: Keys, m: Moment, n: Moment, o: Moment)
    requires Kept(keys, m, n) && Kept(keys, n, o)
    ensures Kept(keys, m, o)
  {
    ServerOnlyOn(m.turns, m.writes, n.turns, n.writes, o.turns, o.writes);
    RowsKeptOn(keys, m.items, n.items, o.items);
  }

  /** Every row is as the server made it. */
  ghost predicate OnlyServed(keys: Keys, m: Moment, n: Moment) {
    && Kept(keys, m, n)
    && (n.items, n.next) == Served(m.items, m.next, keys.active, Steps(Gone(m.turns, n.turns)))
  }

  lemma OnlyServedOn(keys: Keys, m: Moment, n: Moment, o: Moment)
    requires OnlyServed(keys, m, n) && OnlyServed(keys, n, o)
    ensures OnlyServed(keys, m, o)
  {
    KeptOn(keys, m, n, o);
    GoneOn(m.turns, n.turns, o.turns);
    ServedOn(m.items, m.next, keys.active, Steps(Gone(m.turns, n.turns)), Steps(Gone(n.turns, o.turns)));
  }

  lemma NothingYet(keys: Keys, m: Moment)
    ensures OnlyServed(keys, m, m)
  {
    assert Gone(m.turns, m.turns) == [];
  }

  /** One item re-wrapped as it was read. A value that does not open changes nothing. The
      write has its turn: when that fails, or the row is no longer what was read, the rows
      are the server's; otherwise the row alone is sealed anew. */
  ghost predicate Rewrapped(keys: Keys, key: Key, item: Item, m: Moment, n: Moment, outcome: RewrapOutcome)
    requires item.Sealed?
  {
    var plain := Open(keys, key, item);
    if plain.None? then outcome == RewrapFailed && n == m
    else
      && ServerOnly(m.turns, m.writes, n.turns, n.writes) && Gone(m.turns, n.turns) == First(m.turns)
      && (outcome == RewrapFailed <==> m.turns != [] && m.turns[0].broken)
      && var (left, next) := Served(m.items, m.next + 1, keys.active, Steps(First(m.turns)));
         && n.next == next
         && (outcome == RewrapMoved <==> outcome != RewrapFailed && key in left && left[key] == item)
         && n.items == if outcome == RewrapMoved
                       then left[key := Sealed(Box(m.next, plain.value, keys.active, Some(key)), keys.active, true)] else left
  }

  lemma RewrappedKept(keys: Keys, key: Key, item: Item, m: Moment, n: Moment, outcome: RewrapOutcome)
    requires item.Sealed? && Rewrapped(keys, key, item, m, n, outcome)
    ensures Kept(keys, m, n)
  {
    NothingYet(keys, m);
    ServedKeeps(keys, m.items, m.next + 1, Steps(First(m.turns)));
  }

  function First(turns: seq<Turn>): seq<Turn> {
    if turns == [] then [] else turns[..1]
  }

  /** The item as it was read is not stored any more, or was current. */
  ghost predicate Settled(keys: Keys, items: map<Key, Item>, row: (Key, Item)) {
    row.0 in items && items[row.0] == row.1 ==> Current(keys, row.1)
  }

  /** A store's rows, the first i of them gone through one by one. */
  ghost predicate Passing(keys: Keys, m: Moment, n: Moment, rows: seq<(Key, Item)>, i: nat, moved: nat, failed: nat)
    requires i <= |rows|
  {
    && Kept(keys, m, n)
    && DealtWith(keys, n.items, rows, i, failed, Calm(m.turns))
    && ((forall j :: 0 <= j < i ==> Current(keys, rows[j].1)) ==> moved == 0 && failed == 0 && n == m)
    && MovedExactly(keys, m, n, moved)
  }

  /** No failure leaves a row unsettled; and while no statement fails a failure is of a
      value that does not open, and every other row is settled. */
  ghost predicate DealtWith(keys: Keys, items: map<Key, Item>, rows: seq<(Key, Item)>, i: nat, failed: nat, calm: bool)
    requires i <= |rows|
  {
    && (failed == 0 ==> forall j :: 0 <= j < i ==> Settled(keys, items, rows[j]))
    && (calm ==> forall j :: 0 <= j < i ==> Settled(keys, items, rows[j]) || Unopened(keys, rows[j]))
    && (failed > 0 && calm ==> exists j :: 0 <= j < i && Unopened(keys, rows[j]))
  }

  /** With no server about, rows that were not gone through are as they were. */
  ghost predicate Untouched(m: Moment, n: Moment, rows: seq<(Key, Item)>) {
    Quiet(m.turns) ==>
      Quiet(n.turns) && forall k :: k in m.items && (forall r :: r in rows ==> r.0 != k) ==> k in n.items && n.items[k] == m.items[k]
  }

  /** The rows of a store that a pass has to move. */
  ghost function Stale(keys: Keys, items: map<Key, Item>, store: string): set<Key> {
    set k | k in items && k.store == store && !Current(keys, items[k])
  }

  ghost predicate Unopened(keys: Keys, row: (Key, Item)) {
    !Current(keys, row.1) && Open(keys, row.0, row.1).None?
  }

  class Database {
    const keys: Keys
    var items: map<Key, Item>
    var nextCipher: nat
    /** What the server will do, and which statements will fail: a turn is taken by each
        statement of the pass. Past the last the server is idle. */
    var schedule: seq<Turn>
    /** The values saved when the pass began, and the server's writes since. */
    ghost var saved0: map<Key, Plain>
    ghost var writes: seq<ServerStep>

    ghost function Now(): Moment
      reads this
    {
      Moment(items, nextCipher, schedule, writes)
    }

    ghost predicate Valid()
      reads this
    {
      Faithful(items, Replay(saved0, writes)) && Below(items, nextCipher)
    }

    ghost predicate Stands(read: seq<(Key, Item)>)
      reads this
    {
      Standing(read, items, nextCipher)
    }

    constructor (keys: Keys, items: map<Key, Item>, nextCipher: nat, schedule: seq<Turn>)
      requires Below(items, nextCipher)
      ensures Valid() && this.keys == keys && Now() == Moment(items, nextCipher, schedule, [])
    {
      this.keys, this.items, this.nextCipher, this.schedule := keys, items, nextCipher, schedule;
      saved0 := Plains(items);
      writes := [];
    }

    /** Sealing never repeats a ciphertext. */
    method Seal(key: Key, plain: Plain) returns (item: Item)
      modifies this`nextCipher
      ensures item == Sealed(Box(old(nextCipher), plain, keys.active, Some(key)), keys.active, true)
      ensures nextCipher == old(nextCipher) + 1
    {
      item := Sealed(Box(nextCipher, plain, keys.active, Some(key)), keys.active, true);
      nextCipher := nextCipher + 1;
    }

    /** The server's turn. */
    method ServerActs(steps: seq<ServerStep>, ghost read: seq<(Key, Item)>)
      requires Valid() && Stands(read)
      modifies this`items, this`nextCipher, this`writes
      ensures Valid() && Stands(read) && writes == old(writes) + steps
      ensures (items, nextCipher) == Served(old(items), old(nextCipher), keys.active, steps)
    {
      for i := 0 to |steps|
        invariant Valid() && Stands(read) && writes == old(writes) + steps[..i]
        invariant (items, nextCipher) == Served(old(items), old(nextCipher), keys.active, steps[..i])
      {
        assert steps[..i + 1][..i] == steps[..i];
        ServerStepped(steps[i], read);
        assert writes == old(writes) + steps[..i + 1];
      }
      assert steps[..|steps|] == steps;
    }

    method ServerStepped(step: ServerStep, ghost read: seq<(Key, Item)>)
      requires Valid() && Stands(read)
      modifies this`items, this`nextCipher, this`writes
      ensures Valid() && Stands(read) && writes == old(writes) + [step]
      ensures (items, nextCipher) == Stepped(old(items), old(nextCipher), keys.active, step)
    {
      SteppedFaithful(items, nextCipher, keys.active, saved0, writes, step);
      SteppedStands(items, nextCipher, keys.active, step, read);
      match step {
        case Save(key, plain) =>
          var item := Seal(key, plain);
          items := items[key := item];
        case Delete(key) =>
          items := items - {key};
      }
      writes := writes + [step];
    }

    /** A statement is about to be executed: the server has its turn first, and the
        statement may fail. */
    method Statement(ghost read: seq<(Key, Item)>) returns (broken: bool, cut: Option<nat>)
      requires Valid() && Stands(read)
      modifies this`items, this`nextCipher, this`writes, this`schedule
      ensures Valid() && Stands(read) && OnlyServed(keys, old(Now()), Now())
      ensures Gone(old(schedule), schedule) == First(old(schedule))
      ensures broken <==> old(schedule) != [] && old(schedule)[0].broken
      ensures cut == if old(schedule) == [] then None else old(schedule)[0].cut
    {
      if |schedule| == 0 {
        NothingYet(keys, Now());
        return false, None;
      }
      var turn := schedule[0];
      schedule := schedule[1..];
      ghost var gone := Gone(old(schedule), schedule);
      assert gone == [turn] && Steps(gone) == turn.before + Steps(gone[1..]) == turn.before;
      ServerActs(turn.before, read);
      ServedKeeps(keys, old(items), old(nextCipher), turn.before);
      return turn.broken, turn.cut;
    }

    /** The guarded write: it takes effect only on the row as it was read. */
    method CompareAndSwap(key: Key, item: Item, next: Item, ghost read: seq<(Key, Item)>) returns (done: bool)
      requires Valid() && item.Sealed? && Stands(read) && (key, item) in read
      requires next.Sealed? && Held(next) == Held(item) && next.box.cipher < nextCipher
      requires forall r :: r in read && r.1.Sealed? ==> r.1.box.cipher != next.box.cipher
      modifies this`items
      ensures Valid() && Stands(read)
      ensures done <==> key in old(items) && old(items)[key] == item
      ensures items == if done then old(items)[key := next] else old(items)
    {
      if key !in items || items[key].Text? {
        return false;
      }
      if items[key].version != item.version || items[key].box.cipher != item.box.cipher {
        return false;
      }
      items := items[key := next];
      return true;
    }

    /** Re-wraps one item as it was read: a failure is counted, and a row that
        changed meanwhile is left as the server made it. */
    method RewrapOne(key: Key, item: Item, ghost read: seq<(Key, Item)>) returns (outcome: RewrapOutcome)
      requires Valid() && Stands(read) && (key, item) in read && item.Sealed?
      modifies this`items, this`nextCipher, this`writes, this`schedule
      ensures Valid() && Stands(read)
      ensures Rewrapped(keys, key, item, old(Now()), Now(), outcome)
    {
      var plain := Open(keys, key, item);
      if plain.None? {
        return RewrapFailed;
      }
      var next := Seal(key, plain.value);
      ServedKeeps(keys, items, nextCipher, Steps(First(schedule)));
      var broken, _ := Statement(read);
      if broken {
        return RewrapFailed;
      }
      var done := CompareAndSwap(key, item, next, read);
      return if done then RewrapMoved else RewrapSkipped;
    }

    /** The rows of one store, read at once: all of them, or the stale ones; the first
        few, when the listing is cut short. */
    method ReadRows(store: string, onlyStale: bool, cut: Option<nat>) returns (rows: seq<(Key, Item)>)
      requires Valid()
      ensures forall r :: r in rows ==> r.0 in items && items[r.0] == r.1 && r.0.store == store
      ensures cut.None? ==> forall k :: k in items && k.store == store && (!onlyStale || !Current(keys, items[k])) ==> (k, items[k]) in rows
      ensures cut.Some? ==> |rows| <= cut.value
      ensures onlyStale && (cut.None? || |Stale(keys, items, store)| <= cut.value) ==>
                forall k :: k in Stale(keys, items, store) ==> (k, items[k]) in rows
      ensures onlyStale ==> forall r :: r in rows ==> !Current(keys, r.1)
      ensures Stands(rows)
    {
      rows := [];
      var all := items.Keys;
      var left := all;
      ghost var taken: set<Key> := {};
      while left != {} && (cut.Some? ==> |rows| < cut.value)
        invariant left <= all && (cut.Some? ==> |rows| <= cut.value)
        invariant forall r :: r in rows ==> r.0 in items && items[r.0] == r.1 && r.0.store == store
        invariant onlyStale ==> forall r :: r in rows ==> !Current(keys, r.1)
        invariant |taken| == |rows| && taken !! left && forall k :: k in taken ==> k in items && (k, items[k]) in rows
        invariant onlyStale ==> taken <= Stale(keys, items, store)
        invariant forall k :: k in all - left && k.store == store && (!onlyStale || !Current(keys, items[k])) ==> (k, items[k]) in rows
        decreases |left|
      {
        var k :| k in left;
        left := left - {k};
        if k.store == store && (!onlyStale || !Current(keys, items[k])) {
          rows := rows + [(k, items[k])];
          taken := taken + {k};
        }
      }
      if onlyStale && |Stale(keys, items, store)| <= |taken| {
        SameWhenAsMany(taken, Stale(keys, items, store));
      }
    }

    /** The rows one by one, as they were read. */
    method RewrapRows(rows: seq<(Key, Item)>) returns (moved: nat, failed: nat)
      requires Valid() && Stands(rows) && forall r :: r in rows ==> r.0 in items && items[r.0] == r.1
      requires forall r :: r in rows ==> !Current(keys, r.1)
      modifies this`items, this`nextCipher, this`writes, this`schedule
      ensures Valid() && Passing(keys, old(Now()), Now(), rows, |rows|, moved, failed)
      ensures Untouched(old(Now()), Now(), rows)
    {
      ghost var path: seq<Moment>, ways: seq<RewrapOutcome> := [Now()], [];
      moved, failed := 0, 0;
      for i := 0 to |rows|
        invariant Valid() && Stands(rows) && Walked(keys, rows, path, ways) && |ways| == i
        invariant path[0] == old(Now()) && path[i] == Now()
        invariant moved == Times(ways, RewrapMoved) && failed == Times(ways, RewrapFailed)
      {
        assert rows[i] in rows;
        var outcome := RewrapOne(rows[i].0, rows[i].1, rows);
        WalkedOn(keys, rows, path, ways, Now(), outcome);
        path, ways := path + [Now()], ways + [outcome];
        moved := moved + if outcome == RewrapMoved then 1 else 0;
        failed := failed + if outcome == RewrapFailed then 1 else 0;
      }
      WalkedPasses(keys, rows, path, ways);
      WalkedTouches(keys, rows, path, ways);
    }

    /** An envelope table: every row at another version, or unbound. That its listing was
        cut short goes unseen: with no server about and every value opening, no failure is
        counted, yet all is current exactly if the listing had them all. */
    method RewrapEnvelopeTable(table: string) returns (moved: nat, failed: nat)
      requires Valid()
      modifies this`items, this`nextCipher, this`writes, this`schedule
      ensures Valid() && Kept(keys, old(Now()), Now())
      ensures Passed(keys, {table}, old(Now()), Now(), moved, failed)
      ensures old(schedule) != [] && old(Calm(schedule) && Quiet(schedule) && AllOpen(keys, items, {table})) ==>
        && failed == 0
        && (AllCurrent(keys, items, {table}) <==> old(schedule[0].cut.None? || |Stale(keys, items, table)| <= schedule[0].cut.value))
    {
      var unreadable, cut := Statement([]);
      if unreadable {
        NoneMoved(keys, old(Now()), Now());
        return 0, 1;
      }
      var todo := ReadRows(table, true, cut);
      ghost var m := Now();
      moved, failed := RewrapRows(todo);
      StoreDone(keys, table, old(Now()), m, Now(), todo, moved, failed);
      CutExactly(keys, table, old(Now()), m, Now(), todo, moved, failed, cut);
    }

    /** One token of a settings column: a text that is no token, or one already
        current and bound, is left alone. */
    method RewrapToken(key: Key, item: Item, ghost read: seq<(Key, Item)>) returns (outcome: RewrapOutcome)
      requires Valid() && Stands(read) && (key, item) in read
      modifies this`items, this`nextCipher, this`writes, this`schedule
      ensures Valid() && Stands(read)
      ensures if Current(keys, item) then outcome == RewrapSkipped && Now() == old(Now())
              else Rewrapped(keys, key, item, old(Now()), Now(), outcome)
    {
      if item.Text? || (item.version == keys.active && item.bound) {
        return RewrapSkipped;
      }
      outcome := RewrapOne(key, item, read);
    }

    /** The tokens one by one, as they were read. */
    method RewrapTokens(rows: seq<(Key, Item)>) returns (moved: nat, failed: nat)
      requires Valid() && Stands(rows) && forall r :: r in rows ==> r.0 in items && items[r.0] == r.1
      modifies this`items, this`nextCipher, this`writes, this`schedule
      ensures Valid() && Passing(keys, old(Now()), Now(), rows, |rows|, moved, failed)
    {
      ghost var path: seq<Moment>, ways: seq<RewrapOutcome> := [Now()], [];
      moved, failed := 0, 0;
      for i := 0 to |rows|
        invariant Valid() && Stands(rows) && Walked(keys, rows, path, ways) && |ways| == i
        invariant path[0] == old(Now()) && path[i] == Now()
        invariant moved == Times(ways, RewrapMoved) && failed == Times(ways, RewrapFailed)
      {
        assert rows[i] in rows;
        var outcome := RewrapToken(rows[i].0, rows[i].1, rows);
        WalkedOn(keys, rows, path, ways, Now(), outcome);
        path, ways := path + [Now()], ways + [outcome];
        moved := moved + if outcome == RewrapMoved then 1 else 0;
        failed := failed + if outcome == RewrapFailed then 1 else 0;
      }
      WalkedPasses(keys, rows, path, ways);
    }

    /** A settings column: each of its tokens in turn. */
    method RewrapColumn(column: string) returns (moved: nat, failed: nat)
      requires Valid()
      modifies this`items, this`nextCipher, this`writes, this`schedule
      ensures Valid() && Kept(keys, old(Now()), Now())
      ensures Passed(keys, {column}, old(Now()), Now(), moved, failed)
    {
      var unreadable, _ := Statement([]);
      if unreadable {
        NoneMoved(keys, old(Now()), Now());
        return 0, 1;
      }
      var toks := ReadRows(column, false, None);
      ghost var m := Now();
      moved, failed := RewrapTokens(toks);
      StoreDone(keys, column, old(Now()), m, Now(), toks, moved, failed);
    }

    /** The envelope tables, one after the other. */
    method RewrapTables(tables: seq<string>) returns (moved: nat, failed: nat)
      requires Valid()
      modifies this`items, this`nextCipher, this`writes, this`schedule
      ensures Valid() && Kept(keys, old(Now()), Now())
      ensures Passed(keys, Stores(tables), old(Now()), Now(), moved, failed)
    {
      ghost var l := Now();
      NothingYet(keys, l);
      NoneMoved(keys, l, l);
      moved, failed := 0, 0;
      for i := 0 to |tables|
        invariant Valid() && Kept(keys, l, Now()) && Passed(keys, Stores(tables[..i]), l, Now(), moved, failed)
      {
        ghost var m := Now();
        var here, lost := RewrapEnvelopeTable(tables[i]);
        OneMoreStore(tables, i);
        PassedBoth(keys, Stores(tables[..i]), {tables[i]}, l, m, Now(), moved, failed, here, lost);
        moved, failed := moved + here, failed + lost;
      }
      assert tables[..|tables|] == tables;
    }

    /** The settings columns, one after the other. */
    method RewrapColumns(columns: seq<string>) returns (moved: nat, failed: nat)
      requires Valid()
      modifies this`items, this`nextCipher, this`writes, this`schedule
      ensures Valid() && Kept(keys, old(Now()), Now())
      ensures Passed(keys, Stores(columns), old(Now()), Now(), moved, failed)
    {
      ghost var l := Now();
      NothingYet(keys, l);
      NoneMoved(keys, l, l);
      moved, failed := 0, 0;
      for i := 0 to |columns|
        invariant Valid() && Kept(keys, l, Now()) && Passed(keys, Stores(columns[..i]), l, Now(), moved, failed)
      {
        ghost var m := Now();
        var here, lost := RewrapColumn(columns[i]);
        OneMoreStore(columns, i);
        PassedBoth(keys, Stores(columns[..i]), {columns[i]}, l, m, Now(), moved, failed, here, lost);
        moved, failed := moved + here, failed + lost;
      }
      assert columns[..|columns|] == columns;
    }

    /** The tables, then the columns. */
    method RewrapStores(tables: seq<string>, columns: seq<string>) returns (moved: nat, failed: nat)
      requires Valid()
      modifies this`items, this`nextCipher, this`writes, this`schedule
      ensures Valid() && Kept(keys, old(Now()), Now())
      ensures Passed(keys, Stores(tables + columns), old(Now()), Now(), moved, failed)
    {
      ghost var l := Now();
      moved, failed := RewrapTables(tables);
      ghost var m := Now();
      var here, lost := RewrapColumns(columns);
      assert Stores(tables + columns) == Stores(tables) + Stores(columns);
      PassedBoth(keys, Stores(tables), Stores(columns), l, m, Now(), moved, failed, here, lost);
      moved, failed := moved + here, failed + lost;
    }

    /** The whole pass over the stores. What is stored, and where, is what the server
        last saved there, or was saved before: the pass writes no value of its own, over
        none of the server's, and removes none. With no failure counted, and no listing cut
        short, every item is at the active version and bound; where that was so already
        nothing moves. A value that does not open keeps none of the others from being
        re-wrapped. */
    method RewrapAll(tables: seq<string>, columns: seq<string>) returns (moved: nat, failed: nat)
      requires Valid()
      modifies this`items, this`nextCipher, this`writes, this`schedule
      ensures Valid() && Kept(keys, old(Now()), Now())
      ensures Faithful(items, Replay(Plains(old(items)), Steps(Gone(old(schedule), schedule))))
      ensures Passed(keys, Stores(tables + columns), old(Now()), Now(), moved, failed)
      ensures failed == 0 && old(Whole(schedule)) ==>
        forall k :: k in items && k.store in tables + columns && items[k].Sealed? ==> items[k].version == keys.active && items[k].bound
    {
      ghost var l := Now();
      moved, failed := RewrapStores(tables, columns);
      StoredIsSaved(keys, l, Now(), saved0);
      CurrentExactly(keys, items, tables + columns);
    }

    /** What is sealed under which version, without opening anything. */
    method Survey(store: string) returns (byVersion: map<int, nat>)
      ensures Counts(byVersion, items, store)
    {
      byVersion := map[];
      var left := items.Keys;
      while left != {}
        invariant left <= items.Keys && Counts(byVersion, items - left, store)
      {
        var k :| k in left;
        CountOne(byVersion, items - left, store, k, items[k]);
        assert items - (left - {k}) == (items - left)[k := items[k]];
        left := left - {k};
        if k.store == store && items[k].Sealed? {
          byVersion := OneMore(byVersion, items[k].version);
        }
      }
      assert items - left == items;
    }

    /** The command: it surveys first, store by store, and leaves everything as it is when
        it finds nothing at another version, whether or not every row is bound. */
    method RewrapSecrets(dryRun: bool, tables: seq<string>, columns: seq<string>) returns (exit: int, acted: bool)
      requires Valid()
      modifies this`items, this`nextCipher, this`writes, this`schedule
      ensures Valid() && Kept(keys, old(Now()), Now()) && exit in {0, 1}
      ensures Faithful(items, Replay(Plains(old(items)), Steps(Gone(old(schedule), schedule))))
      ensures !acted ==> OnlyServed(keys, old(Now()), Now())
      ensures acted && old(Calm(schedule) && Whole(schedule)) ==> NoneLeft(keys, items, Stores(tables + columns))
      ensures acted ==> !dryRun && Outstanding(old(items), Stores(tables + columns), keys.active) != {}
      ensures acted ==>
        exists k :: k in old(items) && k.store in tables + columns && old(items)[k].Sealed? && old(items)[k].version != keys.active
      ensures exit == 0 && !dryRun && !acted ==> Outstanding(items, Stores(tables + columns), keys.active) == {}
      ensures exit == 0 && !dryRun && old(Whole(schedule)) ==>
        (AllCurrent(keys, items, Stores(tables + columns)) <==> acted || AllBound(items, Stores(tables + columns)))
      ensures exit == 0 && !dryRun && old(schedule) == [] ==>
        (AllCurrent(keys, items, Stores(tables + columns)) <==>
         Outstanding(old(items), Stores(tables + columns), keys.active) != {} || AllBound(old(items), Stores(tables + columns)))
      ensures old(Calm(schedule)) && (dryRun || !acted || old(AllOpen(keys, items, Stores(tables + columns)))) ==> exit == 0
    {
      ghost var l := Now();
      var stores := tables + columns;
      var readable, outstanding := SurveyAll(stores);
      NothingOutstanding(keys, items, Stores(stores));
      assert forall k :: k in Outstanding(l.items, Stores(stores), keys.active) ==>
               k in l.items && k.store in stores && l.items[k].Sealed? && l.items[k].version != keys.active;
      StoredIsSaved(keys, l, Now(), saved0);
      if !readable {
        return 1, false;
      }
      if dryRun || !outstanding {
        return 0, false;
      }
      ghost var m := Now();
      var moved, failed := RewrapAll(tables, columns);
      KeptOn(keys, l, m, Now());
      StillCurrent(keys, l, m, Stores(stores));
      StoredIsSaved(keys, l, Now(), saved0);
      return if failed > 0 then 1 else 0, true;
    }

    /** Every store's survey, one after the other: what it finds outstanding was so when
        it began, and what it does not find is not outstanding when it ends. */
    method SurveyAll(stores: seq<string>) returns (readable: bool, outstanding: bool)
      requires Valid()
      modifies this`items, this`nextCipher, this`writes, this`schedule
      ensures Valid() && OnlyServed(keys, old(Now()), Now())
      ensures outstanding ==> Outstanding(old(items), Stores(stores), keys.active) != {}
      ensures readable && !outstanding ==> Outstanding(items, Stores(stores), keys.active) == {}
      ensures old(Calm(schedule)) ==> readable
      ensures old(schedule) == [] ==> items == old(items)
    {
      ghost var l := Now();
      NothingYet(keys, l);
      outstanding := false;
      for i := 0 to |stores|
        invariant Valid() && OnlyServed(keys, l, Now())
        invariant outstanding ==> Outstanding(l.items, Stores(stores), keys.active) != {}
        invariant !outstanding ==> Outstanding(items, Stores(stores[..i]), keys.active) == {}
      {
        ghost var m := Now();
        var broken, _ := Statement([]);
        OnlyServedOn(keys, l, m, Now());
        if broken {
          StillCurrent(keys, l, m, {});
          return false, outstanding;
        }
        var counts := Survey(stores[i]);
        SurveyedOne(keys, l, m, Now(), stores, i, counts);
        outstanding := outstanding || exists v :: v in counts && v != keys.active;
      }
      assert stores[..|stores|] == stores;
      readable := true;
    }
  }

  /** What the pass over some stores comes to. With no failure counted, and no listing
      cut short, everything there is current; and where everything was nothing moves.
      Unless a statement fails, a failure is counted only for a value that does not open,
      and, listings being whole, only those are left. What is counted as moved is, with no
      server about, what changed. */
  ghost predicate Passed(keys: Keys, stores: set<string>, m: Moment, n: Moment, moved: nat, failed: nat) {
    && (failed == 0 && Whole(m.turns) ==> AllCurrent(keys, n.items, stores))
    && (Calm(m.turns) && Whole(m.turns) ==> NoneLeft(keys, n.items, stores))
    && (Calm(m.turns) && AllOpen(keys, m.items, stores) ==> failed == 0)
    && (AllCurrent(keys, m.items, stores) ==> moved == 0 && OnlyServed(keys, m, n))
    && MovedExactly(keys, m, n, moved)
  }

  /** What the pass makes of one row, read when its ciphertext was there. */
  ghost predicate RowStep(keys: Keys, row: (Key, Item), n: Moment, o: Moment, outcome: RewrapOutcome) {
    && (row.1.Sealed? ==> row.1.box.cipher < n.next)
    && if Current(keys, row.1) then outcome == RewrapSkipped && o == n
       else Rewrapped(keys, row.0, row.1, n, o, outcome)
  }

  /** The first rows one after the other: the moments between, and what became of each. */
  ghost predicate Walked(keys: Keys, rows: seq<(Key, Item)>, path: seq<Moment>, ways: seq<RewrapOutcome>)
    decreases |ways|
  {
    && |path| == |ways| + 1 && |ways| <= |rows|
    && (ways != [] ==>
          var i := |ways| - 1;
          Walked(keys, rows, path[..i + 1], ways[..i]) && RowStep(keys, rows[i], path[i], path[i + 1], ways[i]))
  }

  function Times(ways: seq<RewrapOutcome>, outcome: RewrapOutcome): nat
    decreases |ways|
  {
    if ways == [] then 0
    else Times(ways[..|ways| - 1], outcome) + if ways[|ways| - 1] == outcome then 1 else 0
  }

  lemma WalkedOn(keys: Keys, rows: seq<(Key, Item)>, path: seq<Moment>, ways: seq<RewrapOutcome>, o: Moment, outcome: RewrapOutcome)
    requires Walked(keys, rows, path, ways) && |ways| < |rows|
    requires RowStep(keys, rows[|ways|], path[|ways|], o, outcome)
    ensures Walked(keys, rows, path + [o], ways + [outcome])
    ensures forall w :: Times(ways + [outcome], w) == Times(ways, w) + if outcome == w then 1 else 0
  {
    assert (path + [o])[..|ways| + 1] == path && (ways + [outcome])[..|ways|] == ways;
  }

  lemma {:induction false} WalkedPasses(keys: Keys, rows: seq<(Key, Item)>, path: seq<Moment>, ways: seq<RewrapOutcome>)
    requires Walked(keys, rows, path, ways)
    requires forall r :: r in rows ==> r.0 in path[0].items && path[0].items[r.0] == r.1
    ensures Passing(keys, path[0], path[|ways|], rows, |ways|, Times(ways, RewrapMoved), Times(ways, RewrapFailed))
    decreases |ways|
  {
    if ways == [] {
      NothingYet(keys, path[0]);
      NoneMoved(keys, path[0], path[0]);
    } else {
      var i := |ways| - 1;
      assert rows[i] in rows;
      WalkedPasses(keys, rows, path[..i + 1], ways[..i]);
      RowPassed(keys, path[0], path[i], path[i + 1], rows, i, Times(ways[..i], RewrapMoved), Times(ways[..i], RewrapFailed), ways[i]);
    }
  }

  lemma {:induction false} WalkedTouches(keys: Keys, rows: seq<(Key, Item)>, path: seq<Moment>, ways: seq<RewrapOutcome>)
    requires Walked(keys, rows, path, ways) && forall r :: r in rows ==> !Current(keys, r.1)
    ensures Untouched(path[0], path[|ways|], rows)
    decreases |ways|
  {
    if ways != [] {
      var i := |ways| - 1;
      assert rows[i] in rows;
      WalkedTouches(keys, rows, path[..i + 1], ways[..i]);
      UntouchedOn(keys, path[0], path[i], path[i + 1], rows, rows[i], ways[i]);
    }
  }

  lemma RowPassed(keys: Keys, m: Moment, n: Moment, o: Moment, rows: seq<(Key, Item)>, i: nat,
                  moved: nat, failed: nat, outcome: RewrapOutcome)
    requires i < |rows| && Passing(keys, m, n, rows, i, moved, failed)
    requires rows[i].0 in m.items && m.items[rows[i].0] == rows[i].1 && RowStep(keys, rows[i], n, o, outcome)
    ensures Passing(keys, m, o, rows, i + 1, moved + (if outcome == RewrapMoved then 1 else 0),
                    failed + if outcome == RewrapFailed then 1 else 0)
  {
    SettledHere(keys, rows[i], n, o, outcome);
    NothingYet(keys, n);
    if !Current(keys, rows[i].1) {
      RewrappedKept(keys, rows[i].0, rows[i].1, n, o, outcome);
    }
    RowMoved(keys, m, n, o, rows[i], moved, outcome);
    RowDealtWith(keys, m, n, o, rows, i, moved, failed, outcome);
  }

  lemma RowDealtWith(keys: Keys, m: Moment, n: Moment, o: Moment, rows: seq<(Key, Item)>, i: nat,
                     moved: nat, failed: nat, outcome: RewrapOutcome)
    requires i < |rows| && Passing(keys, m, n, rows, i, moved, failed) && Kept(keys, n, o)
    requires Current(keys, rows[i].1) ==> outcome == RewrapSkipped && o == n
    requires outcome != RewrapFailed ==> Settled(keys, o.items, rows[i])
    requires outcome == RewrapFailed && Calm(n.turns) ==> Unopened(keys, rows[i])
    requires MovedExactly(keys, m, o, moved + if outcome == RewrapMoved then 1 else 0)
    ensures Passing(keys, m, o, rows, i + 1, moved + (if outcome == RewrapMoved then 1 else 0),
                    failed + if outcome == RewrapFailed then 1 else 0)
  {
    KeptOn(keys, m, n, o);
    StillCalm(m.turns, n.turns);
    DealtOn(keys, n.items, o.items, rows, i, failed, outcome == RewrapFailed, Calm(m.turns));
  }

  lemma DealtOn(keys: Keys, before: map<Key, Item>, after: map<Key, Item>, rows: seq<(Key, Item)>, i: nat, failed: nat, fails: bool, calm: bool)
    requires i < |rows| && DealtWith(keys, before, rows, i, failed, calm) && RowsKept(keys, before, after)
    requires !fails ==> Settled(keys, after, rows[i])
    requires fails && calm ==> Unopened(keys, rows[i])
    ensures DealtWith(keys, after, rows, i + 1, failed + if fails then 1 else 0, calm)
  {
    SettledOn(keys, before, after, rows, i);
  }

  /** The rows that are no longer what they were. */
  ghost function Changed(before: map<Key, Item>, after: map<Key, Item>): set<Key> {
    set k | k in before && k in after && after[k] != before[k]
  }

  /** With no server about, what is counted as moved is exactly the rows that changed, and
      those were not current and are. */
  ghost predicate MovedExactly(keys: Keys, m: Moment, n: Moment, moved: nat) {
    Quiet(m.turns) ==>
      && Quiet(n.turns) && n.items.Keys == m.items.Keys && moved == |Changed(m.items, n.items)|
      && forall k :: k in Changed(m.items, n.items) ==> !Current(keys, m.items[k]) && Current(keys, n.items[k])
  }

  lemma NoneMoved(keys: Keys, m: Moment, n: Moment)
    requires OnlyServed(keys, m, n) && Gone(m.turns, n.turns) <= m.turns
    ensures MovedExactly(keys, m, n, 0)
  {
    if Quiet(m.turns) {
      QuietSteps(Gone(m.turns, n.turns));
      StillCalm(m.turns, n.turns);
      assert Changed(m.items, n.items) == {};
    }
  }

  lemma OneMoreChanged(before: map<Key, Item>, mid: map<Key, Item>, key: Key, item: Item)
    requires key in before && mid.Keys == before.Keys && mid[key] == before[key] != item
    ensures |Changed(before, mid[key := item])| == |Changed(before, mid)| + 1
    ensures forall k :: k in Changed(before, mid[key := item]) <==> k in Changed(before, mid) || k == key
  {
    assert Changed(before, mid[key := item]) == Changed(before, mid) + {key};
  }

  lemma RowMoved(keys: Keys, m: Moment, n: Moment, o: Moment, row: (Key, Item), moved: nat, outcome: RewrapOutcome)
    requires MovedExactly(keys, m, n, moved) && row.0 in m.items && m.items[row.0] == row.1
    requires row.1.Sealed? ==> row.1.box.cipher < n.next
    requires if Current(keys, row.1) then outcome == RewrapSkipped && o == n
             else Rewrapped(keys, row.0, row.1, n, o, outcome)
    ensures MovedExactly(keys, m, o, moved + if outcome == RewrapMoved then 1 else 0)
  {
    if Quiet(m.turns) && !Current(keys, row.1) && Open(keys, row.0, row.1).Some? {
      QuietSteps(First(n.turns));
      StillCalm(n.turns, o.turns);
      if outcome == RewrapMoved {
        OneMoreChanged(m.items, n.items, row.0, o.items[row.0]);
      }
    }
  }

  lemma MovedBoth(keys: Keys, l: Moment, m: Moment, n: Moment, a: nat, b: nat)
    requires MovedExactly(keys, l, m, a) && MovedExactly(keys, m, n, b)
    ensures MovedExactly(keys, l, n, a + b)
  {
    if Quiet(l.turns) {
      var one, two := Changed(l.items, m.items), Changed(m.items, n.items);
      forall k ensures k in Changed(l.items, n.items) <==> k in one || k in two {
      }
      assert Changed(l.items, n.items) == one + two;
      assert one !! two;
    }
  }

  lemma SettledOn(keys: Keys, before: map<Key, Item>, after: map<Key, Item>, rows: seq<(Key, Item)>, i: nat)
    requires i <= |rows| && RowsKept(keys, before, after)
    ensures forall j :: 0 <= j < i && Settled(keys, before, rows[j]) ==> Settled(keys, after, rows[j])
  {
  }

  lemma SettledHere(keys: Keys, row: (Key, Item), n: Moment, o: Moment, outcome: RewrapOutcome)
    requires if Current(keys, row.1) then outcome == RewrapSkipped && o == n
             else Rewrapped(keys, row.0, row.1, n, o, outcome)
    ensures outcome != RewrapFailed ==> Settled(keys, o.items, row)
    ensures Calm(n.turns) && outcome == RewrapFailed ==> Unopened(keys, row)
  {
  }

  lemma UntouchedOn(keys: Keys, m: Moment, n: Moment, o: Moment, rows: seq<(Key, Item)>, row: (Key, Item), outcome: RewrapOutcome)
    requires row in rows && Untouched(m, n, rows) && row.1.Sealed? && Rewrapped(keys, row.0, row.1, n, o, outcome)
    ensures Untouched(m, o, rows)
  {
    if Quiet(m.turns) {
      QuietSteps(First(n.turns));
      if Open(keys, row.0, row.1).Some? {
        StillCalm(n.turns, o.turns);
      }
    }
  }

  lemma StillCalm(before: seq<Turn>, after: seq<Turn>)
    requires Later(before, after)
    ensures Calm(before) ==> Calm(after)
    ensures Whole(before) ==> Whole(after)
    ensures Quiet(before) ==> Quiet(after)
  {
    forall i | 0 <= i < |after| ensures after[i] in before {
      assert after[i] == before[|before| - |after| + i];
    }
  }

  lemma StoreDone(keys: Keys, store: string, l: Moment, m: Moment, n: Moment, rows: seq<(Key, Item)>, moved: nat, failed: nat)
    requires OnlyServed(keys, l, m)
    requires Whole(l.turns) ==> forall k :: k in m.items && k.store == store && !Current(keys, m.items[k]) ==> (k, m.items[k]) in rows
    requires forall r :: r in rows ==> r.0 in m.items && m.items[r.0] == r.1 && r.0.store == store
    requires Passing(keys, m, n, rows, |rows|, moved, failed)
    ensures Kept(keys, l, n) && Passed(keys, {store}, l, n, moved, failed)
  {
    KeptOn(keys, l, m, n);
    NoneMoved(keys, l, m);
    MovedBoth(keys, l, m, n, 0, moved);
    StillCurrent(keys, l, m, {store});
    if Whole(l.turns) {
      AllSettled(keys, m, n, rows, store);
    }
    NoFailure(keys, m.items, n.items, rows, store, failed, Calm(m.turns));
    NothingToMove(keys, m.items, rows, store);
  }

  lemma NoFailure(keys: Keys, items: map<Key, Item>, after: map<Key, Item>, rows: seq<(Key, Item)>, store: string, failed: nat, calm: bool)
    requires forall r :: r in rows ==> r.0 in items && items[r.0] == r.1 && r.0.store == store
    requires DealtWith(keys, after, rows, |rows|, failed, calm)
    ensures calm && AllOpen(keys, items, {store}) ==> failed == 0
  {
    if calm && AllOpen(keys, items, {store}) && failed > 0 {
      var j :| 0 <= j < |rows| && Unopened(keys, rows[j]);
      assert rows[j] in rows;
    }
  }

  lemma NothingToMove(keys: Keys, items: map<Key, Item>, rows: seq<(Key, Item)>, store: string)
    requires forall r :: r in rows ==> r.0 in items && items[r.0] == r.1 && r.0.store == store
    ensures AllCurrent(keys, items, {store}) ==> forall j :: 0 <= j < |rows| ==> Current(keys, rows[j].1)
  {
    forall j | 0 <= j < |rows| ensures rows[j] in rows { }
  }

  lemma SameWhenAsMany<T>(a: set<T>, b: set<T>)
    requires a <= b && |b| <= |a|
    ensures a == b
  {
    assert b == a + (b - a);
  }

  lemma CutExactly(keys: Keys, store: string, l: Moment, m: Moment, n: Moment, rows: seq<(Key, Item)>, moved: nat, failed: nat, cut: Option<nat>)
    requires OnlyServed(keys, l, m) && Gone(l.turns, m.turns) == First(l.turns)
    requires Passing(keys, m, n, rows, |rows|, moved, failed) && Untouched(m, n, rows)
    requires forall r :: r in rows ==> r.0 in m.items && m.items[r.0] == r.1 && r.0.store == store && !Current(keys, r.1)
    requires cut.Some? ==> |rows| <= cut.value
    requires cut.None? || |Stale(keys, m.items, store)| <= cut.value ==>
               forall k :: k in Stale(keys, m.items, store) ==> (k, m.items[k]) in rows
    ensures Calm(l.turns) && Quiet(l.turns) && AllOpen(keys, l.items, {store}) ==>
              && failed == 0
              && (AllCurrent(keys, n.items, {store}) <==> cut.None? || |Stale(keys, l.items, store)| <= cut.value)
  {
    if Calm(l.turns) && Quiet(l.turns) && AllOpen(keys, l.items, {store}) {
      QuietSteps(First(l.turns));
      assert m.items == l.items;
      StillCalm(l.turns, m.turns);
      assert failed == 0 by {
        forall j | 0 <= j < |rows| ensures !Unopened(keys, rows[j]) {
          assert rows[j] in rows;
        }
      }
      if cut.None? || |Stale(keys, l.items, store)| <= cut.value {
        AllSettled(keys, m, n, rows, store);
      } else {
        var k := Unlisted(rows, Stale(keys, l.items, store));
        assert k in n.items && n.items[k] == m.items[k];
      }
    }
  }

  lemma Unlisted(rows: seq<(Key, Item)>, all: set<Key>) returns (k: Key)
    requires |rows| < |all|
    ensures k in all && forall r :: r in rows ==> r.0 != k
  {
    var named := NamedCount(rows);
    Fewer(all, named);
    k :| k in all && k !in named;
  }

  lemma Fewer<T>(a: set<T>, b: set<T>)
    ensures a <= b ==> |a| <= |b|
  {
    if a <= b {
      assert b == a + (b - a);
    }
  }

  lemma {:induction false} NamedCount(rows: seq<(Key, Item)>) returns (named: set<Key>)
    ensures |named| <= |rows| && forall j :: 0 <= j < |rows| ==> rows[j].0 in named
    decreases |rows|
  {
    if rows == [] {
      named := {};
    } else {
      named := NamedCount(rows[..|rows| - 1]);
      named := named + {rows[|rows| - 1].0};
    }
  }

  /** The rows read were all that needed it. */
  lemma AllSettled(keys: Keys, m: Moment, n: Moment, rows: seq<(Key, Item)>, store: string)
    requires Kept(keys, m, n)
    requires forall k :: k in m.items && k.store == store && !Current(keys, m.items[k]) ==> (k, m.items[k]) in rows
    ensures (forall j :: 0 <= j < |rows| ==> Settled(keys, n.items, rows[j])) ==> AllCurrent(keys, n.items, {store})
    ensures (forall j :: 0 <= j < |rows| ==> Settled(keys, n.items, rows[j]) || Unopened(keys, rows[j])) ==>
              NoneLeft(keys, n.items, {store})
  {
    forall k | k in n.items && k.store == store && !Current(keys, n.items[k])
      ensures exists j :: 0 <= j < |rows| && rows[j] == (k, n.items[k])
    {
      assert (k, n.items[k]) in rows;
    }
  }

  lemma CurrentExactly(keys: Keys, items: map<Key, Item>, stores: seq<string>)
    ensures AllCurrent(keys, items, Stores(stores)) <==>
              forall k :: k in items && k.store in stores && items[k].Sealed? ==> items[k].version == keys.active && items[k].bound
  {
  }

  lemma OneMoreStore(stores: seq<string>, i: nat)
    requires i < |stores|
    ensures Stores(stores[..i + 1]) == Stores(stores[..i]) + {stores[i]}
  {
    assert stores[..i + 1] == stores[..i] + [stores[i]];
  }

  lemma PassedBoth(keys: Keys, a: set<string>, b: set<string>, l: Moment, m: Moment, n: Moment,
                   moved: nat, failed: nat, movedHere: nat, failedHere: nat)
    requires Kept(keys, l, m) && Kept(keys, m, n)
    requires Passed(keys, a, l, m, moved, failed) && Passed(keys, b, m, n, movedHere, failedHere)
    ensures Kept(keys, l, n) && Passed(keys, a + b, l, n, moved + movedHere, failed + failedHere)
  {
    KeptOn(keys, l, m, n);
    MovedBoth(keys, l, m, n, moved, movedHere);
    StillCurrent(keys, l, m, b);
    StillCurrent(keys, m, n, a);
    OfBoth(keys, l.items, a, b);
    OfBoth(keys, n.items, a, b);
    if AllCurrent(keys, l.items, a + b) {
      OnlyServedOn(keys, l, m, n);
    }
  }

  lemma OfBoth(keys: Keys, items: map<Key, Item>, a: set<string>, b: set<string>)
    ensures AllCurrent(keys, items, a + b) <==> AllCurrent(keys, items, a) && AllCurrent(keys, items, b)
    ensures AllOpen(keys, items, a + b) <==> AllOpen(keys, items, a) && AllOpen(keys, items, b)
    ensures NoneLeft(keys, items, a + b) <==> NoneLeft(keys, items, a) && NoneLeft(keys, items, b)
  {
  }

  /** Every item that is not current can be opened. */
  ghost predicate AllOpen(keys: Keys, items: map<Key, Item>, stores: set<string>) {
    forall k :: k in items && k.store in stores && !Current(keys, items[k]) ==> Open(keys, k, items[k]).Some?
  }

  /** No item that could be re-wrapped is left. */
  ghost predicate NoneLeft(keys: Keys, items: map<Key, Item>, stores: set<string>) {
    forall k :: k in items && k.store in stores && !Current(keys, items[k]) ==> Open(keys, k, items[k]).None?
  }

  /** What was current, or could be opened, still is. */
  lemma StillCurrent(keys: Keys, m: Moment, n: Moment, stores: set<string>)
    requires Kept(keys, m, n)
    ensures AllCurrent(keys, m.items, stores) ==> AllCurrent(keys, n.items, stores)
    ensures AllOpen(keys, m.items, stores) ==> AllOpen(keys, n.items, stores)
    ensures NoneLeft(keys, m.items, stores) ==> NoneLeft(keys, n.items, stores)
    ensures Outstanding(n.items, stores, keys.active) <= Outstanding(m.items, stores, keys.active)
    ensures Calm(m.turns) ==> Calm(n.turns)
    ensures Whole(m.turns) ==> Whole(n.turns)
  {
    StillCalm(m.turns, n.turns);
  }

  /** What is stored is what the server's writes, in order, make of what was stored. */
  lemma StoredIsSaved(keys: Keys, m: Moment, n: Moment, saved0: map<Key, Plain>)
    requires Kept(keys, m, n) && Faithful(m.items, Replay(saved0, m.writes)) && Faithful(n.items, Replay(saved0, n.writes))
    ensures Faithful(n.items, Replay(Plains(m.items), Steps(Gone(m.turns, n.turns))))
  {
    ReplayOn(saved0, m.writes, Steps(Gone(m.turns, n.turns)));
    assert Plains(m.items) == Replay(saved0, m.writes);
  }

  /** Nothing is lost: with the active key at hand, whoever could open every row before
      can open every row after, and reads there what was last saved. */
  lemma NothingLost(keys: Keys, m: Moment, n: Moment, saved: map<Key, Plain>)
    requires Kept(keys, m, n) && keys.active in keys.configured && Faithful(n.items, saved)
    requires forall k :: k in m.items && m.items[k].Sealed? ==> Open(keys, k, m.items[k]).Some?
    ensures forall k :: k in n.items && n.items[k].Sealed? ==> Open(keys, k, n.items[k]) == Some(saved[k])
  {
    forall k | k in n.items && n.items[k].Sealed? ensures Open(keys, k, n.items[k]) == Some(saved[k]) {
      if k in m.items && n.items[k] == m.items[k] {
        assert Open(keys, k, m.items[k]).Some?;
      }
    }
  }

  lemma OutstandingOne(byVersion: map<int, nat>, items: map<Key, Item>, stores: seq<string>, i: nat, active: int)
    requires i < |stores| && Counts(byVersion, items, stores[i]) && exists v :: v in byVersion && v != active
    ensures Outstanding(items, Stores(stores), active) != {}
  {
    var v :| v in byVersion && v != active;
    var k :| k in AtVersion(items, stores[i], v);
    assert k in Outstanding(items, Stores(stores), active);
  }

  lemma SurveyedOne(keys: Keys, l: Moment, m: Moment, n: Moment, stores: seq<string>, i: nat, counts: map<int, nat>)
    requires i < |stores| && Kept(keys, l, n) && Kept(keys, m, n) && Counts(counts, n.items, stores[i])
    ensures (exists v :: v in counts && v != keys.active) ==> Outstanding(l.items, Stores(stores), keys.active) != {}
    ensures Outstanding(m.items, Stores(stores[..i]), keys.active) == {} && !(exists v :: v in counts && v != keys.active) ==>
              Outstanding(n.items, Stores(stores[..i + 1]), keys.active) == {}
  {
    StillCurrent(keys, m, n, Stores(stores[..i]));
    OutstandingCounts(counts, n.items, stores, i, keys.active);
    if exists v :: v in counts && v != keys.active {
      OutstandingOne(counts, n.items, stores, i, keys.active);
      StillCurrent(keys, l, n, Stores(stores));
    }
  }

  function Stores(names: seq<string>): set<string> {
    set n | n in names
  }

  /** A survey's table counts each version's items exactly. */
  ghost predicate Counts(byVersion: map<int, nat>, items: map<Key, Item>, store: string) {
    && (forall v :: v in byVersion <==> AtVersion(items, store, v) != {})
    && (forall v :: v in byVersion ==> byVersion[v] == |AtVersion(items, store, v)|)
  }

  function OneMore(byVersion: map<int, nat>, v: int): map<int, nat> {
    byVersion[v := (if v in byVersion then byVersion[v] else 0) + 1]
  }

  function AtVersion(items: map<Key, Item>, store: string, v: int): set<Key> {
    set k | k in items && k.store == store && items[k].Sealed? && items[k].version == v
  }

  lemma CountOne(byVersion: map<int, nat>, items: map<Key, Item>, store: string, k: Key, item: Item)
    requires k !in items && Counts(byVersion, items, store)
    ensures Counts(if k.store == store && item.Sealed? then OneMore(byVersion, item.version) else byVersion, items[k := item], store)
  {
    var items' := items[k := item];
    var byVersion' := if k.store == store && item.Sealed? then OneMore(byVersion, item.version) else byVersion;
    forall v
      ensures v in byVersion' <==> AtVersion(items', store, v) != {}
      ensures v in byVersion' ==> byVersion'[v] == |AtVersion(items', store, v)|
    {
      AtVersionOne(items, store, k, item, v);
    }
  }

  lemma AtVersionOne(items: map<Key, Item>, store: string, k: Key, item: Item, v: int)
    requires k !in items
    ensures var was, now := AtVersion(items, store, v), AtVersion(items[k := item], store, v);
            if k.store == store && item.Sealed? && item.version == v then now != {} && |now| == |was| + 1 else now == was
  {
    var was, now := AtVersion(items, store, v), AtVersion(items[k := item], store, v);
    if k.store == store && item.Sealed? && item.version == v {
      assert now == was + {k};
      assert k in now && k !in was;
    } else {
      assert now == was;
    }
  }

  lemma OutstandingCounts(byVersion: map<int, nat>, items: map<Key, Item>, stores: seq<string>, i: nat, active: int)
    requires i < |stores| && Counts(byVersion, items, stores[i])
    ensures Outstanding(items, Stores(stores[..i + 1]), active) != {} <==>
              Outstanding(items, Stores(stores[..i]), active) != {} || exists v :: v in byVersion && v != active
  {
    assert stores[..i + 1] == stores[..i] + [stores[i]];
    if v :| v in byVersion && v != active {
      var k :| k in AtVersion(items, stores[i], v);
      assert k in Outstanding(items, Stores(stores[..i + 1]), active);
    }
    if k :| k in Outstanding(items, Stores(stores[..i]), active) {
      assert k in Outstanding(items, Stores(stores[..i + 1]), active);
    }
    var now := Outstanding(items, Stores(stores[..i + 1]), active);
    if k :| k in now {
      if k.store == stores[i] {
        assert k in AtVersion(items, stores[i], items[k].version);
      } else {
        assert k in Outstanding(items, Stores(stores[..i]), active);
      }
    }
  }

  /** A survey's outstanding items: those at another version. */
  function Outstanding(items: map<Key, Item>, stores: set<string>, active: int): set<Key> {
    set k | k in items && k.store in stores && items[k].Sealed? && items[k].version != active
  }

  ghost predicate AllBound(items: map<Key, Item>, stores: set<string>) {
    forall k :: k in items && k.store in stores && items[k].Sealed? ==> items[k].bound
  }

  /** After a pass that counted no failure a survey finds nothing outstanding; the
      converse fails, as a row at the active version may still be unbound. */
  lemma NothingOutstanding(keys: Keys, items: map<Key, Item>, stores: set<string>)
    ensures AllCurrent(keys, items, stores) ==> Outstanding(items, stores, keys.active) == {}
    ensures Outstanding(items, stores, keys.active) == {} ==>
              (AllCurrent(keys, items, stores) <==> AllBound(items, stores))
  {
    if Outstanding(items, stores, keys.active) == {} {
      forall k | k in items && k.store in stores && items[k].Sealed? ensures items[k].version == keys.active {
        assert k !in Outstanding(items, stores, keys.active);
      }
    }
  }

  /** The command can end well and leave a row unbound: one at the active version
      already, with nothing else outstanding. */
  lemma UnboundCanBeLeft(keys: Keys, store: string)
    ensures exists items :: Outstanding(items, {store}, keys.active) == {} && !AllCurrent(keys, items, {store})
  {
    var k := Key(store, "1");
    var items := map[k := Sealed(Box(0, "", keys.active, None), keys.active, false)];
    assert !Current(keys, items[k]);
    assert Outstanding(items, {store}, keys.active) == {};
  }
}
