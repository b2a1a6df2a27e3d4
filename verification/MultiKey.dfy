/**
 The key table of a multi-key channel: one text holding all keys, and three sparse maps from key
 index to status, disabling time and reason. Deleting keys re-indexes all three. The keys are
 stored as text and parsed again on every use, so what is stored need not be what was meant.

 The parser of JSON key arrays is a parameter: `parse(text)` is the list of raw elements, if the
 text is a JSON array.
 */
module MultiKey {
  import opened Options
  import opened Texts

  type Parser = string -> Option<seq<string>>

  const ENABLED := 1
  const MANUALLY_DISABLED := 2
  const AUTO_DISABLED := 3

  /** The stored row. */
  datatype Info = Info(key: string, size: nat, status: map<nat, int>, time: map<nat, int>, reason: map<nat, string>)

  datatype Action =
    | DisableKey(index: Option<int>) | EnableKey(index: Option<int>) | EnableAll | DisableAll
    | DeleteKey(index: Option<int>) | DeleteDisabled

  datatype Outcome = Saved | Rejected

  // ---------------------------------------------------------------- the stored text

  function Lines(key: string): seq<string> {
    Split(Strip(key, '\n'), '\n')
  }

  function JsonArray(key: string, parse: Parser): Option<seq<string>> {
    var trimmed := Trim(key);
    if |trimmed| > 0 && trimmed[0] == '[' then parse(trimmed) else None
  }

  /** Channel.GetKeys. */
  function GetKeys(key: string, parse: Parser): seq<string> {
    if key == "" then []
    else if JsonArray(key, parse).Some? then JsonArray(key, parse).value
    else Lines(key)
  }

  /** The keys as Channel.Update counts them; an empty JSON array counts as one line. */
  function CountedKeys(key: string, parse: Parser): seq<string> {
    if key == "" then []
    else if JsonArray(key, parse).Some? && |JsonArray(key, parse).value| > 0 then JsonArray(key, parse).value
    else Lines(key)
  }

  /** Channel.Update: an empty key text is not written, so the stored one stays; the size is
      counted again, and status entries at or beyond it are dropped. */
  function Update(stored: Info, edited: Info, parse: Parser): Info {
    var key := if edited.key != "" then edited.key else stored.key;
    var size := |CountedKeys(key, parse)|;
    Info(key, size, map i | i in edited.status && i < size :: edited.status[i], edited.time, edited.reason)
  }

  function StatusOf(info: Info, i: nat): int {
    if i in info.status then info.status[i] else ENABLED
  }

  // ---------------------------------------------------------------- specification of the actions

  predicate InRange(info: Info, index: Option<int>) {
    index.Some? && 0 <= index.value < info.size
  }

  predicate Survives(info: Info, doomed: Option<int>, i: nat) {
    if doomed.Some? then i != doomed.value else StatusOf(info, i) != AUTO_DISABLED
  }

  /** The indices below `count` that survive a deletion, in order: all but the doomed one, or all
      that are not disabled automatically. */
  function Kept(info: Info, doomed: Option<int>, count: nat): seq<nat> {
    if count == 0 then []
    else if Survives(info, doomed, count - 1) then Kept(info, doomed, count - 1) + [count - 1]
    else Kept(info, doomed, count - 1)
  }

  /** Which old entries of a map move along with their key. */
  datatype Rule = Always | UnlessEnabled

  predicate Moves(info: Info, rule: Rule, i: nat) {
    rule.Always? || StatusOf(info, i) != ENABLED
  }

  /** Copy the entry of old index i, if there is one and it moves, to new index j. */
  function Copied<T>(to: map<nat, T>, j: nat, m: map<nat, T>, i: nat, moves: bool): map<nat, T> {
    if i in m && moves then to[j := m[i]] else to
  }

  /** The surviving keys with the re-indexed maps. */
  datatype Table = Table(keys: seq<string>, status: map<nat, int>, time: map<nat, int>, reason: map<nat, string>)

  /** Append the survivor of old index i. */
  function Carry(t: Table, info: Info, key: string, i: nat, rule: Rule): Table {
    var j := |t.keys|;
    Table(t.keys + [key], Copied(t.status, j, info.status, i, StatusOf(info, i) != ENABLED),
          Copied(t.time, j, info.time, i, Moves(info, rule, i)),
          Copied(t.reason, j, info.reason, i, Moves(info, rule, i)))
  }

  /** The table after the first `count` keys have been looked at. */
  function Build(info: Info, keys: seq<string>, doomed: Option<int>, rule: Rule, count: nat): Table
    requires count <= |keys|
  {
    if count == 0 then Table([], map[], map[], map[])
    else
      var t := Build(info, keys, doomed, rule, count - 1);
      if Survives(info, doomed, count - 1) then Carry(t, info, keys[count - 1], count - 1, rule) else t
  }

  function RuleFor(doomed: Option<int>): Rule {
    if doomed.Some? then Always else UnlessEnabled
  }

  /** The row before saving a deletion. Times and reasons move with every key when one key is
      deleted, and only with keys that are not enabled when the disabled ones are. */
  function Compacted(info: Info, keys: seq<string>, doomed: Option<int>): Info {
    var t := Build(info, keys, doomed, RuleFor(doomed), |keys|);
    Info(Join(t.keys, '\n'), |t.keys|, t.status, t.time, t.reason)
  }

  function Delete(info: Info, parse: Parser, doomed: Option<int>): Info {
    Update(info, Compacted(info, GetKeys(info.key, parse), doomed), parse)
  }

  /** Disable every enabled key below n. */
  function DisabledUpTo(info: Info, n: nat): map<nat, int> {
    if n == 0 then info.status
    else if StatusOf(info, n - 1) == ENABLED then DisabledUpTo(info, n - 1)[n - 1 := MANUALLY_DISABLED]
    else DisabledUpTo(info, n - 1)
  }

  predicate AnyEnabled(info: Info) {
    exists i: nat :: i < info.size && StatusOf(info, i) == ENABLED
  }

  function KeptBy(info: Info, parse: Parser, action: Action): seq<nat> {
    Kept(info, if action.DeleteKey? then action.index else None, |GetKeys(info.key, parse)|)
  }

  predicate Accepted(info: Info, parse: Parser, action: Action) {
    match action
    case DisableKey(index) => InRange(info, index)
    case EnableKey(index) => InRange(info, index)
    case EnableAll => true
    case DisableAll => AnyEnabled(info)
    case DeleteKey(index) => InRange(info, index) && |KeptBy(info, parse, action)| > 0
    case DeleteDisabled => |KeptBy(info, parse, action)| < |GetKeys(info.key, parse)|
  }

  /** The row after an action. */
  function Manage(info: Info, parse: Parser, action: Action): Info {
    if !Accepted(info, parse, action) then info
    else
      match action
      case DisableKey(index) => Update(info, info.(status := info.status[index.value := MANUALLY_DISABLED]), parse)
      case EnableKey(index) =>
        var i := index.value;
        Update(info, info.(status := info.status - {i}, time := info.time - {i}, reason := info.reason - {i}), parse)
      case EnableAll => Update(info, info.(status := map[], time := map[], reason := map[]), parse)
      case DisableAll => Update(info, info.(status := DisabledUpTo(info, info.size)), parse)
      case DeleteKey(index) => Delete(info, parse, index)
      case DeleteDisabled => Delete(info, parse, None)
  }

  // ---------------------------------------------------------------- what compaction means

  lemma {:induction false} KeptMeaning(info: Info, doomed: Option<int>, count: nat)
    ensures var kept := Kept(info, doomed, count);
      && (forall j :: 0 <= j < |kept| ==> kept[j] < count)
      && (forall j, k :: 0 <= j < k < |kept| ==> kept[j] < kept[k])
      && (forall i: nat :: i in kept <==> i < count && Survives(info, doomed, i))
  {
    if count > 0 {
      KeptMeaning(info, doomed, count - 1);
    }
  }

  /** m' holds, at each new index j, the entry of old index kept[j] if it has one that moves. */
  ghost predicate Reindexes<T>(info: Info, m: map<nat, T>, m': map<nat, T>, kept: seq<nat>, rule: Rule) {
    (forall j: nat :: j in m' <==> j < |kept| && kept[j] in m && Moves(info, rule, kept[j]))
    && (forall j: nat :: j in m' ==> m'[j] == m[kept[j]])
  }

  lemma {:induction false} BuildKeysMeaning(info: Info, keys: seq<string>, doomed: Option<int>, rule: Rule, count: nat)
    requires count <= |keys|
    ensures var t := Build(info, keys, doomed, rule, count);
      var kept := Kept(info, doomed, count);
      |t.keys| == |kept| && (forall j :: 0 <= j < |kept| ==> kept[j] < count && t.keys[j] == keys[kept[j]])
  {
    if count > 0 {
      BuildKeysMeaning(info, keys, doomed, rule, count - 1);
    }
  }

  lemma {:induction false} BuildSize(info: Info, keys: seq<string>, doomed: Option<int>, rule: Rule, count: nat)
    requires count <= |keys|
    ensures |Build(info, keys, doomed, rule, count).keys| == |Kept(info, doomed, count)|
  {
    if count > 0 {
      BuildSize(info, keys, doomed, rule, count - 1);
    }
  }

  ghost predicate Moved<T>(info: Info, m: map<nat, T>, m': map<nat, T>, kept: seq<nat>, rule: Rule, j: nat) {
    (j in m' <==> j < |kept| && kept[j] in m && Moves(info, rule, kept[j])) && (j in m' ==> m'[j] == m[kept[j]])
  }

  /** The entries at one new index. */
  lemma {:induction false} BuildEntryMeaning(info: Info, keys: seq<string>, doomed: Option<int>, rule: Rule,
                                             count: nat, j: nat)
    requires count <= |keys|
    ensures var t := Build(info, keys, doomed, rule, count);
      var kept := Kept(info, doomed, count);
      && Moved(info, info.status, t.status, kept, UnlessEnabled, j)
      && Moved(info, info.time, t.time, kept, rule, j) && Moved(info, info.reason, t.reason, kept, rule, j)
  {
    if count > 0 {
      BuildEntryMeaning(info, keys, doomed, rule, count - 1, j);
      BuildSize(info, keys, doomed, rule, count - 1);
    }
  }

  lemma AllMoved<T>(info: Info, m: map<nat, T>, m': map<nat, T>, kept: seq<nat>, rule: Rule)
    requires forall j: nat :: Moved(info, m, m', kept, rule, j)
    ensures Reindexes(info, m, m', kept, rule)
  {
    forall j: nat ensures j in m' <==> j < |kept| && kept[j] in m && Moves(info, rule, kept[j]) {
      assert Moved(info, m, m', kept, rule, j);
    }
    forall j: nat | j in m' ensures m'[j] == m[kept[j]] {
      assert Moved(info, m, m', kept, rule, j);
    }
  }

  /** The new table is the old one read through the surviving indices. */
  lemma BuildMeaning(info: Info, keys: seq<string>, doomed: Option<int>, rule: Rule, count: nat)
    requires count <= |keys|
    ensures var t := Build(info, keys, doomed, rule, count);
      var kept := Kept(info, doomed, count);
      && |t.keys| == |kept| && (forall j :: 0 <= j < |kept| ==> kept[j] < count && t.keys[j] == keys[kept[j]])
      && Reindexes(info, info.status, t.status, kept, UnlessEnabled)
      && Reindexes(info, info.time, t.time, kept, rule) && Reindexes(info, info.reason, t.reason, kept, rule)
  {
    BuildKeysMeaning(info, keys, doomed, rule, count);
    var t := Build(info, keys, doomed, rule, count);
    var kept := Kept(info, doomed, count);
    forall j: nat
      ensures Moved(info, info.status, t.status, kept, UnlessEnabled, j)
      ensures Moved(info, info.time, t.time, kept, rule, j) && Moved(info, info.reason, t.reason, kept, rule, j)
    {
      BuildEntryMeaning(info, keys, doomed, rule, count, j);
    }
    AllMoved(info, info.status, t.status, kept, UnlessEnabled);
    AllMoved(info, info.time, t.time, kept, rule);
    AllMoved(info, info.reason, t.reason, kept, rule);
  }

  // ---------------------------------------------------------------- the code

  lemma {:induction false} DisabledUpToMeaning(info: Info, n: nat)
    ensures forall i: nat :: i in DisabledUpTo(info, n) <==> i in info.status || i < n
    ensures forall i: nat :: i in DisabledUpTo(info, n) ==>
      DisabledUpTo(info, n)[i] == if i < n && StatusOf(info, i) == ENABLED then MANUALLY_DISABLED else StatusOf(info, i)
  {
    if n > 0 {
      DisabledUpToMeaning(info, n - 1);
    }
  }

  /** The loop of disable_all_keys. */
  method DisableEnabled(info: Info) returns (status: map<nat, int>, disabled: nat)
    ensures status == DisabledUpTo(info, info.size) && (disabled > 0 <==> AnyEnabled(info))
  {
    status, disabled := info.status, 0;
    var i := 0;
    while i < info.size
      invariant 0 <= i <= info.size && status == DisabledUpTo(info, i)
      invariant disabled > 0 <==> exists j: nat :: j < i && StatusOf(info, j) == ENABLED
    {
      DisabledUpToMeaning(info, i);
      var current := if i in status then status[i] else ENABLED;
      if current == ENABLED {
        assert StatusOf(info, i) == ENABLED;
        status := status[i := MANUALLY_DISABLED];
        disabled := disabled + 1;
      }
      i := i + 1;
    }
  }

  /** The loop of delete_key. */
  method WithoutKey(info: Info, keys: seq<string>, index: int)
    returns (remaining: seq<string>, status: map<nat, int>, time: map<nat, int>, reason: map<nat, string>)
    ensures Table(remaining, status, time, reason) == Build(info, keys, Some(index), Always, |keys|)
  {
    remaining, status, time, reason := [], map[], map[], map[];
    var i, newIndex := 0, 0;
    while i < |keys|
      invariant 0 <= i <= |keys| && newIndex == |remaining|
      invariant Table(remaining, status, time, reason) == Build(info, keys, Some(index), Always, i)
    {
      if i != index {
        remaining := remaining + [keys[i]];
        status := Copied(status, newIndex, info.status, i, i in info.status && info.status[i] != ENABLED);
        time := Copied(time, newIndex, info.time, i, true);
        reason := Copied(reason, newIndex, info.reason, i, true);
        newIndex := newIndex + 1;
      }
      i := i + 1;
    }
  }

  /** The loop of delete_disabled_keys. */
  method WithoutDisabled(info: Info, keys: seq<string>)
    returns (remaining: seq<string>, status: map<nat, int>, time: map<nat, int>, reason: map<nat, string>, deleted: nat)
    ensures Table(remaining, status, time, reason) == Build(info, keys, None, UnlessEnabled, |keys|)
    ensures deleted + |remaining| == |keys|
  {
    remaining, status, time, reason, deleted := [], map[], map[], map[], 0;
    var i, newIndex := 0, 0;
    while i < |keys|
      invariant 0 <= i <= |keys| && newIndex == |remaining| && deleted + |remaining| == i
      invariant Table(remaining, status, time, reason) == Build(info, keys, None, UnlessEnabled, i)
    {
      var current := if i in info.status then info.status[i] else ENABLED;
      if current == AUTO_DISABLED {
        deleted := deleted + 1;
      } else {
        remaining := remaining + [keys[i]];
        if current != ENABLED {
          status := status[newIndex := current];
          time := Copied(time, newIndex, info.time, i, true);
          reason := Copied(reason, newIndex, info.reason, i, true);
        }
        newIndex := newIndex + 1;
      }
      i := i + 1;
    }
  }

  /** A channel object, with the database row it was loaded from. */
  class Channel {
    var key: string
    var size: nat
    var status: map<nat, int>
    var time: map<nat, int>
    var reason: map<nat, string>
    var row: Info

    ghost function View(): Info
      reads this
    {
      Info(key, size, status, time, reason)
    }

    /** Count the keys again, drop what is out of range, write and reload. */
    method Save(parse: Parser)
      modifies this
      ensures row == View() == Update(old(row), old(View()), parse)
    {
      if key == "" {
        key := row.key;
      }
      size := |CountedKeys(key, parse)|;
      status := map i | i in status && i < size :: status[i];
      row := Info(key, size, status, time, reason);
    }

    method DisableAllKeys(parse: Parser) returns (outcome: Outcome)
      requires row == View()
      modifies this
      ensures row == View() == Manage(old(row), parse, DisableAll)
      ensures outcome == if Accepted(old(row), parse, DisableAll) then Saved else Rejected
    {
      var newStatus, disabled := DisableEnabled(row);
      if disabled == 0 {
        return Rejected;
      }
      status := newStatus;
      Save(parse);
      outcome := Saved;
    }

    method DeleteOneKey(index: Option<int>, parse: Parser) returns (outcome: Outcome)
      requires row == View()
      modifies this
      ensures row == View() == Manage(old(row), parse, DeleteKey(index))
      ensures outcome == if Accepted(old(row), parse, DeleteKey(index)) then Saved else Rejected
    {
      if index.None? || index.value < 0 || index.value >= size {
        return Rejected;
      }
      var keys := GetKeys(key, parse);
      BuildKeysMeaning(row, keys, index, Always, |keys|);
      var remaining, newStatus, newTime, newReason := WithoutKey(row, keys, index.value);
      if |remaining| == 0 {
        return Rejected;
      }
      key := Join(remaining, '\n');
      size, status, time, reason := |remaining|, newStatus, newTime, newReason;
      assert View() == Compacted(old(row), keys, index);
      Save(parse);
      outcome := Saved;
    }

    method DeleteDisabledKeys(parse: Parser) returns (outcome: Outcome, deleted: nat)
      requires row == View()
      modifies this
      ensures row == View() == Manage(old(row), parse, DeleteDisabled)
      ensures outcome == if Accepted(old(row), parse, DeleteDisabled) then Saved else Rejected
      ensures deleted == |GetKeys(old(key), parse)| - |KeptBy(old(row), parse, DeleteDisabled)|
    {
      var keys := GetKeys(key, parse);
      BuildKeysMeaning(row, keys, None, UnlessEnabled, |keys|);
      var remaining, newStatus, newTime, newReason;
      remaining, newStatus, newTime, newReason, deleted := WithoutDisabled(row, keys);
      if deleted == 0 {
        return Rejected, 0;
      }
      key := Join(remaining, '\n');
      size, status, time, reason := |remaining|, newStatus, newTime, newReason;
      assert View() == Compacted(old(row), keys, None);
      Save(parse);
      outcome := Saved;
    }

    /** ManageMultiKeys, on a freshly loaded channel. */
    method ManageMultiKeys(action: Action, parse: Parser) returns (outcome: Outcome)
      requires row == View()
      modifies this
      ensures row == View() == Manage(old(row), parse, action)
      ensures outcome == if Accepted(old(row), parse, action) then Saved else Rejected
    {
      match action
      case DisableKey(index) =>
        if index.None? || index.value < 0 || index.value >= size {
          return Rejected;
        }
        status := status[index.value := MANUALLY_DISABLED];
        Save(parse);
        outcome := Saved;
      case EnableKey(index) =>
        if index.None? || index.value < 0 || index.value >= size {
          return Rejected;
        }
        status := status - {index.value};
        time := time - {index.value};
        reason := reason - {index.value};
        Save(parse);
        outcome := Saved;
      case EnableAll =>
        status, time, reason := map[], map[], map[];
        Save(parse);
        outcome := Saved;
      case DisableAll => outcome := DisableAllKeys(parse);
      case DeleteKey(index) => outcome := DeleteOneKey(index, parse);
      case DeleteDisabled =>
        var deleted;
        outcome, deleted := DeleteDisabledKeys(parse);
    }
  }

  // ---------------------------------------------------------------- faithful deletion

  /** A JSON array's text is longer than its elements joined by one character each. */
  ghost predicate SoundParser(parse: Parser) {
    forall t: string :: parse(t).Some? ==> |Join(parse(t).value, '\n')| < |t|
  }

  /** When the surviving keys can be stored as text: there is one, they hold no line break, the
      outer ones are not empty, and the text does not read as a JSON array. */
  predicate Faithful(survivors: seq<string>, parse: Parser) {
    |survivors| > 0 && (forall x :: x in survivors ==> Free(x, '\n'))
    && survivors[0] != "" && survivors[|survivors| - 1] != ""
    && JsonArray(Join(survivors, '\n'), parse).None?
  }

  /** No map entry lies at or beyond the size. */
  predicate EntriesInRange(info: Info) {
    (forall i :: i in info.status ==> i < info.size)
    && (forall i :: i in info.time ==> i < info.size)
    && (forall i :: i in info.reason ==> i < info.size)
  }

  /** The row agrees with its key text, and no map entry lies at or beyond the size. */
  predicate Tidy(info: Info, parse: Parser) {
    info.size == |GetKeys(info.key, parse)| && GetKeys(info.key, parse) == CountedKeys(info.key, parse)
    && EntriesInRange(info)
  }

  predicate IsDeletion(action: Action) {
    action.DeleteKey? || action.DeleteDisabled?
  }

  function Doomed(action: Action): Option<int> {
    if action.DeleteKey? then action.index else None
  }

  /** The keys an accepted deletion should leave: those at the surviving indices, in order. */
  function Survivors(info: Info, parse: Parser, action: Action): (r: seq<string>)
    ensures var kept := KeptBy(info, parse, action);
      var keys := GetKeys(info.key, parse);
      |r| == |kept| && forall j :: 0 <= j < |kept| ==> kept[j] < |keys| && r[j] == keys[kept[j]]
  {
    var keys := GetKeys(info.key, parse);
    KeptMeaning(info, Doomed(action), |keys|);
    var kept := KeptBy(info, parse, action);
    seq(|kept|, j requires 0 <= j < |kept| => keys[kept[j]])
  }

  lemma CompactedKeys(info: Info, parse: Parser, action: Action)
    requires IsDeletion(action)
    ensures Compacted(info, GetKeys(info.key, parse), Doomed(action)).key == Join(Survivors(info, parse, action), '\n')
  {
    var keys := GetKeys(info.key, parse);
    var rule := RuleFor(Doomed(action));
    BuildMeaning(info, keys, Doomed(action), rule, |keys|);
    assert Build(info, keys, Doomed(action), rule, |keys|).keys == Survivors(info, parse, action);
  }

  lemma {:induction false} KeptCount(info: Info, doomed: Option<int>, count: nat)
    ensures |Kept(info, doomed, count)| <= count
    ensures (exists i: nat :: i < count && !Survives(info, doomed, i)) ==> |Kept(info, doomed, count)| < count
  {
    if count > 0 {
      KeptCount(info, doomed, count - 1);
    }
  }

  lemma DeletionDeletes(info: Info, parse: Parser, action: Action)
    requires Tidy(info, parse) && IsDeletion(action) && Accepted(info, parse, action)
    ensures |Survivors(info, parse, action)| < |GetKeys(info.key, parse)|
  {
    KeptCount(info, Doomed(action), info.size);
    if action.DeleteKey? {
      var i: nat := action.index.value;
      assert i < info.size && !Survives(info, Doomed(action), i);
    }
  }

  lemma TrimIsNotLonger(s: string)
    ensures |Trim(s)| <= |s|
  {
    TrimLeftIsSuffix(s);
    TrimRightIsPrefix(TrimLeft(s));
  }

  lemma StoredKeysComeBack(survivors: seq<string>, parse: Parser)
    requires SoundParser(parse) && |survivors| > 0
    ensures GetKeys(Join(survivors, '\n'), parse) == survivors <==> Faithful(survivors, parse)
    ensures Faithful(survivors, parse) ==>
      Join(survivors, '\n') != "" && CountedKeys(Join(survivors, '\n'), parse) == survivors
  {
    var text := Join(survivors, '\n');
    JoinComesBack(survivors, '\n');
    TrimIsNotLonger(text);
    if survivors[0] != "" && survivors[|survivors| - 1] != "" {
      JoinEnds(survivors, '\n');
    }
  }

  /** Deletion leaves exactly the surviving keys, in order, if and only if they can be stored. */
  lemma DeletionIsFaithful(info: Info, parse: Parser, action: Action)
    requires SoundParser(parse) && Tidy(info, parse) && IsDeletion(action) && Accepted(info, parse, action)
    ensures GetKeys(Manage(info, parse, action).key, parse) == Survivors(info, parse, action)
      <==> Faithful(Survivors(info, parse, action), parse)
  {
    DeletionDeletes(info, parse, action);
    CompactedKeys(info, parse, action);
    if |Survivors(info, parse, action)| > 0 {
      StoredKeysComeBack(Survivors(info, parse, action), parse);
    }
  }

  function TimeOf(info: Info, i: nat): int {
    if i in info.time then info.time[i] else 0
  }

  function ReasonOf(info: Info, i: nat): string {
    if i in info.reason then info.reason[i] else ""
  }

  /** And then it is a consistent compaction: the size is the number of survivors, each survivor
      has at its new index the status it had at its old one, and if that is not enabled also its
      time and reason, and nothing lies out of range. */
  lemma DeletionCompacts(info: Info, parse: Parser, action: Action)
    requires SoundParser(parse) && Tidy(info, parse) && IsDeletion(action) && Accepted(info, parse, action)
    requires Faithful(Survivors(info, parse, action), parse)
    ensures var info' := Manage(info, parse, action);
      var kept := KeptBy(info, parse, action);
      && Tidy(info', parse) && info'.size == |kept|
      && (forall j: nat :: j < |kept| ==> StatusOf(info', j) == StatusOf(info, kept[j]))
      && (forall j: nat :: j < |kept| && StatusOf(info', j) != ENABLED ==>
            TimeOf(info', j) == TimeOf(info, kept[j]) && ReasonOf(info', j) == ReasonOf(info, kept[j]))
  {
    StoredKeysComeBack(Survivors(info, parse, action), parse);
    CompactedKeys(info, parse, action);
    var keys := GetKeys(info.key, parse);
    BuildMeaning(info, keys, Doomed(action), RuleFor(Doomed(action)), |keys|);
  }

  lemma {:induction false} NoneKept(info: Info, doomed: Option<int>, count: nat)
    requires forall i: nat :: i < count ==> !Survives(info, doomed, i)
    ensures Kept(info, doomed, count) == []
  {
    if count > 0 {
      NoneKept(info, doomed, count - 1);
    }
  }

  /** Deleting the disabled keys when all of them are disabled deletes none: the empty text is not
      written, so every key stays, and with its maps emptied every key is enabled again. */
  lemma DeletingAllReenablesAll(info: Info, parse: Parser)
    requires Tidy(info, parse) && info.size > 0
    requires forall i: nat :: i < info.size ==> StatusOf(info, i) == AUTO_DISABLED
    ensures Accepted(info, parse, DeleteDisabled)
    ensures var info' := Manage(info, parse, DeleteDisabled);
      info'.key == info.key && info'.size == info.size && forall i: nat :: StatusOf(info', i) == ENABLED
  {
    NoneKept(info, None, info.size);
    BuildMeaning(info, GetKeys(info.key, parse), None, UnlessEnabled, info.size);
  }

  /** The other actions leave the keys alone. */
  lemma SettingKeepsTidy(info: Info, parse: Parser, action: Action)
    requires Tidy(info, parse) && !IsDeletion(action)
    ensures Tidy(Manage(info, parse, action), parse) && Manage(info, parse, action).key == info.key
  {
    DisabledUpToMeaning(info, info.size);
  }

  /** What the other actions do to each key's status. */
  lemma SettingMeaning(info: Info, parse: Parser, action: Action, i: nat)
    requires Tidy(info, parse) && !IsDeletion(action) && Accepted(info, parse, action) && i < info.size
    ensures StatusOf(Manage(info, parse, action), i) ==
      match action
      case DisableKey(index) => if i == index.value then MANUALLY_DISABLED else StatusOf(info, i)
      case EnableKey(index) => if i == index.value then ENABLED else StatusOf(info, i)
      case EnableAll => ENABLED
      case _ => if StatusOf(info, i) == ENABLED then MANUALLY_DISABLED else StatusOf(info, i)
  {
    DisabledUpToMeaning(info, info.size);
  }

  // ---------------------------------------------------------------- what each action does, spelled out

  /** The status of key i: 1 enabled, 2 disabled by hand, 3 disabled automatically. */
  lemma StatusMeaning(info: Info, i: nat)
    ensures StatusOf(info, i) == (if i in info.status then info.status[i] else 1)
    ensures ENABLED == 1 && MANUALLY_DISABLED == 2 && AUTO_DISABLED == 3
  {
  }

  /** delete_key takes out that one key. */
  lemma DeleteKeyRemovesOne(info: Info, parse: Parser, i: nat)
    requires i < |GetKeys(info.key, parse)|
    ensures var keys := GetKeys(info.key, parse);
      Survivors(info, parse, DeleteKey(Some(i))) == keys[..i] + keys[i + 1..]
  {
    var keys := GetKeys(info.key, parse);
    KeptSkipsOne(info, i, |keys|);
    KeptMeaning(info, Some(i), |keys|);
  }

  lemma {:induction false} KeptSkipsOne(info: Info, i: nat, count: nat)
    ensures |Kept(info, Some(i), count)| == if i < count then count - 1 else count
    ensures var kept := Kept(info, Some(i), count);
      forall j :: 0 <= j < |kept| ==> kept[j] == if j < i then j else j + 1
  {
    if count > 0 {
      KeptSkipsOne(info, i, count - 1);
    }
  }

  /** delete_disabled_keys keeps exactly the keys whose status is not 3: enabled ones, and those
      disabled by hand. */
  lemma DeleteDisabledKeepsRest(info: Info, parse: Parser, i: nat)
    ensures i in KeptBy(info, parse, DeleteDisabled) <==>
      i < |GetKeys(info.key, parse)| && !(i in info.status && info.status[i] == 3)
  {
    KeptMeaning(info, None, |GetKeys(info.key, parse)|);
  }

  /** When an action goes through. */
  lemma AcceptedMeaning(info: Info, parse: Parser, action: Action)
    requires Tidy(info, parse)
    ensures Accepted(info, parse, action) <==>
      match action
      case DisableKey(index) => index.Some? && 0 <= index.value < info.size
      case EnableKey(index) => index.Some? && 0 <= index.value < info.size
      case EnableAll => true
      case DisableAll => exists i: nat :: i < info.size && (i in info.status ==> info.status[i] == 1)
      case DeleteKey(index) => index.Some? && 0 <= index.value < info.size && info.size > 1
      case DeleteDisabled => exists i: nat :: i < info.size && i in info.status && info.status[i] == 3
  {
    match action
    case DeleteKey(index) =>
      if InRange(info, index) {
        KeptSkipsOne(info, index.value, info.size);
      }
    case DeleteDisabled =>
      KeptCount(info, None, info.size);
      forall i: nat | i < info.size
        ensures !Survives(info, None, i) <==> i in info.status && info.status[i] == 3
      {
      }
      if forall i: nat :: i < info.size ==> Survives(info, None, i) {
        AllKept(info, info.size);
      }
    case DisableAll =>
      forall i: nat | i < info.size
        ensures StatusOf(info, i) == ENABLED <==> (i in info.status ==> info.status[i] == 1)
      {
      }
    case _ =>
  }

  lemma {:induction false} AllKept(info: Info, count: nat)
    requires forall i: nat :: i < count ==> Survives(info, None, i)
    ensures |Kept(info, None, count)| == count
  {
    if count > 0 {
      AllKept(info, count - 1);
    }
  }

  /** What the actions other than deletions do to times and reasons. */
  lemma SettingEntries(info: Info, parse: Parser, action: Action)
    requires !IsDeletion(action) && Accepted(info, parse, action)
    ensures var info' := Manage(info, parse, action);
      match action
      case EnableKey(index) => info'.time == info.time - {index.value} && info'.reason == info.reason - {index.value}
      case EnableAll => info'.time == map[] && info'.reason == map[]
      case _ => info'.time == info.time && info'.reason == info.reason
  {
  }

  // ---------------------------------------------------------------- entries out of range

  /** The size is that of the key text. */
  predicate Counted(info: Info, parse: Parser) {
    info.size == |CountedKeys(info.key, parse)|
  }

  /** The key text a deletion leaves: an empty one is not written. */
  function StoredKey(info: Info, parse: Parser, action: Action): string {
    var text := Join(Survivors(info, parse, action), '\n');
    if text != "" then text else info.key
  }

  /** The key of old index i keeps a time or a reason. */
  predicate TakesAlong(info: Info, action: Action, i: nat) {
    (i in info.time || i in info.reason) && Moves(info, RuleFor(Doomed(action)), i)
  }

  /** Every survivor that takes a time or a reason along gets an index below the number of keys
      that the stored text will be counted to have. */
  predicate MovesBelow(info: Info, parse: Parser, action: Action) {
    var kept := KeptBy(info, parse, action);
    forall j: nat :: j < |kept| && TakesAlong(info, action, kept[j]) ==>
      j < |CountedKeys(StoredKey(info, parse, action), parse)|
  }

  /** After every accepted action the status entries are in range, whatever the row was. */
  lemma StatusesInRange(info: Info, parse: Parser, action: Action)
    requires Accepted(info, parse, action)
    ensures var info' := Manage(info, parse, action); forall i :: i in info'.status ==> i < info'.size
  {
  }

  lemma DeletedRow(info: Info, parse: Parser, action: Action)
    requires IsDeletion(action) && Accepted(info, parse, action)
    ensures var info' := Manage(info, parse, action);
      var keys := GetKeys(info.key, parse);
      var t := Build(info, keys, Doomed(action), RuleFor(Doomed(action)), |keys|);
      && info'.key == StoredKey(info, parse, action) && info'.size == |CountedKeys(info'.key, parse)|
      && info'.time == t.time && info'.reason == t.reason
  {
    CompactedKeys(info, parse, action);
  }

  lemma ReindexedInRange<T>(info: Info, m: map<nat, T>, m': map<nat, T>, kept: seq<nat>, rule: Rule, size: nat)
    requires Reindexes(info, m, m', kept, rule)
    ensures (forall j :: j in m' ==> j < size)
      <==> forall j: nat :: j < |kept| && kept[j] in m && Moves(info, rule, kept[j]) ==> j < size
  {
  }

  /** After an accepted deletion all entries are in range exactly then, whatever the row was. */
  lemma DeletionKeepsRange(info: Info, parse: Parser, action: Action)
    requires IsDeletion(action) && Accepted(info, parse, action)
    ensures EntriesInRange(Manage(info, parse, action)) <==> MovesBelow(info, parse, action)
    ensures Counted(Manage(info, parse, action), parse)
  {
    var keys, kept, rule := GetKeys(info.key, parse), KeptBy(info, parse, action), RuleFor(Doomed(action));
    var t := Build(info, keys, Doomed(action), rule, |keys|);
    var size := Manage(info, parse, action).size;
    DeletedRow(info, parse, action);
    BuildMeaning(info, keys, Doomed(action), rule, |keys|);
    ReindexedInRange(info, info.time, t.time, kept, rule, size);
    ReindexedInRange(info, info.reason, t.reason, kept, rule, size);
    StatusesInRange(info, parse, action);
  }

  lemma SettingKeepsRange(info: Info, parse: Parser, action: Action)
    requires Counted(info, parse) && EntriesInRange(info) && !(IsDeletion(action) && Accepted(info, parse, action))
    ensures Counted(Manage(info, parse, action), parse) && EntriesInRange(Manage(info, parse, action))
  {
    DisabledUpToMeaning(info, info.size);
  }

  function ManageAll(info: Info, parse: Parser, actions: seq<Action>): Info
    decreases |actions|
  {
    if |actions| == 0 then info else ManageAll(Manage(info, parse, actions[0]), parse, actions[1..])
  }

  /** No entry is out of range now or after any of the actions. */
  predicate AlwaysInRange(info: Info, parse: Parser, actions: seq<Action>)
    decreases |actions|
  {
    EntriesInRange(info)
    && (|actions| == 0 || AlwaysInRange(Manage(info, parse, actions[0]), parse, actions[1..]))
  }

  /** Each accepted deletion on the way moves its entries below the size to come. */
  predicate AllMoveBelow(info: Info, parse: Parser, actions: seq<Action>)
    decreases |actions|
  {
    |actions| == 0
    || ((IsDeletion(actions[0]) && Accepted(info, parse, actions[0]) ==> MovesBelow(info, parse, actions[0]))
        && AllMoveBelow(Manage(info, parse, actions[0]), parse, actions[1..]))
  }

  /** A sequence of the six actions never leaves an entry out of range if and only if its accepted
      deletions do so. */
  lemma {:induction false} ActionsKeepRange(info: Info, parse: Parser, actions: seq<Action>)
    requires Counted(info, parse) && EntriesInRange(info)
    ensures AlwaysInRange(info, parse, actions) <==> AllMoveBelow(info, parse, actions)
    decreases |actions|
  {
    if |actions| > 0 {
      var next := Manage(info, parse, actions[0]);
      if IsDeletion(actions[0]) && Accepted(info, parse, actions[0]) {
        DeletionKeepsRange(info, parse, actions[0]);
      } else {
        SettingKeepsRange(info, parse, actions[0]);
      }
      if EntriesInRange(next) {
        ActionsKeepRange(next, parse, actions[1..]);
      }
    }
  }

  predicate AlwaysTidy(info: Info, parse: Parser, actions: seq<Action>)
    decreases |actions|
  {
    Tidy(info, parse) && (|actions| == 0 || AlwaysTidy(Manage(info, parse, actions[0]), parse, actions[1..]))
  }

  /** And the text left is no empty JSON array, which reads as no key but counts as one. */
  predicate StoresTidily(info: Info, parse: Parser, action: Action) {
    MovesBelow(info, parse, action) && JsonArray(StoredKey(info, parse, action), parse) != Some([])
  }

  predicate AllStoreTidily(info: Info, parse: Parser, actions: seq<Action>)
    decreases |actions|
  {
    |actions| == 0
    || ((IsDeletion(actions[0]) && Accepted(info, parse, actions[0]) ==> StoresTidily(info, parse, actions[0]))
        && AllStoreTidily(Manage(info, parse, actions[0]), parse, actions[1..]))
  }

  lemma ReadAsCounted(key: string, parse: Parser)
    ensures GetKeys(key, parse) == CountedKeys(key, parse) <==> JsonArray(key, parse) != Some([])
  {
    if key != "" && JsonArray(key, parse) == Some([]) {
      assert |Lines(key)| > 0;
    }
  }

  lemma DeletionStoresTidily(info: Info, parse: Parser, action: Action)
    requires IsDeletion(action) && Accepted(info, parse, action)
    ensures Tidy(Manage(info, parse, action), parse) <==> StoresTidily(info, parse, action)
  {
    DeletionKeepsRange(info, parse, action);
    CompactedKeys(info, parse, action);
    ReadAsCounted(StoredKey(info, parse, action), parse);
  }

  /** The row agrees with its key text throughout a sequence if and only if its accepted deletions
      also leave no empty JSON array. */
  lemma {:induction false} ActionsKeepTidy(info: Info, parse: Parser, actions: seq<Action>)
    requires Tidy(info, parse)
    ensures AlwaysTidy(info, parse, actions) <==> AllStoreTidily(info, parse, actions)
    decreases |actions|
  {
    if |actions| > 0 {
      var next := Manage(info, parse, actions[0]);
      if IsDeletion(actions[0]) && Accepted(info, parse, actions[0]) {
        DeletionStoresTidily(info, parse, actions[0]);
      } else if !IsDeletion(actions[0]) {
        SettingKeepsTidy(info, parse, actions[0]);
      }
      if Tidy(next, parse) {
        ActionsKeepTidy(next, parse, actions[1..]);
      }
    }
  }

  lemma ThreeLines()
    ensures Lines("x\n\na") == ["x", "", "a"]
  {
    var keys := ["x", "", "a"];
    assert Free("x", '\n') && Free("", '\n') && Free("a", '\n');
    assert keys[1..] == ["", "a"] && keys[1..][1..] == ["a"];
    assert Join(keys, '\n') == "x\n\na";
    JoinComesBack(keys, '\n');
  }

  lemma LastLine()
    ensures Lines("\na") == ["a"] && Join(["", "a"], '\n') == "\na"
  {
    assert ["", "a"][1..] == ["a"];
    assert StripLeft("\na", '\n') == StripLeft("a", '\n') == "a";
    JoinComesBack(["a"], '\n');
  }

  lemma NoJsonArray(key: string, parse: Parser)
    requires key == "x\n\na" || key == "\na"
    ensures JsonArray(key, parse) == None
  {
    TrimIsExact(key);
    assert key == "\na" ==> TrimLeft(key) == TrimLeft(key[1..]) == "a";
  }

  const STRANDED := Info("x\n\na", 3, map[], map[2 := 5], map[2 := "r"])

  lemma LastTwoSurvive(parse: Parser)
    ensures Survivors(STRANDED, parse, DeleteKey(Some(0))) == ["", "a"]
    ensures KeptBy(STRANDED, parse, DeleteKey(Some(0))) == [1, 2]
  {
    ThreeLines();
    NoJsonArray(STRANDED.key, parse);
    assert Kept(STRANDED, Some(0), 1) == [] && Kept(STRANDED, Some(0), 2) == [1];
    assert Kept(STRANDED, Some(0), 3) == [1, 2];
  }

  lemma StrandedIsTidy(parse: Parser)
    ensures Tidy(STRANDED, parse) && Accepted(STRANDED, parse, DeleteKey(Some(0)))
  {
    ThreeLines();
    NoJsonArray(STRANDED.key, parse);
    LastTwoSurvive(parse);
  }

  /** Deleting the first key of "x", "" and "a" leaves the text of an empty line and "a", which
      counts as one key: the disabling time and reason of "a" are left at index 1. */
  lemma LostKeyStrandsEntries(parse: Parser)
    ensures var info' := Manage(STRANDED, parse, DeleteKey(Some(0)));
      && Tidy(STRANDED, parse) && Accepted(STRANDED, parse, DeleteKey(Some(0)))
      && info'.size == 1 && 1 in info'.time && 1 in info'.reason
  {
    StrandedIsTidy(parse);
    LastLine();
    NoJsonArray("\na", parse);
    LastTwoSurvive(parse);
    DeletedRow(STRANDED, parse, DeleteKey(Some(0)));
    var keys := GetKeys(STRANDED.key, parse);
    BuildEntryMeaning(STRANDED, keys, Some(0), Always, |keys|, 1);
  }
}
