/**
 Comparing the local prices with those of several upstreams: a difference table is filled cell by
 cell and then pruned. Numbers are reals; a table that is missing, or not an object, is empty.
 */
module RatioDiff {
  import opened Options
  import opened Numbers

  datatype Value = Null | Num(number: real) | Text(text: string) | Flag(flag: bool)

  /** field -> model -> value */
  type Table = map<string, map<string, Value>>

  /** upstream -> model -> whether its prices are trusted */
  type TrustTable = map<string, map<string, bool>>

  datatype Upstream = Upstream(name: string, data: Table)

  datatype Item = Item(current: Value, upstreams: map<string, Value>, confidence: map<string, bool>)

  /** model -> field -> item */
  type Differences = map<string, map<string, Item>>

  const SAME := Text("same")
  const FIELDS := ["model_ratio", "completion_ratio", "cache_ratio", "create_cache_ratio", "image_ratio",
                   "audio_ratio", "audio_completion_ratio", "model_price", "billing_mode", "billing_expr"]

  // ---------------------------------------------------------------- values

  predicate ValuesEqual(a: Value, b: Value) {
    if a.Num? && b.Num? then NearlyEqual(a.number, b.number) else a == b
  }

  function Row(t: Table, field: string): map<string, Value> {
    if field in t then t[field] else map[]
  }

  function Lookup(t: Table, field: string, model: string): Option<Value> {
    if model in Row(t, field) then Some(Row(t, field)[model]) else None
  }

  function LocalValue(t: Table, field: string, model: string): Value {
    if Lookup(t, field, model).Some? then Lookup(t, field, model).value else Null
  }

  /** A value there, while the local one is missing or not within the tolerance. */
  predicate Differs(local: Value, up: Option<Value>) {
    up.Some? && (local.Null? || !ValuesEqual(local, up.value))
  }

  /** A value which by itself makes its upstream worth listing. */
  predicate Tangible(v: Value) { !v.Null? && v != SAME }

  /** What an entry shows for an upstream: nothing, the marker, or its own value. */
  function Shown(local: Value, up: Option<Value>): Value {
    if up.None? then if local.Null? then SAME else Null
    else if ValuesEqual(local, up.value) then SAME
    else up.value
  }

  /** Some upstream has a value for the cell, and the local one is missing or differs. */
  predicate Wanted(local: Table, channels: seq<Upstream>, model: string, field: string) {
    SomeDiffers(LocalValue(local, field, model), channels, model, field, |channels|)
  }

  /** The placeholder prices 37.5 and 1. */
  predicate Placeholder(data: Table, model: string) {
    PlaceholderIn(Row(data, "model_ratio"), Row(data, "completion_ratio"), model)
  }

  predicate PlaceholderIn(ratios: map<string, Value>, completions: map<string, Value>, model: string) {
    model in ratios && model in completions && IsPlaceholder(ratios[model], completions[model])
  }

  predicate IsPlaceholder(ratio: Value, completion: Value) {
    ratio.Num? && NearlyEqual(ratio.number, 37.5) && completion.Num? && NearlyEqual(completion.number, 1.0)
  }

  // ---------------------------------------------------------------- one entry

  function Names(channels: seq<Upstream>): set<string> {
    if |channels| == 0 then {} else Names(channels[..|channels| - 1]) + {channels[|channels| - 1].name}
  }

  /** Where names repeat, the last upstream of that name counts. */
  function Owner(channels: seq<Upstream>, name: string): Upstream
    requires name in Names(channels)
  {
    var n := |channels| - 1;
    if channels[n].name == name then channels[n] else Owner(channels[..n], name)
  }

  lemma {:induction false} NameIsThere(channels: seq<Upstream>, i: nat)
    requires i < |channels|
    ensures channels[i].name in Names(channels)
  {
    if i < |channels| - 1 {
      assert channels[..|channels| - 1][i] == channels[i];
      NameIsThere(channels[..|channels| - 1], i);
    }
  }

  /** No later upstream has the same name. */
  predicate IsLast(channels: seq<Upstream>, i: nat) {
    i < |channels| && forall j :: i < j < |channels| ==> channels[j].name != channels[i].name
  }

  lemma {:induction false} OwnName(channels: seq<Upstream>, i: nat)
    requires IsLast(channels, i)
    ensures channels[i].name in Names(channels) && Owner(channels, channels[i].name) == channels[i]
  {
    var n := |channels| - 1;
    if i < n {
      assert channels[..n][i] == channels[i];
      OwnName(channels[..n], i);
    }
  }

  lemma {:induction false} LastOfName(channels: seq<Upstream>, name: string) returns (i: nat)
    requires name in Names(channels)
    ensures IsLast(channels, i) && channels[i].name == name
  {
    var n := |channels| - 1;
    if channels[n].name == name {
      i := n;
    } else {
      i := LastOfName(channels[..n], name);
    }
  }

  function ShownFor(local: Table, channels: seq<Upstream>, model: string, field: string, name: string): Value
    requires name in Names(channels)
  {
    Shown(LocalValue(local, field, model), Lookup(Owner(channels, name).data, field, model))
  }

  function Confidences(channels: seq<Upstream>, model: string): map<string, bool> {
    map name | name in Names(channels) :: !Placeholder(Owner(channels, name).data, model)
  }

  function Entry(local: Table, channels: seq<Upstream>, model: string, field: string): Item {
    Item(LocalValue(local, field, model),
         map name | name in Names(channels) :: ShownFor(local, channels, model, field, name),
         Confidences(channels, model))
  }

  function Restricted(item: Item, kept: set<string>): Item {
    item.(upstreams := map n | n in item.upstreams && n in kept :: item.upstreams[n],
          confidence := map n | n in item.confidence && n in kept :: item.confidence[n])
  }

  function At(d: Differences, model: string, field: string): Option<Item> {
    if model in d then InRow(d[model], field) else None
  }

  function InRow(row: map<string, Item>, field: string): Option<Item> {
    if field in row then Some(row[field]) else None
  }

  // ---------------------------------------------------------------- the table before pruning

  lemma OwnerOfPrefix(channels: seq<Upstream>, i: nat)
    requires i < |channels|
    ensures Names(channels[..i + 1]) == Names(channels[..i]) + {channels[i].name}
    ensures Owner(channels[..i + 1], channels[i].name) == channels[i]
    ensures forall n :: n in Names(channels[..i]) && n != channels[i].name ==>
      Owner(channels[..i + 1], n) == Owner(channels[..i], n)
  {
    assert channels[..i + 1][..i] == channels[..i];
  }

  method CollectModels(local: Table, channels: seq<Upstream>) returns (models: set<string>)
    ensures forall m, f :: f in FIELDS && Wanted(local, channels, m, f) ==> m in models
  {
    models := {};
    for k := 0 to |FIELDS| {
      models := models + Row(local, FIELDS[k]).Keys;
    }
    for i := 0 to |channels|
      invariant forall j, m, f :: 0 <= j < i && f in FIELDS && Lookup(channels[j].data, f, m).Some? ==> m in models
    {
      ghost var before := models;
      for k := 0 to |FIELDS|
        invariant before <= models
        invariant forall l, m :: 0 <= l < k && Lookup(channels[i].data, FIELDS[l], m).Some? ==> m in models
      {
        models := models + Row(channels[i].data, FIELDS[k]).Keys;
      }
    }
  }

  ghost predicate TrustIsRight(trust: map<string, bool>, data: Table, models: set<string>) {
    trust.Keys == models && forall m :: m in trust ==> trust[m] == !Placeholder(data, m)
  }

  /** The trust pass: all models of one upstream. */
  method TrustIn(data: Table, models: set<string>) returns (trust: map<string, bool>)
    ensures TrustIsRight(trust, data, models)
  {
    var ratios, completions := Row(data, "model_ratio"), Row(data, "completion_ratio");
    assert forall m :: Placeholder(data, m) == PlaceholderIn(ratios, completions, m);
    trust := TrustFrom(ratios, completions, models);
  }

  method TrustFrom(ratios: map<string, Value>, completions: map<string, Value>, models: set<string>)
    returns (trust: map<string, bool>)
    ensures trust.Keys == models && forall m :: m in trust ==> trust[m] == !PlaceholderIn(ratios, completions, m)
  {
    trust := map[];
    var priced := |ratios| > 0 && |completions| > 0;
    var todo := models;
    while todo != {}
      invariant todo <= models && trust.Keys == models - todo
      invariant forall m :: m in trust ==> trust[m] == !PlaceholderIn(ratios, completions, m)
      decreases |todo|
    {
      var m :| m in todo;
      trust := trust[m := true];
      if priced && m in ratios && m in completions && IsPlaceholder(ratios[m], completions[m]) {
        trust := trust[m := false];
      }
      todo := todo - {m};
    }
  }

  method Trust(channels: seq<Upstream>, models: set<string>) returns (trust: TrustTable)
    ensures trust.Keys == Names(channels)
    ensures forall n :: n in trust ==> TrustIsRight(trust[n], Owner(channels, n).data, models)
  {
    trust := map[];
    for i := 0 to |channels|
      invariant trust.Keys == Names(channels[..i])
      invariant forall n :: n in trust ==> TrustIsRight(trust[n], Owner(channels[..i], n).data, models)
    {
      OwnerOfPrefix(channels, i);
      var t := TrustIn(channels[i].data, models);
      trust := trust[channels[i].name := t];
    }
    assert channels[..|channels|] == channels;
  }

  /** One step of that loop: what the upstream shows, and whether it makes a difference. */
  method CompareOne(localValue: Value, up: Option<Value>) returns (shown: Value, hasValue: bool, differs: bool)
    ensures shown == Shown(localValue, up)
    ensures hasValue == up.Some?
    ensures differs ==> Differs(localValue, up)
    ensures !localValue.Null? && Differs(localValue, up) ==> differs
  {
    shown, hasValue, differs := Null, false, false;
    if up.Some? {
      shown, hasValue := up.value, true;
      if !localValue.Null? && !ValuesEqual(localValue, shown) {
        differs := true;
      } else if ValuesEqual(localValue, shown) {
        shown := SAME;
      }
    }
    if shown.Null? && localValue.Null? {
      shown := SAME;
    }
    if localValue.Null? && !shown.Null? && shown != SAME {
      differs := true;
    }
  }

  /** The maps the loop over the upstreams has filled after n of them. */
  ghost function FilledUpTo(localValue: Value, channels: seq<Upstream>, model: string, field: string,
                            n: nat): map<string, Value>
    requires n <= |channels|
  {
    if n == 0 then map[]
    else
      var c := channels[n - 1];
      FilledUpTo(localValue, channels, model, field, n - 1)[c.name := Shown(localValue, Lookup(c.data, field, model))]
  }

  /** One model's column of the trust table. */
  ghost function Column(trust: TrustTable, model: string): map<string, bool> {
    map n | n in trust && model in trust[n] :: trust[n][model]
  }

  ghost function TrustUpTo(column: map<string, bool>, channels: seq<Upstream>, n: nat): map<string, bool>
    requires n <= |channels| && Names(channels) <= column.Keys
  {
    if n == 0 then map[]
    else
      var name := channels[n - 1].name;
      NameIsThere(channels, n - 1);
      TrustUpTo(column, channels, n - 1)[name := column[name]]
  }

  lemma {:induction false} FilledMeaning(localValue: Value, channels: seq<Upstream>, model: string, field: string,
                                         n: nat)
    requires n <= |channels|
    ensures var filled := FilledUpTo(localValue, channels, model, field, n);
      && filled.Keys == Names(channels[..n])
      && forall name :: name in filled ==>
           filled[name] == Shown(localValue, Lookup(Owner(channels[..n], name).data, field, model))
  {
    if n > 0 {
      FilledMeaning(localValue, channels, model, field, n - 1);
      OwnerOfPrefix(channels, n - 1);
    }
  }

  lemma {:induction false} TrustMeaning(column: map<string, bool>, channels: seq<Upstream>, n: nat)
    requires n <= |channels| && Names(channels) <= column.Keys
    ensures TrustUpTo(column, channels, n).Keys == Names(channels[..n])
    ensures forall name :: name in TrustUpTo(column, channels, n) ==>
      name in column && TrustUpTo(column, channels, n)[name] == column[name]
  {
    if n > 0 {
      TrustMeaning(column, channels, n - 1);
      OwnerOfPrefix(channels, n - 1);
      NameIsThere(channels, n - 1);
    }
  }

  /** The loop over the upstreams for one model and one field. */
  method CompareUpstreams(localValue: Value, channels: seq<Upstream>, model: string, field: string, trust: TrustTable)
    returns (upstreams: map<string, Value>, confidence: map<string, bool>, hasUpstreamValue: bool, hasDifference: bool)
    requires Names(channels) <= Column(trust, model).Keys
    ensures upstreams == FilledUpTo(localValue, channels, model, field, |channels|)
    ensures confidence == TrustUpTo(Column(trust, model), channels, |channels|)
    ensures hasUpstreamValue <==> exists j :: 0 <= j < |channels| && Lookup(channels[j].data, field, model).Some?
    ensures hasDifference ==> SomeDiffers(localValue, channels, model, field, |channels|)
    ensures !localValue.Null? && SomeDiffers(localValue, channels, model, field, |channels|) ==> hasDifference
  {
    upstreams, confidence, hasUpstreamValue, hasDifference := map[], map[], false, false;
    for i := 0 to |channels|
      invariant upstreams == FilledUpTo(localValue, channels, model, field, i)
      invariant confidence == TrustUpTo(Column(trust, model), channels, i)
      invariant hasUpstreamValue <==> exists j :: 0 <= j < i && Lookup(channels[j].data, field, model).Some?
      invariant hasDifference ==> SomeDiffers(localValue, channels, model, field, i)
      invariant !localValue.Null? && SomeDiffers(localValue, channels, model, field, i) ==> hasDifference
    {
      var c := channels[i];
      NameIsThere(channels, i);
      assert c.name in Column(trust, model);
      SomeDiffersGrows(localValue, channels, model, field, i);
      var shown, hasValue, differs := CompareOne(localValue, Lookup(c.data, field, model));
      hasUpstreamValue, hasDifference := hasUpstreamValue || hasValue, hasDifference || differs;
      upstreams := upstreams[c.name := shown];
      confidence := confidence[c.name := trust[c.name][model]];
    }
  }

  lemma EntryIsFilled(local: Table, channels: seq<Upstream>, model: string, field: string)
    ensures Entry(local, channels, model, field).upstreams ==
      FilledUpTo(LocalValue(local, field, model), channels, model, field, |channels|)
  {
    FilledMeaning(LocalValue(local, field, model), channels, model, field, |channels|);
    assert channels[..|channels|] == channels;
  }

  /** The trust table holds what the entries of a model must show. */
  ghost predicate TrustOk(trust: TrustTable, channels: seq<Upstream>, model: string) {
    Names(channels) <= Column(trust, model).Keys
    && forall n :: n in Names(channels) ==> Column(trust, model)[n] == Confidences(channels, model)[n]
  }

  lemma TrustCovers(trust: TrustTable, channels: seq<Upstream>, models: set<string>, model: string)
    requires trust.Keys == Names(channels) && model in models
    requires forall n :: n in trust ==> TrustIsRight(trust[n], Owner(channels, n).data, models)
    ensures TrustOk(trust, channels, model)
  {
  }

  lemma TrustIsColumn(column: map<string, bool>, channels: seq<Upstream>, expected: map<string, bool>)
    requires expected.Keys == Names(channels) && expected.Keys <= column.Keys
    requires forall n :: n in expected ==> column[n] == expected[n]
    ensures TrustUpTo(column, channels, |channels|) == expected
  {
    TrustMeaning(column, channels, |channels|);
    assert channels[..|channels|] == channels;
  }

  /** The entry for one model and one field, if it is to be included. */
  method Compare(local: Table, channels: seq<Upstream>, model: string, field: string, trust: TrustTable)
    returns (r: Option<Item>)
    requires TrustOk(trust, channels, model)
    ensures r == Cell(local, channels, model, field)
  {
    var localValue := LocalValue(local, field, model);
    var upstreams, confidence, hasUpstreamValue, hasDifference :=
      CompareUpstreams(localValue, channels, model, field, trust);
    EntryIsFilled(local, channels, model, field);
    TrustIsColumn(Column(trust, model), channels, Confidences(channels, model));
    var item := Item(localValue, upstreams, confidence);
    assert item == Entry(local, channels, model, field);
    var shouldInclude := if !localValue.Null? then hasDifference else hasUpstreamValue;
    r := if shouldInclude then Some(item) else None;
  }

  predicate SomeDiffers(localValue: Value, channels: seq<Upstream>, model: string, field: string, n: nat)
    requires n <= |channels|
  {
    exists j :: 0 <= j < n && Differs(localValue, Lookup(channels[j].data, field, model))
  }

  lemma SomeDiffersGrows(localValue: Value, channels: seq<Upstream>, model: string, field: string, n: nat)
    requires n < |channels|
    ensures SomeDiffers(localValue, channels, model, field, n + 1) <==>
      (SomeDiffers(localValue, channels, model, field, n)
       || Differs(localValue, Lookup(channels[n].data, field, model)))
  {
  }

  /** A cell before pruning: an entry with every upstream iff it is wanted. */
  function RawCell(local: Table, channels: seq<Upstream>, model: string, field: string): Option<Item> {
    if field in FIELDS then Cell(local, channels, model, field) else None
  }

  function Cell(local: Table, channels: seq<Upstream>, model: string, field: string): Option<Item> {
    if Wanted(local, channels, model, field) then Some(Entry(local, channels, model, field)) else None
  }

  ghost predicate IsRaw(d: Differences, local: Table, channels: seq<Upstream>) {
    forall m, f :: At(d, m, f) == RawCell(local, channels, m, f)
  }

  method CompareFields(local: Table, channels: seq<Upstream>, model: string, fields: seq<string>,
                       trust: TrustTable)
    returns (row: map<string, Item>)
    requires TrustOk(trust, channels, model)
    ensures forall f :: InRow(row, f) == (if f in fields then Cell(local, channels, model, f) else None)
  {
    row := map[];
    for k := 0 to |fields|
      invariant forall f :: InRow(row, f) == (if f in fields[..k] then Cell(local, channels, model, f) else None)
    {
      assert fields[..k + 1] == fields[..k] + [fields[k]];
      var item := Compare(local, channels, model, fields[k], trust);
      if item.Some? {
        row := row[fields[k] := item.value];
      }
    }
    assert fields[..|fields|] == fields;
  }

  method CompareModel(local: Table, channels: seq<Upstream>, model: string, trust: TrustTable)
    returns (row: map<string, Item>)
    requires TrustOk(trust, channels, model)
    ensures forall f :: InRow(row, f) == RawCell(local, channels, model, f)
  {
    row := CompareFields(local, channels, model, FIELDS, trust);
  }

  method CompareAll(local: Table, channels: seq<Upstream>) returns (d: Differences)
    ensures IsRaw(d, local, channels)
  {
    var models := CollectModels(local, channels);
    var trust := Trust(channels, models);
    d := map[];
    var todo := models;
    while todo != {}
      invariant todo <= models && d.Keys <= models - todo
      invariant forall m, f :: m !in todo ==> At(d, m, f) == RawCell(local, channels, m, f)
      decreases |todo|
    {
      var m :| m in todo;
      TrustCovers(trust, channels, models, m);
      var row := CompareModel(local, channels, m, trust);
      ghost var before := d;
      if row != map[] {
        d := d[m := row];
      }
      todo := todo - {m};
      assert forall f :: At(d, m, f) == InRow(row, f);
      assert forall other, f :: other != m ==> At(d, other, f) == At(before, other, f);
    }
  }

  // ---------------------------------------------------------------- pruning

  ghost predicate Listed(d: Differences, name: string) {
    exists m, f :: At(d, m, f).Some? && Speaks(At(d, m, f).value, name)
  }

  predicate Speaks(item: Item, name: string) {
    name in item.upstreams && Tangible(item.upstreams[name])
  }

  method SpeakersIn(row: map<string, Item>, kept: set<string>) returns (r: set<string>)
    ensures forall n :: n in r <==> n in kept || exists f :: f in row && Speaks(row[f], n)
  {
    r := kept;
    var todo := row.Keys;
    while todo != {}
      invariant todo <= row.Keys
      invariant forall n :: n in r <==> n in kept || exists f :: f in row && f !in todo && Speaks(row[f], n)
      decreases |todo|
    {
      var f :| f in todo;
      var item := row[f];
      ghost var before := r;
      var names := item.upstreams.Keys;
      while names != {}
        invariant names <= item.upstreams.Keys
        invariant forall n :: n in r <==> n in before || (Speaks(item, n) && n !in names)
        decreases |names|
      {
        var n :| n in names;
        if Tangible(item.upstreams[n]) {
          r := r + {n};
        }
        names := names - {n};
      }
      todo := todo - {f};
    }
  }

  method Speakers(d: Differences) returns (kept: set<string>)
    ensures forall n :: n in kept <==> Listed(d, n)
  {
    kept := {};
    var todo := d.Keys;
    while todo != {}
      invariant todo <= d.Keys
      invariant forall n :: n in kept <==> exists m, f :: m in d && m !in todo && f in d[m] && Speaks(d[m][f], n)
      decreases |todo|
    {
      var m :| m in todo;
      kept := SpeakersIn(d[m], kept);
      todo := todo - {m};
    }
    forall n ensures n in kept <==> Listed(d, n) {
      if n in kept {
        var m, f :| m in d && f in d[m] && Speaks(d[m][f], n);
        assert At(d, m, f) == Some(d[m][f]);
      }
    }
  }

  predicate Telling(item: Item, kept: set<string>) {
    exists n :: n in kept && n in item.upstreams && item.upstreams[n] != SAME
  }

  method PruneItem(item: Item, kept: set<string>) returns (r: Item, allSame: bool)
    requires item.upstreams.Keys == item.confidence.Keys
    ensures r == Restricted(item, kept)
    ensures allSame <==> !Telling(item, kept)
    ensures |r.upstreams| == 0 ==> allSame
  {
    r := item;
    var todo := item.upstreams.Keys;
    while todo != {}
      invariant todo <= item.upstreams.Keys
      invariant r == Restricted(item, kept + todo)
      decreases |todo|
    {
      var n :| n in todo;
      if n !in kept {
        r := r.(upstreams := r.upstreams - {n}, confidence := r.confidence - {n});
      }
      todo := todo - {n};
    }
    assert kept + todo == kept;
    allSame := true;
    todo := r.upstreams.Keys;
    while todo != {} && allSame
      invariant todo <= r.upstreams.Keys
      invariant allSame <==> forall n :: n in r.upstreams && n !in todo ==> r.upstreams[n] == SAME
      decreases |todo|
    {
      var n :| n in todo;
      if r.upstreams[n] != SAME {
        allSame := false;
      }
      todo := todo - {n};
    }
  }

  predicate Whole(item: Item) { item.upstreams.Keys == item.confidence.Keys }

  function Pruned(item: Option<Item>, kept: set<string>): Option<Item> {
    if item.Some? && Telling(item.value, kept) then Some(Restricted(item.value, kept)) else None
  }

  method PruneRow(row: map<string, Item>, kept: set<string>) returns (r: map<string, Item>)
    requires forall f :: f in row ==> Whole(row[f])
    ensures forall f :: InRow(r, f) == Pruned(InRow(row, f), kept)
  {
    r := row;
    var todo := row.Keys;
    while todo != {}
      invariant todo <= row.Keys
      invariant forall f :: f in todo ==> InRow(r, f) == InRow(row, f)
      invariant forall f :: f !in todo ==> InRow(r, f) == Pruned(InRow(row, f), kept)
      decreases |todo|
    {
      var f :| f in todo;
      ghost var before := r;
      var item, allSame := PruneItem(row[f], kept);
      if |item.upstreams| == 0 || allSame {
        r := r - {f};
      } else {
        r := r[f := item];
      }
      todo := todo - {f};
      assert InRow(r, f) == Pruned(InRow(row, f), kept);
      assert forall g :: g != f ==> InRow(r, g) == InRow(before, g);
    }
  }

  method Prune(d: Differences) returns (r: Differences, kept: set<string>)
    requires forall m, f :: m in d && f in d[m] ==> Whole(d[m][f])
    ensures IsPruned(r, d, kept) && forall n :: n in kept <==> Listed(d, n)
  {
    kept := Speakers(d);
    r := d;
    var todo := d.Keys;
    while todo != {}
      invariant todo <= d.Keys
      invariant forall m, f :: At(r, m, f) == if m in todo then At(d, m, f) else Pruned(At(d, m, f), kept)
      invariant forall m :: m in r && m !in todo ==> r[m] != map[]
      invariant forall m :: m in todo ==> m in r && r[m] == d[m]
      decreases |todo|
    {
      var m :| m in todo;
      var row := PruneRow(d[m], kept);
      ghost var before := r;
      r := if |row| == 0 then r - {m} else r[m := row];
      todo := todo - {m};
      assert forall f :: At(r, m, f) == InRow(row, f);
      assert forall other, f :: other != m ==> At(r, other, f) == At(before, other, f);
    }
    assert IsPruned(r, d, kept);
  }

  ghost predicate IsPruned(r: Differences, d: Differences, kept: set<string>) {
    (forall m, f :: At(r, m, f) == Pruned(At(d, m, f), kept)) && (forall m :: m in r ==> r[m] != map[])
  }

  // ---------------------------------------------------------------- the whole comparison

  /** An upstream to list: somewhere in the comparison it has a value of its own that differs. */
  ghost predicate DiffersSomewhere(local: Table, channels: seq<Upstream>, name: string) {
    name in Names(channels) && exists m, f :: f in FIELDS && Tangible(ShownFor(local, channels, m, f, name))
  }

  /** What the comparison reports for a cell, for any input. */
  ghost predicate Reports(r: Option<Item>, local: Table, channels: seq<Upstream>, kept: set<string>, model: string,
                          field: string) {
    r == Pruned(RawCell(local, channels, model, field), kept)
  }

  ghost predicate IsDiff(d: Differences, local: Table, channels: seq<Upstream>, kept: set<string>) {
    (forall n :: n in kept <==> DiffersSomewhere(local, channels, n))
    && (forall m, f :: Reports(At(d, m, f), local, channels, kept, m, f))
    && (forall m :: m in d ==> d[m] != map[])
  }

  lemma TangibleIsWanted(local: Table, channels: seq<Upstream>, m: string, f: string, name: string)
    requires name in Names(channels) && Tangible(ShownFor(local, channels, m, f, name))
    ensures Wanted(local, channels, m, f)
  {
    var i := LastOfName(channels, name);
    OwnName(channels, i);
  }

  lemma ListedMeaning(d: Differences, local: Table, channels: seq<Upstream>, name: string)
    requires IsRaw(d, local, channels)
    ensures Listed(d, name) <==> DiffersSomewhere(local, channels, name)
  {
    if Listed(d, name) {
      var m, f :| At(d, m, f).Some? && Speaks(At(d, m, f).value, name);
      assert Tangible(ShownFor(local, channels, m, f, name));
    }
    if DiffersSomewhere(local, channels, name) {
      var m, f :| f in FIELDS && Tangible(ShownFor(local, channels, m, f, name));
      TangibleIsWanted(local, channels, m, f, name);
      assert At(d, m, f) == Some(Entry(local, channels, m, f));
    }
  }

  /** buildDifferences, which returns d only; kept is its set channelHasDiff. */
  method BuildDifferences(local: Table, channels: seq<Upstream>) returns (d: Differences, kept: set<string>)
    ensures IsDiff(d, local, channels, kept)
  {
    var raw := CompareAll(local, channels);
    forall m, f | m in raw && f in raw[m] ensures Whole(raw[m][f]) {
      assert At(raw, m, f) == Some(Entry(local, channels, m, f));
    }
    d, kept := Prune(raw);
    forall n ensures n in kept <==> DiffersSomewhere(local, channels, n) {
      ListedMeaning(raw, local, channels, n);
    }
  }

  // ---------------------------------------------------------------- what it means

  predicate UniqueNames(channels: seq<Upstream>) {
    forall i, j :: 0 <= i < j < |channels| ==> channels[i].name != channels[j].name
  }

  /** An upstream value that differs from the local one and is neither null nor the marker text. */
  predicate TangiblyDiffers(local: Value, up: Option<Value>) {
    Differs(local, up) && Tangible(up.value)
  }

  predicate NothingThere(up: Option<Value>) { up.None? || up.value.Null? }

  ghost predicate ListedUpstream(local: Table, channels: seq<Upstream>, i: nat)
    requires i < |channels|
  {
    exists m, f :: f in FIELDS && TangiblyDiffers(LocalValue(local, f, m), Lookup(channels[i].data, f, m))
  }

  lemma ListedUpstreamIsKept(d: Differences, local: Table, channels: seq<Upstream>, kept: set<string>, i: nat)
    requires IsDiff(d, local, channels, kept) && IsLast(channels, i)
    ensures channels[i].name in kept <==> ListedUpstream(local, channels, i)
  {
    OwnName(channels, i);
    var name := channels[i].name;
    if name in kept {
      var m, f :| f in FIELDS && Tangible(ShownFor(local, channels, m, f, name));
      assert TangiblyDiffers(LocalValue(local, f, m), Lookup(channels[i].data, f, m));
    }
    if ListedUpstream(local, channels, i) {
      var m, f :| f in FIELDS && TangiblyDiffers(LocalValue(local, f, m), Lookup(channels[i].data, f, m));
      assert Tangible(ShownFor(local, channels, m, f, name));
    }
  }

  ghost predicate WitnessAt(local: Table, channels: seq<Upstream>, model: string, field: string, i: nat)
    requires i < |channels|
  {
    var up := Lookup(channels[i].data, field, model);
    TangiblyDiffers(LocalValue(local, field, model), up)
    || (!LocalValue(local, field, model).Null? && NothingThere(up) && ListedUpstream(local, channels, i))
  }

  lemma ShownMeaning(local: Value, up: Option<Value>)
    ensures Shown(local, up) != SAME <==> (TangiblyDiffers(local, up) || (!local.Null? && NothingThere(up)))
    ensures TangiblyDiffers(local, up) ==> Shown(local, up) == up.value
    ensures !local.Null? && NothingThere(up) ==> Shown(local, up) == Null
  {
  }

  lemma TellingMeaning(d: Differences, local: Table, channels: seq<Upstream>, kept: set<string>, model: string,
                       field: string)
    requires IsDiff(d, local, channels, kept)
    ensures Telling(Entry(local, channels, model, field), kept) ==>
      exists i :: IsLast(channels, i) && WitnessAt(local, channels, model, field, i)
  {
    var item := Entry(local, channels, model, field);
    if Telling(item, kept) {
      var n :| n in kept && n in item.upstreams && item.upstreams[n] != SAME;
      var i := LastOfName(channels, n);
      OwnName(channels, i);
      ListedUpstreamIsKept(d, local, channels, kept, i);
      ShownMeaning(LocalValue(local, field, model), Lookup(channels[i].data, field, model));
      assert WitnessAt(local, channels, model, field, i);
    }
  }

  lemma WitnessTells(d: Differences, local: Table, channels: seq<Upstream>, kept: set<string>, model: string,
                     field: string, i: nat)
    requires IsDiff(d, local, channels, kept) && IsLast(channels, i) && field in FIELDS
    requires WitnessAt(local, channels, model, field, i)
    ensures Telling(Entry(local, channels, model, field), kept)
  {
    OwnName(channels, i);
    ListedUpstreamIsKept(d, local, channels, kept, i);
    ShownMeaning(LocalValue(local, field, model), Lookup(channels[i].data, field, model));
    var item := Entry(local, channels, model, field);
    assert channels[i].name in kept && item.upstreams[channels[i].name] != SAME;
  }

  /** For every input: a wanted cell survives the pruning iff some upstream, the last of its name,
      has a tangible differing value in it, or is listed for another cell and has nothing in it
      where the local value is set. */
  lemma ReportedIff(d: Differences, local: Table, channels: seq<Upstream>, kept: set<string>, model: string,
                    field: string)
    requires IsDiff(d, local, channels, kept)
    ensures At(d, model, field).Some? <==>
      (field in FIELDS && Wanted(local, channels, model, field)
       && exists i :: IsLast(channels, i) && WitnessAt(local, channels, model, field, i))
  {
    assert Reports(At(d, model, field), local, channels, kept, model, field);
    if field in FIELDS {
      TellingMeaning(d, local, channels, kept, model, field);
      forall i | IsLast(channels, i) && WitnessAt(local, channels, model, field, i)
        ensures Telling(Entry(local, channels, model, field), kept)
      {
        WitnessTells(d, local, channels, kept, model, field, i);
      }
    }
  }

  /** No null and no marker text among the upstream values. */
  ghost predicate Clean(channels: seq<Upstream>) {
    forall i, m, f :: 0 <= i < |channels| && Lookup(channels[i].data, f, m).Some? ==>
      Tangible(Lookup(channels[i].data, f, m).value)
  }

  /** With clean upstream values the diff is exact: a cell is reported iff it is wanted. */
  lemma CleanDiffIsExact(d: Differences, local: Table, channels: seq<Upstream>, kept: set<string>, model: string,
                         field: string)
    requires IsDiff(d, local, channels, kept) && UniqueNames(channels) && Clean(channels)
    ensures At(d, model, field).Some? <==> (field in FIELDS && Wanted(local, channels, model, field))
  {
    ReportedIff(d, local, channels, kept, model, field);
    if field in FIELDS && Wanted(local, channels, model, field) {
      var i :| 0 <= i < |channels| && Differs(LocalValue(local, field, model), Lookup(channels[i].data, field, model));
      assert IsLast(channels, i) && WitnessAt(local, channels, model, field, i);
    }
  }

  /** What a reported entry says about one upstream. */
  ghost predicate EntryIsRight(item: Item, local: Table, channels: seq<Upstream>, model: string, field: string, i: nat)
    requires i < |channels|
  {
    var name, up := channels[i].name, Lookup(channels[i].data, field, model);
    (name in item.upstreams <==> ListedUpstream(local, channels, i))
    && (name in item.upstreams ==>
          && name in item.confidence
          && (item.confidence[name] <==> !Placeholder(channels[i].data, model))
          && item.upstreams[name] ==
             (if TangiblyDiffers(item.current, up) then up.value
              else if NothingThere(up) && !item.current.Null? then Null else SAME))
  }

  /** Every reported entry carries the local value and lists exactly the upstreams that differ
      somewhere, each with its differing value, a null for nothing there, or the marker. Where a
      name repeats, its last upstream is the one listed. */
  lemma EntryMeaning(d: Differences, local: Table, channels: seq<Upstream>, kept: set<string>, model: string,
                     field: string)
    requires IsDiff(d, local, channels, kept)
    ensures At(d, model, field).Some? ==>
      var item := At(d, model, field).value;
      && item.current == LocalValue(local, field, model)
      && item.upstreams.Keys == item.confidence.Keys <= Names(channels)
      && forall i: nat :: IsLast(channels, i) ==> EntryIsRight(item, local, channels, model, field, i)
  {
    assert Reports(At(d, model, field), local, channels, kept, model, field);
    if At(d, model, field).Some? {
      var item := At(d, model, field).value;
      forall i: nat | IsLast(channels, i) ensures EntryIsRight(item, local, channels, model, field, i) {
        OwnName(channels, i);
        ListedUpstreamIsKept(d, local, channels, kept, i);
        ShownMeaning(item.current, Lookup(channels[i].data, field, model));
      }
    }
  }

  // ---------------------------------------------------------------- the same, spelled out over the tables

  /** Two numbers are equal when they are less than 1e-9 apart, other values when they are the same. */
  lemma ValuesEqualMeaning(a: Value, b: Value)
    ensures a.Num? && b.Num? ==> (ValuesEqual(a, b) <==> -0.000000001 < a.number - b.number < 0.000000001)
    ensures !(a.Num? && b.Num?) ==> (ValuesEqual(a, b) <==> a == b)
  {
  }

  lemma FieldsMeaning(f: string)
    ensures f in FIELDS <==>
      f == "model_ratio" || f == "completion_ratio" || f == "cache_ratio" || f == "create_cache_ratio"
      || f == "image_ratio" || f == "audio_ratio" || f == "audio_completion_ratio" || f == "model_price"
      || f == "billing_mode" || f == "billing_expr"
  {
    assert FIELDS[0] == "model_ratio" && FIELDS[1] == "completion_ratio" && FIELDS[2] == "cache_ratio";
    assert FIELDS[3] == "create_cache_ratio" && FIELDS[4] == "image_ratio" && FIELDS[5] == "audio_ratio";
    assert FIELDS[6] == "audio_completion_ratio" && FIELDS[7] == "model_price" && FIELDS[8] == "billing_mode";
    assert FIELDS[9] == "billing_expr";
  }

  /** The table has the value v. */
  predicate Has(t: Table, field: string, model: string, v: Value) {
    field in t && model in t[field] && t[field][model] == v
  }

  predicate IsNear(v: Value, x: real) {
    v.Num? && -0.000000001 < v.number - x < 0.000000001
  }

  /** A model is not trusted exactly when its ratio is 37.5 and its completion ratio 1. */
  lemma PlaceholderMeaning(data: Table, model: string)
    ensures Placeholder(data, model) <==>
      && (exists v :: Has(data, "model_ratio", model, v) && IsNear(v, 37.5))
      && (exists v :: Has(data, "completion_ratio", model, v) && IsNear(v, 1.0))
  {
    if Placeholder(data, model) {
      assert Has(data, "model_ratio", model, data["model_ratio"][model]);
      assert Has(data, "completion_ratio", model, data["completion_ratio"][model]);
    }
  }

  /** The local price is missing or null. */
  predicate NoLocal(local: Table, field: string, model: string) {
    !(field in local && model in local[field]) || local[field][model] == Null
  }

  /** Two numbers at least 1e-9 apart, or two different values that are not both numbers. */
  predicate Apart(a: Value, b: Value) {
    if a.Num? && b.Num? then a.number - b.number >= 0.000000001 || b.number - a.number >= 0.000000001 else a != b
  }

  predicate NewsFrom(local: Table, data: Table, field: string, model: string) {
    field in data && model in data[field]
    && (NoLocal(local, field, model) || Apart(local[field][model], data[field][model]))
  }

  lemma DiffersMeaning(local: Table, data: Table, field: string, model: string)
    ensures Differs(LocalValue(local, field, model), Lookup(data, field, model))
      <==> NewsFrom(local, data, field, model)
  {
  }

  /** No null and no "same" among the upstream values. */
  predicate PlainPrices(channels: seq<Upstream>) {
    forall i, f, m :: 0 <= i < |channels| && f in channels[i].data && m in channels[i].data[f] ==>
      channels[i].data[f][m] != Null && channels[i].data[f][m] != Text("same")
  }

  /** The diff of plain prices: a model's field is reported iff it is one of the ten and some upstream
      has a value there while the local one is missing or apart from it. */
  lemma PlainDiffIsExact(d: Differences, local: Table, channels: seq<Upstream>, kept: set<string>,
                         model: string, field: string)
    requires IsDiff(d, local, channels, kept) && UniqueNames(channels) && PlainPrices(channels)
    ensures (model in d && field in d[model]) <==>
      field in FIELDS && exists i :: 0 <= i < |channels| && NewsFrom(local, channels[i].data, field, model)
  {
    CleanDiffIsExact(d, local, channels, kept, model, field);
    forall i | 0 <= i < |channels|
      ensures Differs(LocalValue(local, field, model), Lookup(channels[i].data, field, model))
        <==> NewsFrom(local, channels[i].data, field, model)
    {
      DiffersMeaning(local, channels[i].data, field, model);
    }
  }

  /** And an entry shows for each upstream it lists: null if it has no value where the local one is
      set, its value if that is news, and "same" otherwise. */
  lemma PlainEntryMeaning(d: Differences, local: Table, channels: seq<Upstream>, kept: set<string>,
                          model: string, field: string, i: nat)
    requires IsDiff(d, local, channels, kept) && UniqueNames(channels) && PlainPrices(channels) && i < |channels|
    ensures model in d && field in d[model] && channels[i].name in d[model][field].upstreams ==>
      d[model][field].upstreams[channels[i].name]
      == (if NewsFrom(local, channels[i].data, field, model) then channels[i].data[field][model]
          else if field in channels[i].data && model in channels[i].data[field] then Text("same")
          else if NoLocal(local, field, model) then Text("same") else Null)
  {
    EntryMeaning(d, local, channels, kept, model, field);
    DiffersMeaning(local, channels[i].data, field, model);
    assert IsLast(channels, i);
    if At(d, model, field).Some? {
      assert EntryIsRight(At(d, model, field).value, local, channels, model, field, i);
    }
  }

  // ---------------------------------------------------------------- two differences that get lost

  function OneValue(v: Value): Table { map["model_price" := map["m" := v]] }

  /** A null is counted as a difference and then pruned with its upstream: the cell is wanted and
      not reported. */
  lemma NullIsDropped(d: Differences, kept: set<string>)
    requires IsDiff(d, OneValue(Num(1.0)), [Upstream("a", OneValue(Null))], kept)
    ensures Wanted(OneValue(Num(1.0)), [Upstream("a", OneValue(Null))], "m", "model_price")
    ensures At(d, "m", "model_price").None?
  {
    var local, channels := OneValue(Num(1.0)), [Upstream("a", OneValue(Null))];
    assert Lookup(channels[0].data, "model_price", "m") == Some(Null);
    assert Differs(LocalValue(local, "model_price", "m"), Lookup(channels[0].data, "model_price", "m"));
    forall m, f ensures !TangiblyDiffers(LocalValue(local, f, m), Lookup(channels[0].data, f, m)) {
    }
    ReportedIff(d, local, channels, kept, "m", "model_price");
  }

  function SameNames(): seq<Upstream> {
    [Upstream("a", OneValue(Num(2.0))), Upstream("a", OneValue(Num(1.0)))]
  }

  /** Of two upstreams with one name only the last is kept: the cell is wanted and not reported. */
  lemma RepeatedNameIsDropped(d: Differences, kept: set<string>)
    requires IsDiff(d, OneValue(Num(1.0)), SameNames(), kept)
    ensures Wanted(OneValue(Num(1.0)), SameNames(), "m", "model_price")
    ensures At(d, "m", "model_price").None?
  {
    var local := OneValue(Num(1.0));
    var channels := SameNames();
    var first, last := channels[0], channels[1];
    assert channels[0] == first && channels[1] == last;
    assert Lookup(first.data, "model_price", "m") == Some(Num(2.0));
    assert Differs(LocalValue(local, "model_price", "m"), Lookup(channels[0].data, "model_price", "m"));
    assert forall n :: n in Names(channels) ==> Owner(channels, n) == last;
    assert forall n, m, f :: n in Names(channels) ==> !Tangible(ShownFor(local, channels, m, f, n));
    assert kept == {};
    assert Reports(At(d, "m", "model_price"), local, channels, kept, "m", "model_price");
  }
}
