/**
 Choosing one price per model from the models.dev catalogue, where several providers may list the
 same model, and publishing it as ratios. Costs are reals; NaN and infinities, which the code
 rejects, do not occur.
 */
module ModelsDev {
  import opened Options
  import opened Numbers

  datatype Cost = Cost(input: Option<real>, output: Option<real>, cacheRead: Option<real>)

  datatype Candidate = Candidate(provider: string, input: real, output: Option<real>, cacheRead: Option<real>)

  /** provider -> model -> cost */
  type Catalogue = map<string, map<string, Cost>>

  datatype Ratios = Ratios(model: map<string, real>, completion: map<string, real>, cache: map<string, real>)

  datatype Error = EmptyResponse | NoValidEntries

  datatype Result = Ok(ratios: Ratios) | Err(error: Error)

  const USD := 500.0
  const BASE := 1000.0

  // ---------------------------------------------------------------- provider order

  /** Go's < on strings. */
  predicate Less(a: string, b: string) {
    |b| > 0 && (|a| == 0 || a[0] < b[0] || (a[0] == b[0] && Less(a[1..], b[1..])))
  }

  lemma {:induction false} LessIsStrict(a: string, b: string)
    ensures !(Less(a, b) && Less(b, a))
    ensures Less(a, b) || Less(b, a) || a == b
  {
    if |a| > 0 && |b| > 0 {
      LessIsStrict(a[1..], b[1..]);
      assert a == [a[0]] + a[1..] && b == [b[0]] + b[1..];
    }
  }

  lemma {:induction false} LessIsTransitive(a: string, b: string, c: string)
    requires Less(a, b) && Less(b, c)
    ensures Less(a, c)
  {
    if |a| > 0 && a[0] == b[0] == c[0] {
      LessIsTransitive(a[1..], b[1..], c[1..]);
    }
  }

  predicate Ascending(names: seq<string>) {
    forall i, j :: 0 <= i < j < |names| ==> Less(names[i], names[j])
  }

  /** sort.Strings on the keys of a map. */
  method SortedKeys(keys: set<string>) returns (names: seq<string>)
    ensures Ascending(names) && forall x :: x in names <==> x in keys
  {
    names := [];
    var todo := keys;
    while todo != {}
      invariant Ascending(names) && todo <= keys && forall x :: x in names <==> x in keys && x !in todo
      decreases |todo|
    {
      var x :| x in todo;
      names := InsertName(x, names);
      todo := todo - {x};
    }
  }

  method InsertName(x: string, names: seq<string>) returns (r: seq<string>)
    requires Ascending(names) && x !in names
    ensures Ascending(r) && forall y :: y in r <==> y in names || y == x
  {
    var i := 0;
    while i < |names| && Less(names[i], x)
      invariant 0 <= i <= |names| && forall k :: 0 <= k < i ==> Less(names[k], x)
    {
      i := i + 1;
    }
    r := names[..i] + [x] + names[i..];
    forall k | i <= k < |names| ensures Less(x, names[k]) {
      LessIsStrict(names[i], x);
      if k > i {
        LessIsTransitive(x, names[i], names[k]);
      }
    }
    assert forall k :: i < k < |r| ==> r[k] == names[k - 1];
    assert forall y :: y in names <==> y in names[..i] || y in names[i..];
  }

  // ---------------------------------------------------------------- candidates

  /** buildModelsDevCandidate. */
  function BuildCandidate(provider: string, cost: Cost): Option<Candidate> {
    if cost.input.None? || cost.input.value < 0.0 then None
    else if cost.output.Some? && cost.output.value < 0.0 then None
    else if cost.input.value == 0.0 && cost.output.Some? && cost.output.value > 0.0 then None
    else Some(Candidate(provider, cost.input.value, cost.output,
                        if cost.cacheRead.Some? && cost.cacheRead.value >= 0.0 then cost.cacheRead else None))
  }

  predicate IsMultiple(k: real, of: real, price: real) { k >= 0.0 && price == k * of }

  /** A cost is a candidate iff its prices are non-negative and the output price, if any, is some
      non-negative multiple of the input price, so that a completion ratio exists; the candidate
      names the provider and the same prices, a negative cache price being dropped. */
  lemma CandidateMeaning(provider: string, cost: Cost)
    ensures var c := BuildCandidate(provider, cost);
      && (c.Some? <==> (cost.input.Some? && cost.input.value >= 0.0
           && (cost.output.Some? ==> exists k :: IsMultiple(k, cost.input.value, cost.output.value))))
      && (c.Some? ==> c.value.provider == provider)
      && (c.Some? ==> Some(c.value.input) == cost.input && c.value.output == cost.output)
      && (c.Some? ==> (c.value.cacheRead.Some? <==> cost.cacheRead.Some? && cost.cacheRead.value >= 0.0))
      && (c.Some? && c.value.cacheRead.Some? ==> c.value.cacheRead == cost.cacheRead)
  {
    if cost.input.Some? && cost.output.Some? && cost.input.value >= 0.0 {
      var a, b := cost.input.value, cost.output.value;
      if b >= 0.0 && a > 0.0 {
        assert IsMultiple(b / a, a, b);
      } else if b == 0.0 {
        assert IsMultiple(0.0, a, b);
      } else {
        forall k ensures !IsMultiple(k, a, b) {
          if k >= 0.0 {
            assert a == 0.0 ==> k * a == 0.0;
            assert k * a >= 0.0;
          }
        }
      }
    }
  }

  predicate ShouldReplace(current: Candidate, next: Candidate) {
    if (current.input > 0.0) != (next.input > 0.0) then next.input > 0.0
    else if next.input > 0.0 && !NearlyEqual(next.input, current.input) then next.input < current.input
    else Less(next.provider, current.provider)
  }

  function Better(current: Option<Candidate>, next: Candidate): Option<Candidate> {
    if current.None? || ShouldReplace(current.value, next) then Some(next) else current
  }

  /** The valid candidates for a model, in the order of the providers. */
  function Candidates(catalogue: Catalogue, providers: seq<string>, model: string): seq<Candidate> {
    if |providers| == 0 then []
    else
      var before := Candidates(catalogue, providers[..|providers| - 1], model);
      var p := providers[|providers| - 1];
      if p in catalogue && model in catalogue[p] && BuildCandidate(p, catalogue[p][model]).Some?
      then before + [BuildCandidate(p, catalogue[p][model]).value]
      else before
  }

  /** The choice among candidates in a given order. */
  function Choose(candidates: seq<Candidate>): Option<Candidate> {
    if |candidates| == 0 then None
    else Better(Choose(candidates[..|candidates| - 1]), candidates[|candidates| - 1])
  }

  // ---------------------------------------------------------------- what the choice means

  predicate ProvidersAscend(candidates: seq<Candidate>) {
    forall i, j :: 0 <= i < j < |candidates| ==> Less(candidates[i].provider, candidates[j].provider)
  }

  /** Although the comparison is not transitive, over providers in ascending order the choice is one
      of the candidates, has a non-zero input cost iff any candidate has, and costs less than
      1e-9 more than every non-zero candidate. */
  lemma {:induction false} ChoiceMeaning(candidates: seq<Candidate>)
    requires ProvidersAscend(candidates)
    ensures var c := Choose(candidates);
      && (c.Some? <==> |candidates| > 0)
      && (c.Some? ==> exists i :: 0 <= i < |candidates| && c.value == candidates[i])
      && (c.Some? ==> (c.value.input > 0.0 <==> exists i :: 0 <= i < |candidates| && candidates[i].input > 0.0))
      && (c.Some? ==> forall i :: 0 <= i < |candidates| && candidates[i].input > 0.0 ==>
            c.value.input < candidates[i].input + EPSILON)
  {
    if |candidates| > 0 {
      var n := |candidates| - 1;
      var before := candidates[..n];
      ChoiceMeaning(before);
      var next := candidates[n];
      if n > 0 {
        var current := Choose(before).value;
        var k :| 0 <= k < n && current == before[k];
        LessIsStrict(current.provider, next.provider);
        assert before[k] == candidates[k];
      }
      assert candidates[n] == next;
    }
  }

  /** Between equal prices the first provider wins: every non-zero candidate before the choice costs
      more than it, and without non-zero candidates the choice is the first. */
  lemma {:induction false} FirstOfCheapest(candidates: seq<Candidate>) returns (k: nat)
    requires ProvidersAscend(candidates) && |candidates| > 0
    ensures k < |candidates| && Choose(candidates) == Some(candidates[k])
    ensures forall i :: 0 <= i < k && candidates[i].input > 0.0 ==> candidates[k].input < candidates[i].input
    ensures k > 0 ==> candidates[k].input > 0.0
  {
    var n := |candidates| - 1;
    var before := candidates[..n];
    if n == 0 {
      k := 0;
    } else {
      k := FirstOfCheapest(before);
      ChoiceMeaning(before);
      assert before[k] == candidates[k] && forall i :: 0 <= i < n ==> before[i] == candidates[i];
      LessIsStrict(candidates[k].provider, candidates[n].provider);
      if ShouldReplace(candidates[k], candidates[n]) {
        k := n;
      }
    }
  }

  /** The order of the providers matters: with names descending, two steps each within the tolerance
      move the choice beyond it. */
  lemma UnsortedProvidersDrift()
    ensures var a := Candidate("c", 1.0, None, None);
      var b := Candidate("b", 1.0000000009, None, None);
      var c := Candidate("a", 1.0000000018, None, None);
      Choose([a, b, c]) == Some(c) && !(c.input < a.input + EPSILON)
  {
    var a := Candidate("c", 1.0, None, None);
    var b := Candidate("b", 1.0000000009, None, None);
    var c := Candidate("a", 1.0000000018, None, None);
    assert [a, b, c][..2] == [a, b] && [a, b][..1] == [a] && [a][..0] == [];
    assert Choose([]) == None;
    assert Choose([a]) == Some(a);
    assert ShouldReplace(a, b);
    assert Choose([a, b]) == Some(b);
    assert ShouldReplace(b, c);
  }

  lemma {:induction false} CandidatesMeaning(catalogue: Catalogue, providers: seq<string>, model: string)
    requires Ascending(providers)
    ensures var cs := Candidates(catalogue, providers, model);
      && ProvidersAscend(cs) && (forall i :: 0 <= i < |cs| ==> cs[i].provider in providers)
      && (forall c: Candidate :: c in cs <==> (c.provider in providers && Lists(catalogue, model, c)))
  {
    if |providers| > 0 {
      var n := |providers| - 1;
      CandidatesMeaning(catalogue, providers[..n], model);
      assert providers == providers[..n] + [providers[n]];
      var before := Candidates(catalogue, providers[..n], model);
      forall i | 0 <= i < |before| ensures Less(before[i].provider, providers[n]) {
        var k :| 0 <= k < n && providers[..n][k] == before[i].provider;
      }
      assert forall p :: p in providers[..n] ==> p != providers[n] by {
        LessIsStrict(providers[n], providers[n]);
      }
    }
  }

  // ---------------------------------------------------------------- rounding

  /** math.Round: to the nearest integer, halves away from zero. */
  function Round(x: real): int {
    if x >= 0.0 then (x + 0.5).Floor else -((-x + 0.5).Floor)
  }

  function RoundRatio(x: real): real {
    Round(x * 1000000.0) as real / 1000000.0
  }

  predicate Within(a: real, b: real, tolerance: real) {
    -tolerance <= a - b <= tolerance
  }

  function Millionths(n: int): real { n as real / 1000000.0 }

  /** p is x rounded to six decimals, halves away from zero. */
  ghost predicate IsRounded(p: real, x: real) {
    exists n: int :: p == Millionths(n) && -0.5 <= n as real - x * 1000000.0 <= 0.5
      && (x >= 0.0 ==> n as real - x * 1000000.0 > -0.5) && (x < 0.0 ==> n as real - x * 1000000.0 < 0.5)
  }

  lemma RoundingIsClose(x: real)
    ensures IsRounded(RoundRatio(x), x) && Within(RoundRatio(x), x, 0.0000005)
  {
    assert RoundRatio(x) == Millionths(Round(x * 1000000.0));
    var y := x * 1000000.0;
    var n := Round(y) as real;
    assert -0.5 <= n - y <= 0.5;
    assert n / 1000000.0 - y / 1000000.0 == (n - y) / 1000000.0;
  }

  // ---------------------------------------------------------------- the conversion

  /** What must be published for a model whose chosen candidate is c. */
  ghost predicate Published(r: Ratios, model: string, c: Candidate) {
    model in r.model
    && (if c.input == 0.0 then r.model[model] == 0.0 && model !in r.completion && model !in r.cache
        else
          IsPublished(r.model[model], c.input / 2.0)
          && (model in r.completion <==> c.output.Some?)
          && (model in r.completion ==> IsPublished(r.completion[model], c.output.value / c.input))
          && (model in r.cache <==> c.cacheRead.Some?)
          && (model in r.cache ==> IsPublished(r.cache[model], c.cacheRead.value / c.input)))
  }

  /** The exact ratio x, rounded to six decimals, so at most 5e-7 away. */
  ghost predicate IsPublished(p: real, x: real) {
    IsRounded(p, x) && Within(p, x, 0.0000005)
  }

  predicate Lists(catalogue: Catalogue, model: string, c: Candidate) {
    c.provider in catalogue && model in catalogue[c.provider]
    && BuildCandidate(c.provider, catalogue[c.provider][model]) == Some(c)
  }

  /** The published choice for a model: a listed candidate, non-zero if any is, less than 1e-9 above
      every non-zero one, and of the first provider among those at its very price. */
  ghost predicate CheapestNonZero(catalogue: Catalogue, model: string, c: Candidate) {
    Lists(catalogue, model, c)
    && (c.input > 0.0 <==> exists d :: Lists(catalogue, model, d) && d.input > 0.0)
    && (forall d :: Lists(catalogue, model, d) && d.input > 0.0 ==> c.input < d.input + 0.000000001)
    && (forall d :: Lists(catalogue, model, d) && d.input == c.input ==>
          d.provider == c.provider || Less(c.provider, d.provider))
  }

  /** The selection loop over providers and their models. */
  method Select(catalogue: Catalogue) returns (selected: map<string, Candidate>)
    ensures forall m :: m in selected <==> exists c :: Lists(catalogue, m, c)
    ensures forall m :: m in selected ==> CheapestNonZero(catalogue, m, selected[m])
  {
    selected := map[];
    var providers := SortedKeys(catalogue.Keys);
    var i := 0;
    while i < |providers|
      invariant 0 <= i <= |providers|
      invariant forall m :: Chosen(selected, m) == Choose(Candidates(catalogue, providers[..i], m))
    {
      ghost var before := selected;
      assert providers[i] in catalogue;
      assert providers[..i + 1][..i] == providers[..i];
      selected := SelectFrom(providers[i], catalogue[providers[i]], selected);
      forall m ensures Chosen(selected, m) == Choose(Candidates(catalogue, providers[..i + 1], m)) {
        var earlier := Candidates(catalogue, providers[..i], m);
        var later := Candidates(catalogue, providers[..i + 1], m);
        assert Chosen(before, m) == Choose(earlier);
        assert later != earlier ==> later[..|later| - 1] == earlier;
      }
      i := i + 1;
    }
    assert providers[..i] == providers;
    forall m ensures m in selected <==> exists c :: Lists(catalogue, m, c) {
      SelectedMeaning(catalogue, providers, m, Chosen(selected, m));
    }
    forall m | m in selected ensures CheapestNonZero(catalogue, m, selected[m]) {
      SelectedMeaning(catalogue, providers, m, Chosen(selected, m));
    }
  }

  function Chosen(selected: map<string, Candidate>, model: string): Option<Candidate> {
    if model in selected then Some(selected[model]) else None
  }

  /** The choice once a provider's cost has been looked at. */
  function After(chosen: Option<Candidate>, provider: string, cost: Cost): Option<Candidate> {
    var candidate := BuildCandidate(provider, cost);
    if candidate.Some? then Better(chosen, candidate.value) else chosen
  }

  /** The inner loop: one provider's models, in ascending order of name. */
  method SelectFrom(provider: string, models: map<string, Cost>, selected: map<string, Candidate>)
    returns (r: map<string, Candidate>)
    ensures forall m :: m in models ==> Chosen(r, m) == After(Chosen(selected, m), provider, models[m])
    ensures forall m :: m !in models ==> Chosen(r, m) == Chosen(selected, m)
  {
    r := selected;
    var names := SortedKeys(models.Keys);
    var i := 0;
    while i < |names|
      invariant 0 <= i <= |names|
      invariant forall m :: m !in names[..i] ==> Chosen(r, m) == Chosen(selected, m)
      invariant forall m :: m in names[..i] ==> Chosen(r, m) == After(Chosen(selected, m), provider, models[m])
    {
      var m := names[i];
      assert m in models;
      assert names[..i + 1] == names[..i] + [m];
      LessIsStrict(m, m);
      assert m !in names[..i];
      var candidate := BuildCandidate(provider, models[m]);
      if candidate.Some? && (m !in r || ShouldReplace(r[m], candidate.value)) {
        r := r[m := candidate.value];
      }
      i := i + 1;
    }
    assert names[..i] == names;
  }

  lemma FirstAtItsPrice(cs: seq<Candidate>, c: Candidate, d: Candidate)
    requires ProvidersAscend(cs) && |cs| > 0 && Choose(cs) == Some(c) && d in cs && d.input == c.input
    ensures d.provider == c.provider || Less(c.provider, d.provider)
  {
    var k := FirstOfCheapest(cs);
    var i :| 0 <= i < |cs| && cs[i] == d;
    if i < k {
      assert false;
    } else if i == k {
      assert d.provider == c.provider;
    } else {
      assert Less(cs[k].provider, cs[i].provider);
    }
  }

  lemma SelectedMeaning(catalogue: Catalogue, providers: seq<string>, model: string, choice: Option<Candidate>)
    requires Ascending(providers) && forall p :: p in providers <==> p in catalogue
    requires choice == Choose(Candidates(catalogue, providers, model))
    ensures choice.Some? <==> exists c :: Lists(catalogue, model, c)
    ensures choice.Some? ==> CheapestNonZero(catalogue, model, choice.value)
  {
    var cs := Candidates(catalogue, providers, model);
    CandidatesMeaning(catalogue, providers, model);
    ChoiceMeaning(cs);
    forall c: Candidate ensures c in cs <==> Lists(catalogue, model, c) {
    }
    if choice.Some? {
      ChosenIsCheapest(catalogue, model, cs, choice.value);
    } else {
      assert cs == [];
    }
  }

  lemma ChosenIsCheapest(catalogue: Catalogue, model: string, cs: seq<Candidate>, c: Candidate)
    requires ProvidersAscend(cs) && |cs| > 0 && Choose(cs) == Some(c)
    requires forall d: Candidate :: d in cs <==> Lists(catalogue, model, d)
    ensures CheapestNonZero(catalogue, model, c)
  {
    ChoiceMeaning(cs);
    assert c in cs;
    forall d | Lists(catalogue, model, d) && d.input > 0.0
      ensures c.input > 0.0 && c.input < d.input + 0.000000001
    {
      assert d in cs;
      var i :| 0 <= i < |cs| && cs[i] == d;
    }
    forall d | Lists(catalogue, model, d) && d.input == c.input
      ensures d.provider == c.provider || Less(c.provider, d.provider)
    {
      assert d in cs;
      FirstAtItsPrice(cs, c, d);
    }
  }

  /** convertModelsDevToRatioData, after decoding. */
  method Convert(catalogue: Catalogue) returns (r: Result)
    ensures r.Ok? <==> exists m, c :: Lists(catalogue, m, c)
    ensures r.Err? ==> r.error == if |catalogue| == 0 then EmptyResponse else NoValidEntries
    ensures r.Ok? ==> forall m :: m in r.ratios.model ==>
      exists c :: CheapestNonZero(catalogue, m, c) && Published(r.ratios, m, c)
    ensures r.Ok? ==> forall m :: m in r.ratios.model <==> exists c :: Lists(catalogue, m, c)
    ensures r.Ok? ==> r.ratios.completion.Keys + r.ratios.cache.Keys <= r.ratios.model.Keys
  {
    if |catalogue| == 0 {
      return Err(EmptyResponse);
    }
    var selected := Select(catalogue);
    assert forall m, c :: Lists(catalogue, m, c) ==> m in selected;
    if |selected| == 0 {
      return Err(NoValidEntries);
    }
    var ratios := Publish(selected);
    var some :| some in selected;
    assert CheapestNonZero(catalogue, some, selected[some]);
    r := Ok(ratios);
    forall m | m in ratios.model ensures exists c :: CheapestNonZero(catalogue, m, c) && Published(ratios, m, c) {
      assert CheapestNonZero(catalogue, m, selected[m]) && Published(ratios, m, selected[m]);
    }
  }

  /** One model of the second loop. */
  method PublishOne(r: Ratios, m: string, c: Candidate) returns (r': Ratios)
    requires m !in r.model && r.completion.Keys + r.cache.Keys <= r.model.Keys
    ensures r'.model.Keys == r.model.Keys + {m} && r'.completion.Keys + r'.cache.Keys <= r'.model.Keys
    ensures Published(r', m, c)
    ensures forall other, d :: other != m && Published(r, other, d) ==> Published(r', other, d)
  {
    r' := r;
    if c.input == 0.0 {
      r' := r.(model := r.model[m := 0.0]);
    } else {
      var ratio := Rounded(c.input * USD / BASE, c.input / 2.0);
      r' := r'.(model := r'.model[m := ratio]);
      if c.output.Some? {
        var x := c.output.value / c.input;
        var completion := Rounded(x, x);
        r' := r'.(completion := r'.completion[m := completion]);
      }
      if c.cacheRead.Some? {
        var x := c.cacheRead.value / c.input;
        var cache := Rounded(x, x);
        r' := r'.(cache := r'.cache[m := cache]);
      }
    }
  }

  /** roundRatioValue of x, however x is written. */
  method Rounded(x: real, ghost exact: real) returns (p: real)
    requires x == exact
    ensures IsPublished(p, exact)
  {
    RoundingIsClose(x);
    p := RoundRatio(x);
  }

  /** The second loop: ratios of the selected candidates, in any order. */
  method Publish(selected: map<string, Candidate>) returns (r: Ratios)
    ensures r.model.Keys == selected.Keys && r.completion.Keys + r.cache.Keys <= selected.Keys
    ensures forall m :: m in selected ==> Published(r, m, selected[m])
  {
    r := Ratios(map[], map[], map[]);
    var todo := selected.Keys;
    while todo != {}
      invariant todo <= selected.Keys && r.model.Keys == selected.Keys - todo
      invariant r.completion.Keys + r.cache.Keys <= r.model.Keys
      invariant forall m :: m in selected && m !in todo ==> Published(r, m, selected[m])
      decreases |todo|
    {
      var m :| m in todo;
      ghost var before := r;
      r := PublishOne(r, m, selected[m]);
      forall other | other in selected && other !in todo ensures Published(r, other, selected[other]) {
        assert Published(before, other, selected[other]);
      }
      todo := todo - {m};
    }
  }
}
