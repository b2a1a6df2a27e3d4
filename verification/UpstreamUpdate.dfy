/**
 Reconciling a channel's model list with its upstream: detection lists what the upstream offers
 and the channel lacks, and what the channel has and the upstream dropped; the user then applies
 any selection of adds, ignores and removes. The pattern matcher of `regex:` rules is a
 parameter: `matches(p, name)` says that p is a valid expression that matches the name.
 */
module UpstreamUpdate {
  import opened Texts
  import opened ModelNames

  type Matcher = (string, string) -> bool

  const REGEX := "regex:"

  predicate IsPattern(rule: string) {
    REGEX <= rule
  }

  predicate RuleIgnores(rule: string, name: string, matches: Matcher) {
    if IsPattern(rule) then matches(Trim(rule[|REGEX|..]), name) else rule == name
  }

  predicate Ignored(rules: seq<string>, name: string, matches: Matcher) {
    exists r :: r in rules && RuleIgnores(r, name, matches)
  }

  /** The upstream names already covered: present, the target of an alias, or ignored. */
  function Covered(local: seq<string>, upstream: seq<string>, rules: seq<string>, mapping: map<string, string>,
                   matches: Matcher): set<string> {
    set x | x in upstream && (x in local || x in mapping.Values || Ignored(rules, x, matches))
  }

  /** collectPendingUpstreamModelChangesFromModels: (to add, to remove). */
  function Collect(local: seq<string>, upstream: seq<string>, ignored: seq<string>, mapping: map<string, string>,
                   matches: Matcher): (seq<string>, seq<string>) {
    var l, u, rules := Normalize(local), Normalize(upstream), Normalize(ignored);
    (Normalize(Drop(u, Covered(l, u, rules, mapping, matches))),
     Normalize(Drop(l, mapping.Keys + Elements(u))))
  }

  /** The part of a channel that reconciliation reads and writes. `models` is its stored text. */
  datatype State = State(models: string, ignored: seq<string>, detected: seq<string>, removed: seq<string>)

  datatype Selection = Selection(add: seq<string>, ignore: seq<string>, remove: seq<string>)

  /** What is left of a request once it is cut down to what was detected. Add wins over remove. */
  function Effective(s: State, request: Selection): Selection {
    var add := Intersect(request.add, Normalize(s.detected));
    Selection(add, Intersect(request.ignore, Normalize(s.detected)),
              Subtract(Intersect(request.remove, Normalize(s.removed)), add))
  }

  function Stored(text: string, origin: seq<string>, next: seq<string>): string {
    if next != origin then Join(next, ',') else text
  }

  function Apply(s: State, request: Selection): State {
    var sel := Effective(s, request);
    var origin := Normalize(GetModels(s.models));
    var merged := Merge(s.ignored, sel.ignore);
    State(Stored(s.models, origin, ApplySelected(origin, sel.add, sel.remove)),
          if |sel.add| > 0 then Subtract(merged, sel.add) else merged,
          Subtract(Normalize(s.detected), sel.add + sel.ignore),
          Subtract(Normalize(s.removed), sel.remove))
  }

  function Detect(s: State, upstream: seq<string>, mapping: map<string, string>, matches: Matcher): State {
    var (add, remove) := Collect(GetModels(s.models), upstream, s.ignored, mapping, matches);
    s.(detected := add, removed := remove)
  }

  /** Detection with automatic adding. */
  function DetectAndAdd(s: State, upstream: seq<string>, mapping: map<string, string>, matches: Matcher): State {
    var (add, remove) := Collect(GetModels(s.models), upstream, s.ignored, mapping, matches);
    if |add| == 0 then Detect(s, upstream, mapping, matches)
    else
      var origin := Normalize(GetModels(s.models));
      State(Stored(s.models, origin, Merge(origin, add)), s.ignored, [], remove)
  }

  // ---------------------------------------------------------------- what detection means

  /** The two pending lists, name by name; both normal, so nothing is listed twice. */
  lemma CollectMeaning(local: seq<string>, upstream: seq<string>, ignored: seq<string>, mapping: map<string, string>,
                       matches: Matcher)
    ensures var (add, remove) := Collect(local, upstream, ignored, mapping, matches);
      var l, u, rules := Normalize(local), Normalize(upstream), Normalize(ignored);
      && Normal(add) && Normal(remove)
      && add == Drop(u, Covered(l, u, rules, mapping, matches)) && remove == Drop(l, mapping.Keys + Elements(u))
      && (forall x :: x in add <==>
            x in u && x !in l && x !in mapping.Values && !Ignored(rules, x, matches))
      && (forall x :: x in remove <==> x in l && x !in mapping.Keys && x !in u)
  {
    var l, u, rules := Normalize(local), Normalize(upstream), Normalize(ignored);
    NormalizeMeaning(local);
    NormalizeMeaning(upstream);
    DropMeaning(u, Covered(l, u, rules, mapping, matches));
    DropMeaning(l, mapping.Keys + Elements(u));
    NormalizeFixesNormal(Drop(u, Covered(l, u, rules, mapping, matches)));
    NormalizeFixesNormal(Drop(l, mapping.Keys + Elements(u)));
  }

  /** A rule `regex:` and an expression silences the names that the expression, trimmed, matches; any
      other rule silences its own name. */
  lemma PendingMeaning(local: seq<string>, upstream: seq<string>, ignored: seq<string>, mapping: map<string, string>,
                       matches: Matcher, x: string)
    ensures x in Collect(local, upstream, ignored, mapping, matches).0 <==>
      && x in Normalize(upstream) && x !in Normalize(local)
      && (forall source :: source in mapping ==> mapping[source] != x)
      && (forall r :: r in Normalize(ignored) ==>
            if |r| >= 6 && r[..6] == "regex:" then !matches(Trim(r[6..]), x) else r != x)
  {
    CollectMeaning(local, upstream, ignored, mapping, matches);
    assert x in mapping.Values <==> exists source :: source in mapping && mapping[source] == x;
    forall r: string ensures IsPattern(r) <==> |r| >= 6 && r[..6] == "regex:" {
    }
    assert Ignored(Normalize(ignored), x, matches) <==>
      exists r :: r in Normalize(ignored)
                  && if |r| >= 6 && r[..6] == "regex:" then matches(Trim(r[6..]), x) else r == x;
  }

  // ---------------------------------------------------------------- applying a selection

  /** Applying adds and removes that were really pending appends the adds and drops the removes. */
  lemma AppliedList(l: seq<string>, add: seq<string>, remove: seq<string>)
    requires Normal(l) && Normal(add) && Normal(remove)
    requires forall x :: x in add ==> x !in l
    requires forall x :: x in remove ==> x in l
    ensures Normal(l + add)
    ensures Merge(l, add) == l + add
    ensures ApplySelected(l, add, remove) == Drop(l, Elements(remove)) + add
  {
    NormalizeFixesNormal(l);
    NormalizeFixesNormal(add);
    NormalizeFixesNormal(remove);
    DropNothing(add, Elements(l));
    DropNothing(remove, Elements(add));
    assert Merge(l, add) == l + add;
    MergeMeaning(l, add);
    NormalizeFixesNormal(l + add);
    DropConcat(l, add, Elements(remove));
    DropNothing(add, Elements(remove));
  }

  lemma TrimKeepsCommaFree(s: string)
    requires CommaFree(s)
    ensures CommaFree(Trim(s))
  {
    TrimLeftIsSuffix(s);
    TrimRightIsPrefix(TrimLeft(s));
  }

  lemma LocalNamesAreCommaFree(models: string)
    ensures forall x :: x in Normalize(GetModels(models)) ==> CommaFree(x)
  {
    GetModelsIsCommaFree(models);
    NormalizeMeaning(GetModels(models));
    forall x | x in Normalize(GetModels(models)) ensures CommaFree(x) {
      var i :| 0 <= i < |GetModels(models)| && Trim(GetModels(models)[i]) == x;
      assert GetModels(models)[i] in GetModels(models);
      TrimKeepsCommaFree(GetModels(models)[i]);
    }
  }

  /** The stored text reads back as the new list exactly when no added name holds a comma. */
  lemma StoredList(models: string, add: seq<string>, remove: seq<string>)
    requires var l := Normalize(GetModels(models));
      Normal(add) && Normal(remove) && (forall x :: x in add ==> x !in l) && (forall x :: x in remove ==> x in l)
    ensures var l := Normalize(GetModels(models));
      var next := Drop(l, Elements(remove)) + add;
      && Normal(next)
      && ((forall x :: x in add ==> CommaFree(x)) ==>
            Normalize(GetModels(Stored(models, l, next))) == next)
      && (forall x :: x in add && !CommaFree(x) ==> x !in Normalize(GetModels(Stored(models, l, next))))
  {
    var l := Normalize(GetModels(models));
    var next := Drop(l, Elements(remove)) + add;
    NormalizeMeaning(GetModels(models));
    LocalNamesAreCommaFree(models);
    LocalNamesAreCommaFree(Stored(models, l, next));
    DropMeaning(l, Elements(remove));
    DistinctConcat(Drop(l, Elements(remove)), add);
    NormalizeFixesNormal(next);
    if (forall x :: x in add ==> CommaFree(x)) && next != l {
      StoredModelsComeBack(next);
    }
  }

  // ---------------------------------------------------------------- what a request selects

  /** The names of xs that are in `wanted`, in their order. */
  function Among(xs: seq<string>, wanted: set<string>): seq<string> {
    if |xs| == 0 then []
    else
      var x := xs[|xs| - 1];
      Among(xs[..|xs| - 1], wanted) + if x in wanted then [x] else []
  }

  lemma {:induction false} AmongIsDrop(xs: seq<string>, wanted: set<string>, unwanted: set<string>)
    requires forall x :: x in xs ==> (x in wanted <==> x !in unwanted)
    ensures Among(xs, wanted) == Drop(xs, unwanted)
    ensures Elements(Among(xs, wanted)) == Elements(xs) * wanted
  {
    if |xs| > 0 {
      var n := |xs| - 1;
      assert xs == xs[..n] + [xs[n]];
      AmongIsDrop(xs[..n], wanted, unwanted);
      DropMeaning(xs, unwanted);
    }
  }

  /** The names added: requested, and pending as adds. */
  function Adds(s: State, request: Selection): set<string> {
    Elements(Normalize(request.add)) * Elements(Normalize(s.detected))
  }

  /** The names ignored: requested, and pending as adds. */
  function Ignores(s: State, request: Selection): set<string> {
    Elements(Normalize(request.ignore)) * Elements(Normalize(s.detected))
  }

  /** The names removed: requested, pending as removes, and not added. */
  function Removes(s: State, request: Selection): set<string> {
    Elements(Normalize(request.remove)) * Elements(Normalize(s.removed)) - Adds(s, request)
  }

  lemma IntersectionIs(xs: seq<string>, pending: seq<string>)
    ensures Intersect(xs, Normalize(pending))
      == Among(Normalize(xs), Elements(Normalize(xs)) * Elements(Normalize(pending)))
    ensures Elements(Intersect(xs, Normalize(pending))) == Elements(Normalize(xs)) * Elements(Normalize(pending))
    ensures Normal(Intersect(xs, Normalize(pending)))
  {
    NormalizeMeaning(pending);
    NormalizeFixesNormal(Normalize(pending));
    var n, p := Normalize(xs), Elements(Normalize(pending));
    AmongIsDrop(n, Elements(n) * p, Elements(n) - p);
    FilterMeaning(xs, Normalize(pending));
  }

  /** What a request comes down to: exactly these names, in the order of the request. */
  lemma EffectiveMeaning(s: State, request: Selection)
    ensures Effective(s, request) == Selection(Among(Normalize(request.add), Adds(s, request)),
                                               Among(Normalize(request.ignore), Ignores(s, request)),
                                               Among(Normalize(request.remove), Removes(s, request)))
    ensures var sel := Effective(s, request);
      && Normal(sel.add) && Normal(sel.ignore) && Normal(sel.remove)
      && Elements(sel.add) == Adds(s, request) && Elements(sel.ignore) == Ignores(s, request)
      && Elements(sel.remove) == Removes(s, request)
  {
    IntersectionIs(request.add, s.detected);
    IntersectionIs(request.ignore, s.detected);
    IntersectionIs(request.remove, s.removed);
    var add, both := Effective(s, request).add, Intersect(request.remove, Normalize(s.removed));
    NormalizeFixesNormal(add);
    NormalizeFixesNormal(both);
    FilterMeaning(both, add);
    var remove := Normalize(request.remove);
    RemovesAre(remove, Elements(remove) * Elements(Normalize(s.removed)), Adds(s, request));
  }

  lemma RemovesAre(xs: seq<string>, wanted: set<string>, added: set<string>)
    ensures Drop(Among(xs, wanted), added) == Among(xs, wanted - added)
    ensures Elements(Among(xs, wanted - added)) == Elements(xs) * (wanted - added)
  {
    AmongIsDrop(xs, wanted, Elements(xs) - wanted);
    AmongIsDrop(xs, wanted - added, (Elements(xs) - wanted) + added);
    DropTwice(xs, Elements(xs) - wanted, added);
  }

  lemma NormalSubtract(xs: seq<string>, ys: seq<string>)
    requires Normal(xs)
    ensures Subtract(xs, ys) == Drop(xs, Elements(Normalize(ys)))
  {
    NormalizeFixesNormal(xs);
  }

  /** The pending lists lose exactly what was added, ignored or removed. */
  lemma PendingAfterApply(s: State, request: Selection)
    ensures Apply(s, request).detected == Drop(Normalize(s.detected), Adds(s, request) + Ignores(s, request))
    ensures Apply(s, request).removed == Drop(Normalize(s.removed), Removes(s, request))
  {
    var sel := Effective(s, request);
    EffectiveMeaning(s, request);
    NormalizeMeaning(s.detected);
    NormalizeMeaning(s.removed);
    NormalSubtract(Normalize(s.detected), sel.add + sel.ignore);
    NormalSubtract(Normalize(s.removed), sel.remove);
    ElementsOfConcat(sel.add, sel.ignore);
    NormalizeFixesNormal(sel.add);
    NormalizeFixesNormal(sel.ignore);
    NormalizeFixesNormal(sel.remove);
  }

  /** The ignore list gains the ignored names at its end, and loses the added ones. */
  lemma IgnoredAfterApply(s: State, request: Selection)
    ensures Apply(s, request).ignored
      == Drop(Normalize(s.ignored)
              + Among(Normalize(request.ignore), Ignores(s, request) - Elements(Normalize(s.ignored))),
              Adds(s, request))
  {
    var sel := Effective(s, request);
    EffectiveMeaning(s, request);
    NormalizeFixesNormal(sel.ignore);
    NormalizeFixesNormal(sel.add);
    RemovesAre(Normalize(request.ignore), Ignores(s, request), Elements(Normalize(s.ignored)));
    var merged := Merge(s.ignored, sel.ignore);
    MergeMeaning(s.ignored, sel.ignore);
    NormalSubtract(merged, sel.add);
    if |sel.add| == 0 {
      assert Elements(sel.add) == {};
      DropNothing(merged, {});
    }
  }

  /** The models keep what was not removed, in order, and gain the added names at the end, in the
      order of the request, if none of them contains a comma. */
  lemma ModelsAfterApply(s: State, request: Selection)
    requires forall x :: x in Adds(s, request) ==> CommaFree(x)
    ensures var l := Normalize(GetModels(s.models));
      Normalize(GetModels(Apply(s, request).models))
      == Drop(l, Removes(s, request)) + Among(Normalize(request.add), Adds(s, request) - Elements(l))
  {
    var sel := Effective(s, request);
    var l := Normalize(GetModels(s.models));
    EffectiveMeaning(s, request);
    NormalizeMeaning(GetModels(s.models));
    SelectedList(l, sel.add, sel.remove);
    RemovesAre(Normalize(request.add), Adds(s, request), Elements(l));
    LocalNamesAreCommaFree(s.models);
    var next := Drop(l, Elements(sel.remove)) + Drop(sel.add, Elements(l));
    DropMeaning(l, Elements(sel.remove));
    DropMeaning(sel.add, Elements(l));
    NormalComesBack(s.models, l, next);
  }

  lemma NormalComesBack(models: string, l: seq<string>, next: seq<string>)
    requires l == Normalize(GetModels(models)) && Normal(next) && forall x :: x in next ==> CommaFree(x)
    ensures Normalize(GetModels(Stored(models, l, next))) == next
  {
    NormalizeFixesNormal(next);
    if next != l {
      StoredModelsComeBack(next);
    }
  }

  /** Any adds and removes that have no name in common. */
  lemma SelectedList(l: seq<string>, add: seq<string>, remove: seq<string>)
    requires Normal(l) && Normal(add) && Normal(remove) && Elements(add) !! Elements(remove)
    ensures ApplySelected(l, add, remove) == Drop(l, Elements(remove)) + Drop(add, Elements(l))
    ensures Normal(ApplySelected(l, add, remove))
  {
    NormalizeFixesNormal(l);
    NormalizeFixesNormal(add);
    NormalizeFixesNormal(remove);
    assert forall x :: x in remove ==> x in Elements(remove);
    assert forall x :: x in add ==> x in Elements(add);
    DropNothing(remove, Elements(add));
    MergeMeaning(l, add);
    NormalizeFixesNormal(Merge(l, add));
    DropConcat(l, Drop(add, Elements(l)), Elements(remove));
    DropMeaning(add, Elements(l));
    DropNothing(Drop(add, Elements(l)), Elements(remove));
    ApplySelectedMeaning(l, add, remove);
  }

  // ---------------------------------------------------------------- detection after applying

  /** The ignore list after an apply. */
  ghost predicate RulesAfter(rules: seq<string>, rules': seq<string>, add: seq<string>, ignore: seq<string>) {
    forall r :: r in rules' <==> (r in rules || r in ignore) && r !in add
  }

  /** A name that a detection after the adds would list, but for the rules. */
  predicate Listable(l: seq<string>, u: seq<string>, mapping: map<string, string>, add: seq<string>, x: string) {
    x in u && x !in l && x !in add && x !in mapping.Values
  }

  ghost predicate StaysSilent(rules: seq<string>, matches: Matcher, sel: Selection, x: string) {
    exists r :: (r in rules || r in sel.ignore) && r !in sel.add && RuleIgnores(r, x, matches)
  }

  /** The rules that will be left silence, among the names a detection would list, exactly those
      that the present rules silence and those that are being ignored. */
  ghost predicate StillSilent(l: seq<string>, u: seq<string>, rules: seq<string>, mapping: map<string, string>,
                              matches: Matcher, sel: Selection) {
    forall x :: Listable(l, u, mapping, sel.add, x) ==>
      (StaysSilent(rules, matches, sel, x) <==> (Ignored(rules, x, matches) || x in sel.ignore))
  }

  /** An apply can change what is silent in three ways. Ignoring a name that reads as a pattern
      silences other names; */
  ghost predicate IgnoredPatternsHitNothingElse(l: seq<string>, u: seq<string>, rules: seq<string>,
                                                mapping: map<string, string>, matches: Matcher, sel: Selection) {
    forall p, x :: p in sel.ignore && p !in sel.add && IsPattern(p) && RuleIgnores(p, x, matches)
                   && Listable(l, u, mapping, sel.add, x)
                   ==> x in sel.ignore || Ignored(rules, x, matches)
  }

  /** such a name itself need not be silenced by the pattern it reads as; */
  ghost predicate IgnoredPatternsAreSilent(rules: seq<string>, matches: Matcher, sel: Selection) {
    forall p :: p in sel.ignore && p !in sel.add && IsPattern(p) ==> StaysSilent(rules, matches, sel, p)
  }

  /** and adding a name that reads as a pattern drops the rule of that text. */
  ghost predicate AddedPatternsAreReplaced(l: seq<string>, u: seq<string>, rules: seq<string>,
                                           mapping: map<string, string>, matches: Matcher, sel: Selection) {
    forall p, x :: p in sel.add && p in rules && RuleIgnores(p, x, matches) && Listable(l, u, mapping, sel.add, x)
                   ==> StaysSilent(rules, matches, sel, x)
  }

  /** There is no fourth way. */
  lemma ThreeWays(l: seq<string>, u: seq<string>, rules: seq<string>, mapping: map<string, string>, matches: Matcher,
                  sel: Selection)
    requires forall y :: y in sel.ignore ==> y in u && y !in l && y !in mapping.Values
    ensures StillSilent(l, u, rules, mapping, matches, sel)
      <==> IgnoredPatternsHitNothingElse(l, u, rules, mapping, matches, sel)
           && IgnoredPatternsAreSilent(rules, matches, sel)
           && AddedPatternsAreReplaced(l, u, rules, mapping, matches, sel)
  {
  }

  /** So none of them occurs when no selected name looks like a pattern. */
  lemma PlainNamesStaySilent(l: seq<string>, u: seq<string>, rules: seq<string>, mapping: map<string, string>,
                             matches: Matcher, sel: Selection)
    requires forall r :: r in sel.add || r in sel.ignore ==> !IsPattern(r)
    ensures StillSilent(l, u, rules, mapping, matches, sel)
  {
    forall x | Listable(l, u, mapping, sel.add, x)
      ensures StaysSilent(rules, matches, sel, x) <==> (Ignored(rules, x, matches) || x in sel.ignore)
    {
      if Ignored(rules, x, matches) {
        var r :| r in rules && RuleIgnores(r, x, matches);
        assert r !in sel.add;
      }
      if x in sel.ignore {
        assert RuleIgnores(x, x, matches);
      }
    }
  }

  /** After an apply, an upstream name is covered iff it was before or was selected. */
  lemma CoverageAfter(l: seq<string>, u: seq<string>, rules: seq<string>, mapping: map<string, string>,
                      matches: Matcher,
                      sel: Selection, next: seq<string>, rules': seq<string>, x: string)
    requires RulesAfter(rules, rules', sel.add, sel.ignore) && x in u
    requires StillSilent(l, u, rules, mapping, matches, sel)
    requires forall y :: y in sel.ignore ==> y in u && y !in l
    requires forall y :: y in sel.remove ==> y !in u
    requires forall y :: y in next <==> (y in l && y !in sel.remove) || y in sel.add
    ensures x in Covered(next, u, rules', mapping, matches)
      <==> x in Covered(l, u, rules, mapping, matches) + Elements(sel.add + sel.ignore)
  {
    RulesLeft(rules, rules', sel, matches, x);
    if Listable(l, u, mapping, sel.add, x) {
      assert StaysSilent(rules, matches, sel, x) <==> (Ignored(rules, x, matches) || x in sel.ignore);
    }
  }

  lemma RulesLeft(rules: seq<string>, rules': seq<string>, sel: Selection, matches: Matcher, x: string)
    requires RulesAfter(rules, rules', sel.add, sel.ignore)
    ensures Ignored(rules', x, matches) <==> StaysSilent(rules, matches, sel, x)
  {
    if Ignored(rules', x, matches) {
      var r :| r in rules' && RuleIgnores(r, x, matches);
      assert (r in rules || r in sel.ignore) && r !in sel.add;
    }
    if StaysSilent(rules, matches, sel, x) {
      var r :| (r in rules || r in sel.ignore) && r !in sel.add && RuleIgnores(r, x, matches);
      assert r in rules';
    }
  }

  lemma RulesAfterApply(s: State, request: Selection)
    ensures var sel := Effective(s, request);
      RulesAfter(Normalize(s.ignored), Normalize(Apply(s, request).ignored), sel.add, sel.ignore)
  {
    var sel := Effective(s, request);
    var merged := Merge(s.ignored, sel.ignore);
    FilterMeaning(request.add, Normalize(s.detected));
    FilterMeaning(request.ignore, Normalize(s.detected));
    NormalizeFixesNormal(sel.add);
    NormalizeFixesNormal(sel.ignore);
    MergeMeaning(s.ignored, sel.ignore);
    NormalizeFixesNormal(merged);
    FilterMeaning(merged, sel.add);
    NormalizeFixesNormal(Subtract(merged, sel.add));
  }

  /** What the effective selection is made of, when the pending lists come from a detection. */
  lemma SelectionMeaning(s: State, upstream: seq<string>, mapping: map<string, string>, matches: Matcher,
                         request: Selection)
    requires s == Detect(s, upstream, mapping, matches)
    ensures var sel := Effective(s, request);
      var l, u := Normalize(GetModels(s.models)), Normalize(upstream);
      && Normalize(s.detected) == s.detected && Normalize(s.removed) == s.removed
      && Normal(sel.add) && Normal(sel.ignore) && Normal(sel.remove)
      && (forall x :: x in sel.add || x in sel.ignore ==> x in s.detected)
      && (forall x :: x in sel.remove ==> x in s.removed)
      && (forall x :: x in s.detected ==>
            x in u && x !in l && x !in mapping.Values && !Ignored(Normalize(s.ignored), x, matches))
      && (forall x :: x in s.removed ==> x in l && x !in u)
  {
    CollectMeaning(GetModels(s.models), upstream, s.ignored, mapping, matches);
    NormalizeFixesNormal(s.detected);
    NormalizeFixesNormal(s.removed);
    FilterMeaning(request.add, s.detected);
    FilterMeaning(request.ignore, s.detected);
    FilterMeaning(request.remove, s.removed);
    var add := Intersect(request.add, s.detected);
    var remove := Intersect(request.remove, s.removed);
    NormalizeFixesNormal(add);
    NormalizeFixesNormal(remove);
    FilterMeaning(remove, add);
  }

  lemma ElementsOfConcat(a: seq<string>, b: seq<string>)
    ensures Elements(Normalize(a + b)) == Elements(Normalize(a)) + Elements(Normalize(b))
  {
    NormalizeMeaning(a);
    NormalizeMeaning(b);
    NormalizeMeaning(a + b);
    var c := a + b;
    forall x | x in Normalize(a) || x in Normalize(b) ensures x in Normalize(c) {
      if x in Normalize(a) {
        var i :| 0 <= i < |a| && Trim(a[i]) == x;
        assert Trim(c[i]) == x;
      } else {
        var i :| 0 <= i < |b| && Trim(b[i]) == x;
        assert Trim(c[|a| + i]) == x;
      }
    }
    forall x | x in Normalize(c) ensures x in Normalize(a) || x in Normalize(b) {
      var i :| 0 <= i < |c| && Trim(c[i]) == x;
      assert if i < |a| then Trim(a[i]) == x else Trim(b[i - |a|]) == x;
    }
  }

  /** The pending adds after an apply, on the level of lists. */
  lemma AddsAgree(l: seq<string>, u: seq<string>, rules: seq<string>, mapping: map<string, string>, matches: Matcher,
                  sel: Selection, next: seq<string>, rules': seq<string>)
    requires RulesAfter(rules, rules', sel.add, sel.ignore)
    requires StillSilent(l, u, rules, mapping, matches, sel)
    requires forall y :: y in sel.ignore ==> y in u && y !in l
    requires forall y :: y in sel.remove ==> y !in u
    requires forall y :: y in next <==> (y in l && y !in sel.remove) || y in sel.add
    ensures Drop(u, Covered(next, u, rules', mapping, matches))
      == Drop(Drop(u, Covered(l, u, rules, mapping, matches)), Elements(sel.add) + Elements(sel.ignore))
  {
    DropTwice(u, Covered(l, u, rules, mapping, matches), Elements(sel.add) + Elements(sel.ignore));
    forall x | x in u
      ensures x in Covered(next, u, rules', mapping, matches)
        <==> x in Covered(l, u, rules, mapping, matches) + (Elements(sel.add) + Elements(sel.ignore))
    {
      CoverageAfter(l, u, rules, mapping, matches, sel, next, rules', x);
    }
    DropSame(u, Covered(next, u, rules', mapping, matches),
             Covered(l, u, rules, mapping, matches) + (Elements(sel.add) + Elements(sel.ignore)));
  }

  /** The pending removes after an apply, on the level of lists. */
  lemma RemovesAgree(l: seq<string>, u: seq<string>, sources: set<string>, add: seq<string>, remove: seq<string>)
    requires forall x :: x in add ==> x in u
    ensures Drop(Drop(l, Elements(remove)) + add, sources + Elements(u))
      == Drop(Drop(l, sources + Elements(u)), Elements(remove))
  {
    var gone := sources + Elements(u);
    DropConcat(Drop(l, Elements(remove)), add, gone);
    DropAll(add, gone);
    DropTwice(l, Elements(remove), gone);
    DropTwice(l, gone, Elements(remove));
    assert Elements(remove) + gone == gone + Elements(remove);
  }

  ghost predicate RulesStillSilent(s: State, upstream: seq<string>, mapping: map<string, string>, matches: Matcher,
                                   request: Selection) {
    StillSilent(Normalize(GetModels(s.models)), Normalize(upstream), Normalize(s.ignored), mapping, matches,
                Effective(s, request))
  }

  /** With comma-free adds, detecting again finds exactly what the apply left pending. */
  lemma RedetectionAgrees(s: State, upstream: seq<string>, mapping: map<string, string>, matches: Matcher,
                          request: Selection)
    requires s == Detect(s, upstream, mapping, matches)
    requires RulesStillSilent(s, upstream, mapping, matches, request)
    requires forall x :: x in Effective(s, request).add ==> CommaFree(x)
    ensures Detect(Apply(s, request), upstream, mapping, matches) == Apply(s, request)
  {
    var sel := Effective(s, request);
    var s' := Apply(s, request);
    var l, u := Normalize(GetModels(s.models)), Normalize(upstream);
    SelectionMeaning(s, upstream, mapping, matches, request);
    NormalizeMeaning(GetModels(s.models));
    AppliedList(l, sel.add, sel.remove);
    StoredList(s.models, sel.add, sel.remove);
    var next := Drop(l, Elements(sel.remove)) + sel.add;
    DropMeaning(l, Elements(sel.remove));
    RulesAfterApply(s, request);
    CollectMeaning(GetModels(s.models), upstream, s.ignored, mapping, matches);
    CollectMeaning(GetModels(s'.models), upstream, s'.ignored, mapping, matches);
    AddsAgree(l, u, Normalize(s.ignored), mapping, matches, sel, next, Normalize(s'.ignored));
    RemovesAgree(l, u, mapping.Keys, sel.add, sel.remove);
    ElementsOfConcat(sel.add, sel.ignore);
    NormalizeFixesNormal(sel.add);
    NormalizeFixesNormal(sel.ignore);
    NormalizeFixesNormal(sel.remove);
  }

  /** An added name with a comma is torn apart by the stored text, and is detected again. */
  lemma CommaNameReappears(s: State, upstream: seq<string>, mapping: map<string, string>, matches: Matcher,
                           request: Selection, x: string)
    requires s == Detect(s, upstream, mapping, matches)
    requires forall r :: r in Effective(s, request).add || r in Effective(s, request).ignore ==> !IsPattern(r)
    requires x in Effective(s, request).add && !CommaFree(x)
    ensures x in Detect(Apply(s, request), upstream, mapping, matches).detected && x !in Apply(s, request).detected
  {
    var sel := Effective(s, request);
    var s' := Apply(s, request);
    var l, u := Normalize(GetModels(s.models)), Normalize(upstream);
    SelectionMeaning(s, upstream, mapping, matches, request);
    NormalizeMeaning(GetModels(s.models));
    AppliedList(l, sel.add, sel.remove);
    StoredList(s.models, sel.add, sel.remove);
    RulesAfterApply(s, request);
    CollectMeaning(GetModels(s'.models), upstream, s'.ignored, mapping, matches);
    forall r | r in Normalize(s'.ignored) ensures !RuleIgnores(r, x, matches) {
      assert r in Normalize(s.ignored) ==> !RuleIgnores(r, x, matches);
    }
    FilterMeaning(Normalize(s.detected), sel.add + sel.ignore);
    ElementsOfConcat(sel.add, sel.ignore);
    NormalizeFixesNormal(sel.add);
    assert x in Elements(Normalize(sel.add + sel.ignore));
  }

  /** Detect and apply commute. Apply any request to a freshly detected state: as long as no
      selected name looks like a pattern, detecting again with the same upstream and aliases
      returns exactly the stored remaining lists, in the same order, if and only if no added name
      contains a comma. */
  lemma DetectAfterApply(s: State, upstream: seq<string>, mapping: map<string, string>, matches: Matcher,
                         request: Selection)
    requires s == Detect(s, upstream, mapping, matches)
    requires forall r :: r in Effective(s, request).add || r in Effective(s, request).ignore ==> !IsPattern(r)
    ensures Detect(Apply(s, request), upstream, mapping, matches) == Apply(s, request)
      <==> forall x :: x in Effective(s, request).add ==> CommaFree(x)
  {
    if forall x :: x in Effective(s, request).add ==> CommaFree(x) {
      PlainNamesStaySilent(Normalize(GetModels(s.models)), Normalize(upstream), Normalize(s.ignored), mapping, matches,
                           Effective(s, request));
      RedetectionAgrees(s, upstream, mapping, matches, request);
    } else {
      var x :| x in Effective(s, request).add && !CommaFree(x);
      CommaNameReappears(s, upstream, mapping, matches, request, x);
    }
  }

  /** A name whose silence the apply changes turns up, or goes missing, when detecting again. */
  lemma ChangedSilenceShows(s: State, upstream: seq<string>, mapping: map<string, string>, matches: Matcher,
                            request: Selection, x: string)
    requires s == Detect(s, upstream, mapping, matches)
    requires forall y :: y in Effective(s, request).add ==> CommaFree(y)
    requires x in Normalize(upstream) && x !in Normalize(GetModels(s.models)) && x !in mapping.Values
    requires x !in Effective(s, request).add
    ensures Ignored(Normalize(Apply(s, request).ignored), x, matches)
        != (Ignored(Normalize(s.ignored), x, matches) || x in Effective(s, request).ignore)
      <==> (x in Detect(Apply(s, request), upstream, mapping, matches).detected) != (x in Apply(s, request).detected)
  {
    var sel := Effective(s, request);
    var s' := Apply(s, request);
    var l := Normalize(GetModels(s.models));
    SelectionMeaning(s, upstream, mapping, matches, request);
    NormalizeMeaning(GetModels(s.models));
    AppliedList(l, sel.add, sel.remove);
    StoredList(s.models, sel.add, sel.remove);
    DropMeaning(l, Elements(sel.remove));
    CollectMeaning(GetModels(s.models), upstream, s.ignored, mapping, matches);
    CollectMeaning(GetModels(s'.models), upstream, s'.ignored, mapping, matches);
    FilterMeaning(Normalize(s.detected), sel.add + sel.ignore);
    ElementsOfConcat(sel.add, sel.ignore);
    NormalizeFixesNormal(sel.add);
    NormalizeFixesNormal(sel.ignore);
    assert x in Normalize(sel.add + sel.ignore) <==> x in Elements(Normalize(sel.add + sel.ignore));
  }

  lemma CommutesIffSilent(s: State, upstream: seq<string>, mapping: map<string, string>, matches: Matcher,
                          request: Selection)
    requires s == Detect(s, upstream, mapping, matches)
    requires forall x :: x in Effective(s, request).add ==> CommaFree(x)
    ensures Detect(Apply(s, request), upstream, mapping, matches) == Apply(s, request)
      <==> RulesStillSilent(s, upstream, mapping, matches, request)
  {
    if RulesStillSilent(s, upstream, mapping, matches, request) {
      RedetectionAgrees(s, upstream, mapping, matches, request);
    } else {
      var sel, rules := Effective(s, request), Normalize(s.ignored);
      var x :| Listable(Normalize(GetModels(s.models)), Normalize(upstream), mapping, sel.add, x)
        && StaysSilent(rules, matches, sel, x) != (Ignored(rules, x, matches) || x in sel.ignore);
      RulesAfterApply(s, request);
      RulesLeft(rules, Normalize(Apply(s, request).ignored), sel, matches, x);
      ChangedSilenceShows(s, upstream, mapping, matches, request, x);
    }
  }

  /** And whatever the names look like: with comma-free adds, detect and apply commute if and only
      if none of the three ways occurs in which names that read as patterns change what is silent. */
  lemma DetectAfterApplyWithPatterns(s: State, upstream: seq<string>, mapping: map<string, string>, matches: Matcher,
                                     request: Selection)
    requires s == Detect(s, upstream, mapping, matches)
    requires forall x :: x in Effective(s, request).add ==> CommaFree(x)
    ensures var l, u, rules := Normalize(GetModels(s.models)), Normalize(upstream), Normalize(s.ignored);
      var sel := Effective(s, request);
      Detect(Apply(s, request), upstream, mapping, matches) == Apply(s, request)
      <==> IgnoredPatternsHitNothingElse(l, u, rules, mapping, matches, sel)
           && IgnoredPatternsAreSilent(rules, matches, sel)
           && AddedPatternsAreReplaced(l, u, rules, mapping, matches, sel)
  {
    CommutesIffSilent(s, upstream, mapping, matches, request);
    SelectionMeaning(s, upstream, mapping, matches, request);
    ThreeWays(Normalize(GetModels(s.models)), Normalize(upstream), Normalize(s.ignored), mapping, matches,
              Effective(s, request));
  }

  /** Automatic adding settles: detecting again finds nothing more to add and the same removes, if
      and only if no added name contains a comma. */
  lemma AutoAddSettles(s: State, upstream: seq<string>, mapping: map<string, string>, matches: Matcher)
    requires |Detect(s, upstream, mapping, matches).detected| > 0
    ensures var s' := DetectAndAdd(s, upstream, mapping, matches);
      Detect(s', upstream, mapping, matches) == s'
      <==> forall x :: x in Detect(s, upstream, mapping, matches).detected ==> CommaFree(x)
  {
    var d := Detect(s, upstream, mapping, matches);
    var add := d.detected;
    var s' := DetectAndAdd(s, upstream, mapping, matches);
    var l, u := Normalize(GetModels(s.models)), Normalize(upstream);
    NormalizeMeaning(GetModels(s.models));
    CollectMeaning(GetModels(s.models), upstream, s.ignored, mapping, matches);
    CollectMeaning(GetModels(s'.models), upstream, s.ignored, mapping, matches);
    AppliedList(l, add, []);
    DropNothing(l, Elements([]));
    StoredList(s.models, add, []);
    if x :| x in add && !CommaFree(x) {
      assert x in Detect(s', upstream, mapping, matches).detected;
    } else {
      DropAll(u, Covered(l + add, u, Normalize(s.ignored), mapping, matches));
      RemovesAgree(l, u, mapping.Keys, add, []);
      DropNothing(Drop(l, mapping.Keys + Elements(u)), Elements([]));
    }
  }

  /** Automatic adding appends every pending name, if none of them contains a comma. */
  lemma AutoAddMeaning(s: State, upstream: seq<string>, mapping: map<string, string>, matches: Matcher)
    requires forall x :: x in Detect(s, upstream, mapping, matches).detected ==> CommaFree(x)
    ensures Normalize(GetModels(DetectAndAdd(s, upstream, mapping, matches).models))
      == Normalize(GetModels(s.models)) + Detect(s, upstream, mapping, matches).detected
  {
    var l, add := Normalize(GetModels(s.models)), Detect(s, upstream, mapping, matches).detected;
    CollectMeaning(GetModels(s.models), upstream, s.ignored, mapping, matches);
    NormalizeMeaning(GetModels(s.models));
    AppliedList(l, add, []);
    DropNothing(l, Elements([]));
    StoredList(s.models, add, []);
  }

  /** Why the names must not look like patterns: ignoring a pending model whose own name reads as a
      pattern silences every other pending model that the pattern matches. */
  lemma PatternNameSilencesOthers(s: State, upstream: seq<string>, mapping: map<string, string>, matches: Matcher,
                                  name: string, victim: string)
    requires s == Detect(s, upstream, mapping, matches)
    requires name in s.detected && victim in s.detected && victim != name
    requires IsPattern(name) && matches(Trim(name[|REGEX|..]), victim)
    ensures var s' := Apply(s, Selection([], [name], []));
      victim in s'.detected && victim !in Detect(s', upstream, mapping, matches).detected
  {
    var request := Selection([], [name], []);
    var sel := Effective(s, request);
    var s' := Apply(s, request);
    SelectionMeaning(s, upstream, mapping, matches, request);
    FilterMeaning([name], s.detected);
    FilterMeaning(Normalize(s.detected), sel.add + sel.ignore);
    CollectMeaning(GetModels(s.models), upstream, s.ignored, mapping, matches);
    NormalizeFixesNormal([name]);
    assert sel.add == [] && sel.add + sel.ignore == sel.ignore;
    NormalizeFixesNormal(sel.ignore);
    RulesAfterApply(s, request);
    CollectMeaning(GetModels(s'.models), upstream, s'.ignored, mapping, matches);
    assert RuleIgnores(name, victim, matches);
    assert name in [name];
  }

  const EXAMPLE := ["regex:a", "banana"]

  lemma TwoAreDetected(x: string, y: string, matches: Matcher)
    requires Normal([x, y])
    ensures x in Collect([], [x, y], [], map[], matches).0 && y in Collect([], [x, y], [], map[], matches).0
  {
    assert [x, y][0] == x && [x, y][1] == y;
    NormalizeFixesNormal([x, y]);
    NormalizeFixesNormal([]);
    CollectMeaning([], [x, y], [], map[], matches);
  }

  lemma ExampleIsDetected(matches: Matcher)
    ensures "regex:a" in Collect([], EXAMPLE, [], map[], matches).0
    ensures "banana" in Collect([], EXAMPLE, [], map[], matches).0
  {
    TwoAreDetected("regex:a", "banana", matches);
  }

  /** For instance, ignoring the model "regex:a" also silences the pending model "banana". */
  lemma PatternNameExample(matches: Matcher)
    requires matches("a", "banana")
    ensures var s := Detect(State("", [], [], []), EXAMPLE, map[], matches);
      var s' := Apply(s, Selection([], ["regex:a"], []));
      "banana" in s'.detected && "banana" !in Detect(s', EXAMPLE, map[], matches).detected
  {
    ExampleIsDetected(matches);
    TrimIsExact("a");
    assert "regex:a"[|REGEX|..] == "a";
    var s := Detect(State("", [], [], []), EXAMPLE, map[], matches);
    PatternNameSilencesOthers(s, EXAMPLE, map[], matches, "regex:a", "banana");
  }

  // ---------------------------------------------------------------- the channel object

  /** Every pending name is new, so merging appends them all. */
  lemma PendingAddsAreNew(models: string, upstream: seq<string>, ignored: seq<string>, mapping: map<string, string>,
                          matches: Matcher)
    ensures var origin := Normalize(GetModels(models));
      var add := Collect(GetModels(models), upstream, ignored, mapping, matches).0;
      Normalize(origin) == origin && Merge(origin, add) == origin + add
  {
    CollectMeaning(GetModels(models), upstream, ignored, mapping, matches);
    NormalizeMeaning(GetModels(models));
    NormalizeFixesNormal(Normalize(GetModels(models)));
    AppliedList(Normalize(GetModels(models)), Collect(GetModels(models), upstream, ignored, mapping, matches).0, []);
  }

  /** What an apply changes in the list of models. */
  predicate ChangesModels(s: State, request: Selection) {
    var origin := Normalize(GetModels(s.models));
    ApplySelected(origin, Effective(s, request).add, Effective(s, request).remove) != origin
  }

  function Detected(s: State, upstream: seq<string>, mapping: map<string, string>, matches: Matcher,
                    autoApply: bool): State {
    if autoApply then DetectAndAdd(s, upstream, mapping, matches) else Detect(s, upstream, mapping, matches)
  }

  /** Automatic adding adds every pending name: the list grows by that many. */
  function Added(s: State, upstream: seq<string>, mapping: map<string, string>, matches: Matcher,
                 autoApply: bool): nat {
    if autoApply then |Detect(s, upstream, mapping, matches).detected| else 0
  }

  /** A check that is not forced is skipped when the last one is too recent. */
  predicate Skips(force: bool, lastCheck: int, now: int, minInterval: int) {
    !force && lastCheck > 0 && now - lastCheck < minInterval
  }

  /** A loaded channel, and the database row it was loaded from and is written to. */
  class Channel {
    var models: string
    var ignored: seq<string>
    var detected: seq<string>
    var removed: seq<string>
    var lastCheck: int
    var autoSync: bool
    const mapping: map<string, string>
    var row: State
    var rowCheck: int

    ghost function View(): State
      reads this
    {
      State(models, ignored, detected, removed)
    }

    /** updateChannelUpstreamModelSettings: the models are written only when they changed. */
    method Store(updateModels: bool, storeOk: bool)
      modifies this`row, this`rowCheck
      ensures storeOk ==> rowCheck == lastCheck
      ensures storeOk ==> row == View().(models := if updateModels then models else old(row.models))
      ensures !storeOk ==> row == old(row) && rowCheck == old(rowCheck)
    {
      if storeOk {
        row := State(if updateModels then models else row.models, ignored, detected, removed);
        rowCheck := lastCheck;
      }
    }

    /** The part of applyChannelUpstreamModelUpdates before the writes. */
    method TakeSelection(addInput: seq<string>, ignoreInput: seq<string>, removeInput: seq<string>)
      returns (added: seq<string>, taken: seq<string>, changed: bool)
      modifies this`models, this`ignored, this`detected, this`removed
      ensures var request := Selection(addInput, ignoreInput, removeInput);
        && View() == Apply(old(View()), request)
        && (changed <==> ChangesModels(old(View()), request)) && (!changed ==> models == old(models))
        && added == Effective(old(View()), request).add && taken == Effective(old(View()), request).remove
    {
      ghost var s, sel := View(), Effective(View(), Selection(addInput, ignoreInput, removeInput));
      var pendingAdd := Normalize(detected);
      var pendingRemove := Normalize(removed);
      added := Intersect(addInput, pendingAdd);
      var ignore := Intersect(ignoreInput, pendingAdd);
      taken := Intersect(removeInput, pendingRemove);
      taken := Subtract(taken, added);
      assert added == sel.add && ignore == sel.ignore && taken == sel.remove;
      var origin := Normalize(GetModels(models));
      var next := ApplySelected(origin, added, taken);
      changed := origin != next;
      if changed {
        models := Join(next, ',');
      }
      ignored := MergeModelNames(ignored, ignore);
      if |added| > 0 {
        ignored := Subtract(ignored, added);
      }
      detected := Subtract(pendingAdd, added + ignore);
      removed := Subtract(pendingRemove, taken);
    }

    /** applyChannelUpstreamModelUpdates. `storeOk` and `abilitiesOk` say whether the two database
        writes succeed; a failing one leaves the loaded channel changed. */
    method ApplyUpstreamModelUpdates(addInput: seq<string>, ignoreInput: seq<string>, removeInput: seq<string>,
                                     now: int,
                                     storeOk: bool, abilitiesOk: bool)
      returns (added: seq<string>, taken: seq<string>, remaining: seq<string>, remainingRemove: seq<string>,
               changed: bool, ok: bool)
      requires row == View()
      modifies this`models, this`ignored, this`detected, this`removed, this`lastCheck, this`row, this`rowCheck
      ensures var request := Selection(addInput, ignoreInput, removeInput);
        && View() == Apply(old(View()), request) && lastCheck == now
        && (changed <==> storeOk && ChangesModels(old(View()), request))
        && added == (if storeOk then Among(Normalize(addInput), Adds(old(View()), request)) else [])
        && taken == (if storeOk then Among(Normalize(removeInput), Removes(old(View()), request)) else [])
      ensures remaining == (if storeOk then detected else []) && remainingRemove == (if storeOk then removed else [])
      ensures row == (if storeOk then View() else old(row)) && rowCheck == (if storeOk then now else old(rowCheck))
      ensures ok <==> storeOk && (changed ==> abilitiesOk)
    {
      EffectiveMeaning(View(), Selection(addInput, ignoreInput, removeInput));
      added, taken, changed := TakeSelection(addInput, ignoreInput, removeInput);
      lastCheck := now;
      Store(changed, storeOk);
      if !storeOk {
        return [], [], [], [], false, false;
      }
      remaining, remainingRemove := detected, removed;
      ok := !changed || abilitiesOk;
    }

    /** The part of checkAndPersistChannelUpstreamModelUpdates that takes over a detection. */
    method TakeDetection(upstream: seq<string>, matches: Matcher, autoApply: bool) returns (changed: bool,
                         autoAdded: int)
      modifies this`models, this`detected, this`removed
      ensures View() == Detected(old(View()), upstream, mapping, matches, autoApply)
      ensures autoAdded == Added(old(View()), upstream, mapping, matches, autoApply) && (changed <==> autoAdded > 0)
      ensures !changed ==> models == old(models)
    {
      var (pendingAdd, pendingRemove) := Collect(GetModels(models), upstream, ignored, mapping, matches);
      changed, autoAdded := false, 0;
      if autoApply && |pendingAdd| > 0 {
        PendingAddsAreNew(models, upstream, ignored, mapping, matches);
        var origin := Normalize(GetModels(models));
        var merged := MergeModelNames(origin, pendingAdd);
        if |merged| > |origin| {
          models := Join(merged, ',');
          autoAdded := |merged| - |origin|;
          changed := true;
        }
        detected := [];
      } else {
        detected := pendingAdd;
      }
      removed := pendingRemove;
    }

    /** checkAndPersistChannelUpstreamModelUpdates. `fetched` is false when the upstream call fails. */
    method CheckAndPersist(fetched: bool, upstream: seq<string>, matches: Matcher, now: int, minInterval: int,
                           force: bool, allowAutoApply: bool, storeOk: bool, abilitiesOk: bool)
      returns (changed: bool, autoAdded: int, ok: bool)
      requires row == View()
      modifies this`models, this`detected, this`removed, this`lastCheck, this`row, this`rowCheck
      ensures !force && old(lastCheck) > 0 && now - old(lastCheck) < minInterval ==>
        lastCheck == old(lastCheck) && View() == old(View()) && row == old(row) && rowCheck == old(rowCheck)
        && ok && !changed && autoAdded == 0
      ensures !(!force && old(lastCheck) > 0 && now - old(lastCheck) < minInterval) ==>
        lastCheck == now && row == (if storeOk then View() else old(row))
        && rowCheck == (if storeOk then now else old(rowCheck))
        && (ok <==> fetched && storeOk && (changed ==> abilitiesOk)) && (changed <==> autoAdded > 0 && storeOk)
      ensures !Skips(force, old(lastCheck), now, minInterval) && !fetched ==> View() == old(View()) && autoAdded == 0
      ensures !Skips(force, old(lastCheck), now, minInterval) && fetched ==>
        View() == Detected(old(View()), upstream, mapping, matches, allowAutoApply && autoSync)
        && autoAdded == Added(old(View()), upstream, mapping, matches, allowAutoApply && autoSync)
    {
      if Skips(force, lastCheck, now, minInterval) {
        return false, 0, true;
      }
      lastCheck := now;
      if !fetched {
        Store(false, storeOk);
        return false, 0, false;
      }
      changed, autoAdded := TakeDetection(upstream, matches, allowAutoApply && autoSync);
      Store(changed, storeOk);
      if !storeOk {
        return false, autoAdded, false;
      }
      ok := !changed || abilitiesOk;
    }
  }
}
