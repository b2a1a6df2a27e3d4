/**
 Lists of model names: trimming, first-occurrence de-duplication, and the order-preserving
 merge, subtract and intersect built on them; and the comma-separated text in which a channel
 stores its models.
 */
module ModelNames {

  import opened Texts

  // ---------------------------------------------------------------- name lists

  function Elements(xs: seq<string>): set<string> {
    set x | x in xs
  }

  /** lo.FilterMap with TrimSpace: trim every name and drop the empty ones. */
  function Clean(models: seq<string>): seq<string> {
    if |models| == 0 then []
    else
      var rest := Clean(models[..|models| - 1]);
      var name := Trim(models[|models| - 1]);
      if name == "" then rest else rest + [name]
  }

  /** lo.Uniq: keep each first occurrence. */
  function Uniq(xs: seq<string>): seq<string> {
    if |xs| == 0 then []
    else
      var rest := Uniq(xs[..|xs| - 1]);
      if xs[|xs| - 1] in rest then rest else rest + [xs[|xs| - 1]]
  }

  function Normalize(models: seq<string>): seq<string> {
    Uniq(Clean(models))
  }

  predicate Distinct(xs: seq<string>) {
    forall i, j :: 0 <= i < j < |xs| ==> xs[i] != xs[j]
  }

  /** What normalising establishes: trimmed, non-empty, distinct names. */
  predicate Normal(xs: seq<string>) {
    Distinct(xs) && forall x :: x in xs ==> x != "" && Trimmed(x)
  }

  function Drop(xs: seq<string>, unwanted: set<string>): seq<string> {
    if |xs| == 0 then []
    else
      var rest := Drop(xs[..|xs| - 1], unwanted);
      if xs[|xs| - 1] in unwanted then rest else rest + [xs[|xs| - 1]]
  }

  function Keep(xs: seq<string>, wanted: set<string>): seq<string> {
    Drop(xs, Elements(xs) - wanted)
  }

  function Subtract(base: seq<string>, removed: seq<string>): seq<string> {
    Drop(Normalize(base), Elements(Normalize(removed)))
  }

  function Intersect(base: seq<string>, allowed: seq<string>): seq<string> {
    Keep(Normalize(base), Elements(Normalize(allowed)))
  }

  function Merge(base: seq<string>, appended: seq<string>): seq<string> {
    Normalize(base) + Drop(Normalize(appended), Elements(Normalize(base)))
  }

  /** Add wins when the same model is selected for both. */
  function ApplySelected(origin: seq<string>, add: seq<string>, remove: seq<string>): seq<string> {
    Subtract(Merge(origin, Normalize(add)), Subtract(Normalize(remove), Normalize(add)))
  }

  // ---------------------------------------------------------------- what the list operations mean

  lemma {:induction false} CleanMeaning(models: seq<string>)
    ensures forall x :: x in Clean(models) ==> x != "" && Trimmed(x)
    ensures forall x :: x in Clean(models) <==> x != "" && exists i :: 0 <= i < |models| && Trim(models[i]) == x
  {
    if |models| > 0 {
      var n := |models| - 1;
      CleanMeaning(models[..n]);
      TrimIsExact(models[n]);
      forall x | x in Clean(models) ensures exists i :: 0 <= i < |models| && Trim(models[i]) == x {
        if x in Clean(models[..n]) {
          var i :| 0 <= i < n && Trim(models[..n][i]) == x;
          assert Trim(models[i]) == x;
        } else {
          assert Trim(models[n]) == x;
        }
      }
      forall i | 0 <= i < |models| && Trim(models[i]) != "" ensures Trim(models[i]) in Clean(models) {
        if i < n {
          assert models[..n][i] == models[i];
        }
      }
    }
  }

  lemma {:induction false} UniqMeaning(xs: seq<string>)
    ensures Distinct(Uniq(xs)) && forall x :: x in Uniq(xs) <==> x in xs
  {
    if |xs| > 0 {
      UniqMeaning(xs[..|xs| - 1]);
      assert xs == xs[..|xs| - 1] + [xs[|xs| - 1]];
    }
  }

  /** Normalising yields exactly the non-empty trimmed names, each once. */
  lemma NormalizeMeaning(models: seq<string>)
    ensures Normal(Normalize(models))
    ensures forall x :: x in Normalize(models) <==> x != "" && exists i :: 0 <= i < |models| && Trim(models[i]) == x
  {
    CleanMeaning(models);
    UniqMeaning(Clean(models));
  }

  /** The index of the first model that trims to x, or the length. */
  function FirstIndex(models: seq<string>, x: string): (i: nat)
    ensures i <= |models| && (i < |models| ==> Trim(models[i]) == x)
    ensures forall h :: 0 <= h < i ==> Trim(models[h]) != x
  {
    if |models| == 0 then 0
    else
      var n := |models| - 1;
      var i := FirstIndex(models[..n], x);
      if i < n || Trim(models[n]) == x then i else n + 1
  }

  /** And in the order of their first occurrences. */
  lemma {:induction false} NormalizeKeepsOrder(models: seq<string>)
    ensures forall x :: x in Normalize(models) ==> FirstIndex(models, x) < |models|
    ensures var names := Normalize(models);
      forall j, k :: 0 <= j < k < |names| ==> FirstIndex(models, names[j]) < FirstIndex(models, names[k])
  {
    if |models| > 0 {
      var n := |models| - 1;
      NormalizeKeepsOrder(models[..n]);
      var before, name := Clean(models[..n]), Trim(models[n]);
      assert name != "" ==> (before + [name])[..|before|] == before;
      NormalizeMeaning(models[..n]);
    }
  }

  lemma {:induction false} CleanFixesTrimmed(xs: seq<string>)
    requires forall i :: 0 <= i < |xs| ==> xs[i] != "" && Trimmed(xs[i])
    ensures Clean(xs) == xs
  {
    if |xs| > 0 {
      var n := |xs| - 1;
      CleanFixesTrimmed(xs[..n]);
      TrimIsExact(xs[n]);
      assert xs == xs[..n] + [xs[n]];
    }
  }

  lemma {:induction false} UniqFixesDistinct(xs: seq<string>)
    requires Distinct(xs)
    ensures Uniq(xs) == xs
  {
    if |xs| > 0 {
      var n := |xs| - 1;
      UniqFixesDistinct(xs[..n]);
      assert xs[n] !in xs[..n];
      assert xs == xs[..n] + [xs[n]];
    }
  }

  lemma NormalizeFixesNormal(xs: seq<string>)
    requires Normal(xs)
    ensures Normalize(xs) == xs
  {
    assert forall i :: 0 <= i < |xs| ==> xs[i] in xs;
    CleanFixesTrimmed(xs);
    UniqFixesDistinct(xs);
  }

  lemma {:induction false} DropMeaning(xs: seq<string>, unwanted: set<string>)
    ensures forall x :: x in Drop(xs, unwanted) <==> x in xs && x !in unwanted
    ensures Distinct(xs) ==> Distinct(Drop(xs, unwanted))
    ensures Normal(xs) ==> Normal(Drop(xs, unwanted))
  {
    if |xs| > 0 {
      DropMeaning(xs[..|xs| - 1], unwanted);
      assert xs == xs[..|xs| - 1] + [xs[|xs| - 1]];
    }
  }

  lemma {:induction false} DropSame(xs: seq<string>, a: set<string>, b: set<string>)
    requires forall x :: x in xs ==> (x in a <==> x in b)
    ensures Drop(xs, a) == Drop(xs, b)
  {
    if |xs| > 0 {
      assert forall x :: x in xs[..|xs| - 1] ==> x in xs;
      DropSame(xs[..|xs| - 1], a, b);
      assert xs[|xs| - 1] in xs;
    }
  }

  lemma {:induction false} DropNothing(xs: seq<string>, a: set<string>)
    requires forall x :: x in xs ==> x !in a
    ensures Drop(xs, a) == xs
  {
    if |xs| > 0 {
      assert forall x :: x in xs[..|xs| - 1] ==> x in xs;
      DropNothing(xs[..|xs| - 1], a);
      assert xs[|xs| - 1] in xs;
      assert xs == xs[..|xs| - 1] + [xs[|xs| - 1]];
    }
  }

  lemma {:induction false} DropAll(xs: seq<string>, a: set<string>)
    requires forall x :: x in xs ==> x in a
    ensures Drop(xs, a) == []
  {
    if |xs| > 0 {
      assert forall x :: x in xs[..|xs| - 1] ==> x in xs;
      DropAll(xs[..|xs| - 1], a);
      assert xs[|xs| - 1] in xs;
    }
  }

  lemma {:induction false} DropTwice(xs: seq<string>, a: set<string>, b: set<string>)
    ensures Drop(Drop(xs, a), b) == Drop(xs, a + b)
  {
    if |xs| > 0 {
      var n := |xs| - 1;
      DropTwice(xs[..n], a, b);
      if xs[n] !in a {
        assert (Drop(xs[..n], a) + [xs[n]])[..|Drop(xs[..n], a)|] == Drop(xs[..n], a);
      }
    }
  }

  lemma {:induction false} DropConcat(xs: seq<string>, ys: seq<string>, a: set<string>)
    ensures Drop(xs + ys, a) == Drop(xs, a) + Drop(ys, a)
  {
    if |ys| == 0 {
      assert xs + ys == xs;
    } else {
      var n := |ys| - 1;
      assert (xs + ys)[..|xs + ys| - 1] == xs + ys[..n];
      DropConcat(xs, ys[..n], a);
    }
  }

  predicate Before(xs: seq<string>, x: string, y: string) {
    exists a, b :: 0 <= a < b < |xs| && xs[a] == x && xs[b] == y
  }

  /** Any two of ys stand in xs in the same order. */
  predicate InOrderOf(ys: seq<string>, xs: seq<string>) {
    forall j, k :: 0 <= j < k < |ys| ==> Before(xs, ys[j], ys[k])
  }

  lemma {:induction false} DropKeepsOrder(xs: seq<string>, unwanted: set<string>)
    ensures InOrderOf(Drop(xs, unwanted), xs)
  {
    if |xs| > 0 {
      var n := |xs| - 1;
      DropKeepsOrder(xs[..n], unwanted);
      DropMeaning(xs[..n], unwanted);
      var rest, all := Drop(xs[..n], unwanted), Drop(xs, unwanted);
      forall j, k | 0 <= j < k < |all| ensures Before(xs, all[j], all[k]) {
        if k < |rest| {
          assert Before(xs[..n], rest[j], rest[k]);
          var a, b :| 0 <= a < b < n && xs[..n][a] == rest[j] && xs[..n][b] == rest[k];
          assert xs[a] == all[j] && xs[b] == all[k];
        } else {
          assert rest[j] in rest;
          var a :| 0 <= a < n && xs[..n][a] == rest[j];
          assert xs[a] == all[j] && xs[n] == all[k];
        }
      }
    }
  }

  /** Subtract and Intersect keep the order of the normalised base. */
  lemma FilterKeepsOrder(base: seq<string>, other: seq<string>)
    ensures InOrderOf(Subtract(base, other), Normalize(base)) && InOrderOf(Intersect(base, other), Normalize(base))
  {
    DropKeepsOrder(Normalize(base), Elements(Normalize(other)));
    DropKeepsOrder(Normalize(base), Elements(Normalize(base)) - Elements(Normalize(other)));
  }

  /** Subtract and Intersect test membership after normalising both sides. */
  lemma FilterMeaning(base: seq<string>, other: seq<string>)
    ensures Normal(Subtract(base, other)) && Normal(Intersect(base, other))
    ensures forall x :: x in Subtract(base, other) <==> x in Normalize(base) && x !in Normalize(other)
    ensures forall x :: x in Intersect(base, other) <==> x in Normalize(base) && x in Normalize(other)
  {
    NormalizeMeaning(base);
    DropMeaning(Normalize(base), Elements(Normalize(other)));
    DropMeaning(Normalize(base), Elements(Normalize(base)) - Elements(Normalize(other)));
  }

  lemma DistinctConcat(xs: seq<string>, ys: seq<string>)
    requires Distinct(xs) && Distinct(ys) && forall x :: x in ys ==> x !in xs
    ensures Distinct(xs + ys)
  {
    var zs := xs + ys;
    forall i, j | 0 <= i < j < |zs| ensures zs[i] != zs[j] {
      assert j >= |xs| ==> zs[j] in ys;
    }
  }

  lemma MergeMeaning(base: seq<string>, appended: seq<string>)
    ensures Normal(Merge(base, appended))
    ensures forall x :: x in Merge(base, appended) <==> x in Normalize(base) || x in Normalize(appended)
  {
    NormalizeMeaning(base);
    NormalizeMeaning(appended);
    DropMeaning(Normalize(appended), Elements(Normalize(base)));
    DistinctConcat(Normalize(base), Drop(Normalize(appended), Elements(Normalize(base))));
  }

  /** A selection keeps what is not removed and has everything added, even if also removed. */
  lemma ApplySelectedMeaning(origin: seq<string>, add: seq<string>, remove: seq<string>)
    ensures Normal(ApplySelected(origin, add, remove))
    ensures forall x :: x in ApplySelected(origin, add, remove) <==>
      (x in Normalize(origin) && x !in Normalize(remove)) || x in Normalize(add)
  {
    NormalizeMeaning(add);
    NormalizeMeaning(remove);
    NormalizeFixesNormal(Normalize(add));
    NormalizeFixesNormal(Normalize(remove));
    MergeMeaning(origin, Normalize(add));
    NormalizeFixesNormal(Merge(origin, Normalize(add)));
    FilterMeaning(Normalize(remove), Normalize(add));
    NormalizeFixesNormal(Subtract(Normalize(remove), Normalize(add)));
    FilterMeaning(Merge(origin, Normalize(add)), Subtract(Normalize(remove), Normalize(add)));
  }

  /** The loop of mergeModelNames, over a growing slice and a set of seen names. */
  method MergeModelNames(base: seq<string>, appended: seq<string>) returns (merged: seq<string>)
    ensures merged == Merge(base, appended)
  {
    merged := Normalize(base);
    var seen := Elements(merged);
    var more := Normalize(appended);
    NormalizeMeaning(appended);
    ghost var first := merged;
    var i := 0;
    while i < |more|
      invariant 0 <= i <= |more|
      invariant merged == first + Drop(more[..i], Elements(first))
      invariant seen == Elements(first) + Elements(more[..i])
    {
      NextName(more, i, Elements(first));
      if more[i] !in seen {
        merged := merged + [more[i]];
      }
      seen := seen + {more[i]};
      i := i + 1;
    }
    assert more[..i] == more;
  }

  lemma NextName(xs: seq<string>, i: nat, unwanted: set<string>)
    requires i < |xs| && Distinct(xs)
    ensures Drop(xs[..i + 1], unwanted) == Drop(xs[..i], unwanted) + (if xs[i] in unwanted then [] else [xs[i]])
    ensures Elements(xs[..i + 1]) == Elements(xs[..i]) + {xs[i]} && xs[i] !in Elements(xs[..i])
  {
    assert xs[..i + 1][..i] == xs[..i];
    assert xs[..i + 1] == xs[..i] + [xs[i]];
  }

  // ---------------------------------------------------------------- comma-separated text

  predicate CommaFree(s: string) {
    Free(s, ',')
  }

  /** Channel.GetModels. */
  function GetModels(models: string): seq<string> {
    if models == "" then [] else Split(Strip(models, ','), ',')
  }

  lemma GetModelsIsCommaFree(models: string)
    ensures forall x :: x in GetModels(models) ==> CommaFree(x)
  {
    SplitIsFree(Strip(models, ','), ',');
  }

  /** Storing a list of names and reading it back is faithful for comma-free names. */
  lemma StoredModelsComeBack(xs: seq<string>)
    requires forall x :: x in xs ==> x != "" && CommaFree(x)
    ensures GetModels(Join(xs, ',')) == xs
  {
    if |xs| > 0 {
      assert xs[0] in xs && xs[|xs| - 1] in xs;
      JoinComesBack(xs, ',');
      JoinEnds(xs, ',');
    }
  }
}
