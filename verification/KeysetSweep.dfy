/**
 The periodic sweep over all enabled channels: batches of 100 in ascending id, each query starting
 after the last id of the previous batch, until a batch comes back short or empty.
 */
module KeysetSweep {
  datatype Row = Row(id: int, enabled: bool)

  const BATCH := 100

  // ---------------------------------------------------------------- the query

  /** The ids of the enabled rows, in whatever order the table stores them. */
  function EnabledIds(table: seq<Row>): seq<int> {
    if |table| == 0 then []
    else if table[0].enabled then [table[0].id] + EnabledIds(table[1..])
    else EnabledIds(table[1..])
  }

  function Greater(ids: seq<int>, bound: int): seq<int> {
    if |ids| == 0 then []
    else if ids[0] > bound then [ids[0]] + Greater(ids[1..], bound)
    else Greater(ids[1..], bound)
  }

  function Insert(x: int, ids: seq<int>): seq<int> {
    if |ids| == 0 || x <= ids[0] then [x] + ids else [ids[0]] + Insert(x, ids[1..])
  }

  function Ordered(ids: seq<int>): seq<int> {
    if |ids| == 0 then [] else Insert(ids[0], Ordered(ids[1..]))
  }

  /** status = enabled, id > lastId unless lastId is not positive, order by id, limit. */
  function Query(table: seq<Row>, lastId: int, limit: nat): seq<int> {
    var ids := EnabledIds(table);
    var found := Ordered(if lastId > 0 then Greater(ids, lastId) else ids);
    if |found| <= limit then found else found[..limit]
  }

  // ---------------------------------------------------------------- ordering

  predicate Ascending(ids: seq<int>) {
    forall i, j :: 0 <= i < j < |ids| ==> ids[i] < ids[j]
  }

  predicate Distinct(ids: seq<int>) {
    forall i, j :: 0 <= i < j < |ids| ==> ids[i] != ids[j]
  }

  lemma {:induction false} InsertMeaning(x: int, ids: seq<int>)
    requires Ascending(ids) && x !in ids
    ensures Ascending(Insert(x, ids)) && forall y :: y in Insert(x, ids) <==> y in ids || y == x
  {
    if |ids| > 0 && x > ids[0] {
      InsertMeaning(x, ids[1..]);
      var rest := Insert(x, ids[1..]);
      forall y | y in rest ensures ids[0] < y {
      }
      assert forall i :: 0 <= i < |rest| ==> rest[i] in rest;
    }
  }

  /** Ordering distinct ids keeps them all and puts them in ascending order. */
  lemma {:induction false} OrderedMeaning(ids: seq<int>)
    requires Distinct(ids)
    ensures Ascending(Ordered(ids)) && forall y :: y in Ordered(ids) <==> y in ids
  {
    if |ids| > 0 {
      OrderedMeaning(ids[1..]);
      assert ids[0] !in ids[1..];
      InsertMeaning(ids[0], Ordered(ids[1..]));
    }
  }

  lemma {:induction false} GreaterOfInsert(x: int, ids: seq<int>, bound: int)
    requires Ascending(ids)
    ensures Greater(Insert(x, ids), bound) == if x > bound then Insert(x, Greater(ids, bound)) else Greater(ids, bound)
  {
    if |ids| > 0 && x > ids[0] {
      GreaterOfInsert(x, ids[1..], bound);
    } else if |ids| > 0 && x > bound {
      GreaterOfAll(ids, bound);
    }
  }

  lemma {:induction false} GreaterOfAll(ids: seq<int>, bound: int)
    requires forall i :: 0 <= i < |ids| ==> ids[i] > bound
    ensures Greater(ids, bound) == ids
  {
    if |ids| > 0 {
      GreaterOfAll(ids[1..], bound);
    }
  }

  /** Of ascending ids, the ones above the k-th are the ones after it. */
  lemma {:induction false} GreaterOfTail(ids: seq<int>, k: nat)
    requires Ascending(ids) && 0 < k <= |ids|
    ensures Greater(ids, ids[k - 1]) == ids[k..]
  {
    if k == 1 {
      GreaterOfAll(ids[1..], ids[0]);
    } else {
      assert ids[1..][k - 2] == ids[k - 1];
      GreaterOfTail(ids[1..], k - 1);
      assert ids[1..][k - 1..] == ids[k..];
    }
  }

  /** Filtering and ordering commute. */
  lemma {:induction false} OrderedOfGreater(ids: seq<int>, bound: int)
    requires Distinct(ids)
    ensures Ordered(Greater(ids, bound)) == Greater(Ordered(ids), bound)
  {
    if |ids| > 0 {
      OrderedOfGreater(ids[1..], bound);
      OrderedMeaning(ids[1..]);
      GreaterOfInsert(ids[0], Ordered(ids[1..]), bound);
    }
  }

  /** Distinct, positive ids, as the table's primary key guarantees. */
  predicate ValidTable(table: seq<Row>) {
    (forall i :: 0 <= i < |table| ==> table[i].id > 0)
    && (forall i, j :: 0 <= i < j < |table| ==> table[i].id != table[j].id)
  }

  /** All enabled ids in ascending order: what one sweep must process. */
  function Expected(table: seq<Row>): seq<int> {
    Ordered(EnabledIds(table))
  }

  lemma {:induction false} EnabledIdsMeaning(table: seq<Row>)
    requires ValidTable(table)
    ensures forall x :: x in EnabledIds(table) <==>
      exists i :: 0 <= i < |table| && table[i].enabled && table[i].id == x
    ensures Distinct(EnabledIds(table))
  {
    if |table| > 0 {
      var rest := table[1..];
      EnabledIdsMeaning(rest);
      assert forall i :: 0 <= i < |rest| ==> rest[i] == table[i + 1];
      assert table[0].id !in EnabledIds(rest);
      forall x | x in EnabledIds(rest) ensures exists i :: 0 <= i < |table| && table[i].enabled && table[i].id == x {
        var i :| 0 <= i < |rest| && rest[i].enabled && rest[i].id == x;
        assert table[i + 1].enabled && table[i + 1].id == x;
      }
      forall i | 0 <= i < |table| && table[i].enabled ensures table[i].id in EnabledIds(table) {
        if i > 0 {
          assert rest[i - 1] == table[i];
        }
      }
    }
  }

  /** What a sweep must process is every enabled channel exactly once, in ascending order of id. */
  lemma ExpectedMeaning(table: seq<Row>)
    requires ValidTable(table)
    ensures forall x :: x in Expected(table) <==> exists i :: 0 <= i < |table| && table[i].enabled && table[i].id == x
    ensures Ascending(Expected(table))
    ensures forall i :: 0 <= i < |Expected(table)| ==> Expected(table)[i] > 0
  {
    EnabledIdsMeaning(table);
    OrderedMeaning(EnabledIds(table));
    assert forall i :: 0 <= i < |Expected(table)| ==> Expected(table)[i] in Expected(table);
  }

  function NextSize(left: nat): nat {
    if left <= BATCH then left else BATCH
  }

  lemma BatchMeaning(all: seq<int>, k: nat, n: nat)
    requires k + n <= |all|
    ensures |all[k..k + n]| == n && all[..k] + all[k..k + n] == all[..k + n]
    ensures n > 0 ==> all[k..k + n][n - 1] == all[k + n - 1]
  {
  }

  /** After k channels are done, a query from the last of them finds exactly the next ones. */
  lemma QueryContinues(table: seq<Row>, k: nat)
    requires ValidTable(table) && k <= |Expected(table)|
    ensures var all := Expected(table);
      Query(table, if k == 0 then 0 else all[k - 1], BATCH) == all[k..k + NextSize(|all| - k)]
  {
    var all := Expected(table);
    ExpectedMeaning(table);
    if k > 0 {
      var last := all[k - 1];
      EnabledIdsMeaning(table);
      OrderedOfGreater(EnabledIds(table), last);
      GreaterOfTail(all, k);
    }
  }

  /** The loop over one batch. */
  method Process(processed: seq<int>, channels: seq<int>) returns (r: seq<int>)
    ensures r == processed + channels
  {
    r := processed;
    var i := 0;
    while i < |channels|
      invariant 0 <= i <= |channels| && r == processed + channels[..i]
    {
      r := r + [channels[i]];
      i := i + 1;
    }
  }

  /** One query. The result is the next batch, when the last id is that of the k-th channel. */
  method NextBatch(table: seq<Row>, lastId: int, ghost k: nat) returns (channels: seq<int>)
    requires ValidTable(table) && k <= |Expected(table)|
    requires lastId == if k == 0 then 0 else Expected(table)[k - 1]
    ensures channels == Expected(table)[k..k + NextSize(|Expected(table)| - k)]
  {
    QueryContinues(table, k);
    channels := Query(table, lastId, BATCH);
  }

  /** The sweep terminates for every table, processes every enabled channel exactly once in
      ascending id, and issues one query more than there are full batches, also when the number
      of channels is a multiple of the batch size. A failing query ends it early, after a prefix. */
  method Sweep(table: seq<Row>, queryOk: nat -> bool) returns (processed: seq<int>, queries: nat)
    requires ValidTable(table)
    ensures |processed| <= |Expected(table)| && processed == Expected(table)[..|processed|]
    ensures (forall q :: queryOk(q)) ==> processed == Expected(table) && queries == |Expected(table)| / 100 + 1
  {
    ghost var all := Expected(table);
    processed, queries := [], 0;
    var lastId, done := 0, false;
    while !done
      invariant |processed| <= |all| && processed == all[..|processed|]
      invariant lastId == if |processed| == 0 then 0 else all[|processed| - 1]
      invariant !done ==> |processed| == queries * BATCH
      invariant done && (forall q :: queryOk(q)) ==> Swept(|processed|, |all|, queries)
      decreases !done, |all| - |processed|
    {
      if !queryOk(queries) {
        done := true;
      } else {
        ghost var k := |processed|;
        BatchMeaning(all, k, NextSize(|all| - k));
        BatchCount(k, |all|, queries);
        var channels := NextBatch(table, lastId, k);
        queries := queries + 1;
        if |channels| == 0 {
          done := true;
        } else {
          lastId := channels[|channels| - 1];
          processed := Process(processed, channels);
          done := |channels| < BATCH;
        }
      }
    }
    assert all[..|all|] == all;
  }

  predicate Swept(processed: nat, all: nat, queries: nat) {
    processed == all && queries == all / BATCH + 1
  }

  lemma BatchCount(k: nat, all: nat, queries: nat)
    requires k <= all && k == queries * BATCH
    ensures NextSize(all - k) < BATCH ==> Swept(k + NextSize(all - k), all, queries + 1)
    ensures NextSize(all - k) == BATCH ==> k + BATCH == (queries + 1) * BATCH
  {
  }
}
