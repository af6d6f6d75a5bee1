/**
 * The daily issue-keyword counter: the keyword aggregation of one day's articles is written
 * to the `issue_keyword_count` index, one document per (date, keyword), and the per-item bulk
 * statuses are counted. The search response and the bulk responses are inputs; the index is
 * a map from document id to source.
 */
module KeywordCount {
  import opened Text

  /** A terms-aggregation bucket. */
  datatype Bucket = Bucket(key: string, docCount: int)

  datatype Pair = Pair(keyword: string, count: int)

  /**
   * `aggregate_keywords_in_range` after the search: `buckets` is None when the response has no
   * `aggregations.by_keyword.buckets`.
   */
  function AggregateKeywords(buckets: Option<seq<Bucket>>): (r: seq<Pair>)
    ensures buckets.None? ==> r == []
    ensures buckets.Some? ==> |r| == |buckets.value|
    ensures buckets.Some? ==> forall i :: 0 <= i < |r| ==> r[i] == Pair(buckets.value[i].key, buckets.value[i].docCount)
  {
    if buckets.None? then []
    else seq(|buckets.value|, i requires 0 <= i < |buckets.value| => Pair(buckets.value[i].key, buckets.value[i].docCount))
  }

  /**
   * The text `_make_doc_id` hashes, `"{date}|{keyword}"`. The SHA-1 digest itself is not
   * modelled: the id is this text, which a digest maps to one id.
   */
  function DocId(date: string, keyword: string): string {
    date + "|" + keyword
  }

  /** With the fixed-width `YYYY-MM-DD` date, different (date, keyword) pairs get different ids. */
  lemma DocIdInjective(d1: string, k1: string, d2: string, k2: string)
    requires |d1| == |d2| == 10
    ensures DocId(d1, k1) == DocId(d2, k2) <==> d1 == d2 && k1 == k2
  {
    if DocId(d1, k1) == DocId(d2, k2) {
      assert d1 == DocId(d1, k1)[..10] == DocId(d2, k2)[..10] == d2;
      assert k1 == DocId(d1, k1)[11..] == DocId(d2, k2)[11..] == k2;
    }
  }

  datatype Source = Source(date: string, keyword: string, count: int)

  /** One `index` action: replace the document with this id. */
  datatype Action = Action(id: string, source: Source)

  /** The per-item result of `streaming_bulk`: each op is None when absent or an empty object. */
  datatype BulkItem = BulkItem(index: Option<Option<int>>, create: Option<Option<int>>, update: Option<Option<int>>)

  /** `item.get("index") or item.get("create") or item.get("update")`, then its `status`. */
  function ItemStatus(item: BulkItem): Option<int> {
    var op := if item.index.Some? then item.index else if item.create.Some? then item.create else item.update;
    if op.Some? then op.value else None
  }

  /** An item is a success when its status is 200 OK or 201 Created (sections 15.3.1 and 15.3.2 of RFC 9110). */
  predicate Succeeded(item: BulkItem) {
    var s := ItemStatus(item);
    s == Some(200) || s == Some(201)
  }

  /** Successful items among `items`. */
  function CountOk(items: seq<BulkItem>): (n: nat)
    ensures n <= |items|
  {
    if items == [] then 0
    else CountOk(items[..|items| - 1]) + (if Succeeded(items[|items| - 1]) then 1 else 0)
  }

  datatype WriteResult = WriteResult(ok: nat, fail: nat, total: nat)

  /**
   * `write_issue_keyword_count`: one action per pair, then one count per bulk item. `items`
   * are the results `streaming_bulk` yields, one per action.
   */
  method WriteIssueKeywordCount(date: string, pairs: seq<Pair>, items: seq<BulkItem>)
    returns (actions: seq<Action>, result: WriteResult)
    ensures |actions| == |pairs|
    ensures forall i :: 0 <= i < |pairs| ==>
      actions[i] == Action(DocId(date, pairs[i].keyword), Source(date, pairs[i].keyword, pairs[i].count))
    ensures result.ok == CountOk(items) && result.ok + result.fail == |items| && result.total == |pairs|
  {
    actions := [];
    for i := 0 to |pairs|
      invariant |actions| == i
      invariant forall j :: 0 <= j < i ==>
        actions[j] == Action(DocId(date, pairs[j].keyword), Source(date, pairs[j].keyword, pairs[j].count))
    {
      var p := pairs[i];
      actions := actions + [Action(DocId(date, p.keyword), Source(date, p.keyword, p.count))];
    }
    var ok, fail := 0, 0;
    for i := 0 to |items|
      invariant ok == CountOk(items[..i]) && ok + fail == i
    {
      assert items[..i + 1][..i] == items[..i];
      if Succeeded(items[i]) {
        ok := ok + 1;
      } else {
        fail := fail + 1;
      }
    }
    assert items[..|items|] == items;
    result := WriteResult(ok, fail, |actions|);
  }

  /** The index after the bulk: each successful action overwrites its document, in order. */
  function Apply(index: map<string, Source>, actions: seq<Action>, items: seq<BulkItem>): (r: map<string, Source>)
    requires |items| == |actions|
  {
    if actions == [] then index
    else
      var n := |actions| - 1;
      var before := Apply(index, actions[..n], items[..n]);
      if Succeeded(items[n]) then before[actions[n].id := actions[n].source] else before
  }

  /** The actions `write_issue_keyword_count` builds for a date. */
  function Actions(date: string, pairs: seq<Pair>): (r: seq<Action>)
    ensures |r| == |pairs|
  {
    seq(|pairs|, i requires 0 <= i < |pairs| => Action(DocId(date, pairs[i].keyword), Source(date, pairs[i].keyword, pairs[i].count)))
  }

  /** The documents a sequence of actions writes when all succeed: the last action per id wins. */
  function Written(actions: seq<Action>): map<string, Source> {
    if actions == [] then map[]
    else
      var last := actions[|actions| - 1];
      Written(actions[..|actions| - 1])[last.id := last.source]
  }

  function Ids(actions: seq<Action>): seq<string> {
    seq(|actions|, i requires 0 <= i < |actions| => actions[i].id)
  }

  /** The written documents are keyed by exactly the actions' ids. */
  lemma {:induction false} WrittenIds(actions: seq<Action>)
    ensures forall id :: id in Written(actions) <==> id in Ids(actions)
  {
    if actions != [] {
      var n := |actions| - 1;
      WrittenIds(actions[..n]);
      assert Ids(actions) == Ids(actions[..n]) + [actions[n].id];
    }
  }

  /** With every item successful, the bulk overlays the written documents on the index. */
  lemma {:induction false} ApplyAllOk(index: map<string, Source>, actions: seq<Action>, items: seq<BulkItem>)
    requires |items| == |actions|
    requires forall i :: 0 <= i < |items| ==> Succeeded(items[i])
    ensures Apply(index, actions, items) == index + Written(actions)
  {
    if actions != [] {
      var n := |actions| - 1;
      ApplyAllOk(index, actions[..n], items[..n]);
    }
  }

  /** Applying the same successful actions again leaves the index as it was after the first run. */
  lemma RerunOverwrites(index: map<string, Source>, actions: seq<Action>, items: seq<BulkItem>)
    requires |items| == |actions|
    requires forall i :: 0 <= i < |items| ==> Succeeded(items[i])
    ensures Apply(Apply(index, actions, items), actions, items) == Apply(index, actions, items)
  {
    ApplyAllOk(index, actions, items);
    ApplyAllOk(Apply(index, actions, items), actions, items);
    var w := Written(actions);
    assert (index + w) + w == index + w;
  }

  /** `start_dt[:10]`: the first ten characters, or the whole text when it is shorter. */
  function StrictDate(startDt: string): (d: string)
    ensures |startDt| >= 10 ==> |d| == 10 && startDt == d + startDt[10..]
    ensures |startDt| < 10 ==> d == startDt
  {
    if |startDt| >= 10 then startDt[..10] else startDt
  }

  /**
   * `run_issue_keyword_count_for_range`: aggregate, then write under the start date. Every
   * document written for the day is keyed by that date and one of the aggregated keywords.
   */
  method RunIssueKeywordCount(startDt: string, buckets: Option<seq<Bucket>>, items: seq<BulkItem>)
    returns (actions: seq<Action>, result: WriteResult)
    ensures actions == Actions(StrictDate(startDt), AggregateKeywords(buckets))
    ensures result.total == |AggregateKeywords(buckets)| && result.ok + result.fail == |items|
    ensures forall i :: 0 <= i < |actions| ==>
              actions[i].source.date == StrictDate(startDt) && actions[i].id == DocId(StrictDate(startDt), actions[i].source.keyword)
  {
    var date := StrictDate(startDt);
    var pairs := AggregateKeywords(buckets);
    actions, result := WriteIssueKeywordCount(date, pairs, items);
  }
}
