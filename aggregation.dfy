/** One pass of `main` (get-vulnerabilities.py:164-184): query every
    (product, vendor) pair, tag each returned record with the pair that
    produced it and append the records to the pass's running result list.
    The HTTP request and the JSON decoding are the parameter `fetch`, which
    maps the request's parameters to the decoded body, or to `Null` where
    `query_api` returns None. */
module Aggregation {
  import opened Values
  import opened Query

  const QueriedProduct := "queried_product"
  const QueriedVendor := "queried_vendor"

  /** The two item assignments of lines 171-172 on one record. */
  function Tag(item: Record, product: string, vendor: string): Record
  {
    Put(Put(item, QueriedProduct, Str(product)), QueriedVendor, Str(vendor))
  }

  /** Both tags hold the queried pair, whatever they held before, and every
      other field keeps its value. */
  lemma TagSpec(item: Record, product: string, vendor: string)
    ensures Get(Tag(item, product, vendor), QueriedProduct) == Some(Str(product))
    ensures Get(Tag(item, product, vendor), QueriedVendor) == Some(Str(vendor))
    ensures forall k :: k != QueriedProduct && k != QueriedVendor ==> Get(Tag(item, product, vendor), k) == Get(item, k)
  {
    var once := Put(item, QueriedProduct, Str(product));
    PutGet(item, QueriedProduct, Str(product));
    PutGet(once, QueriedVendor, Str(vendor));
  }

  /** Every field keeps its position and a tag that was missing is added at
      the end. */
  lemma TagShape(item: Record, product: string, vendor: string)
    ensures |item| <= |Tag(item, product, vendor)| <= |item| + 2
    ensures Keys(Tag(item, product, vendor))[..|item|] == Keys(item)
  {
    var once := Put(item, QueriedProduct, Str(product));
    var r := Put(once, QueriedVendor, Str(vendor));
    PutKeys(item, QueriedProduct, Str(product));
    PutKeys(once, QueriedVendor, Str(vendor));
    assert |Keys(item)| == |item| && |Keys(once)| == |once| && |Keys(r)| == |r|;
    assert Keys(once)[..|item|] == Keys(item);
    assert Keys(r)[..|once|] == Keys(once);
    assert Keys(r)[..|item|] == Keys(once)[..|item|];
  }

  /** Tagging never duplicates a key. */
  lemma TagIsDict(item: Record, product: string, vendor: string)
    requires IsDict(item)
    ensures IsDict(Tag(item, product, vendor))
  {
    PutIsDict(item, QueriedProduct, Str(product));
    PutIsDict(Put(item, QueriedProduct, Str(product)), QueriedVendor, Str(vendor));
  }

  /** The tagging loop over the items of one result: every item must be a
      dict, since an item assignment on anything else raises. */
  function Tagged(items: seq<Value>, product: string, vendor: string): Result<seq<Record>>
  {
    if items == [] then Ok([])
    else
      match Tagged(items[..|items| - 1], product, vendor)
      case Err(e) => Err(e)
      case Ok(done) =>
        var item := items[|items| - 1];
        if item.Dict? then Ok(done + [Tag(item.fields, product, vendor)])
        else Err(NoItemAssignment(item))
  }

  /** Tagging succeeds exactly when every item is a dict, and then yields one
      tagged record per item, in order. */
  lemma {:induction false} TaggedOk(items: seq<Value>, product: string, vendor: string)
    ensures Tagged(items, product, vendor).Ok? <==> forall i :: 0 <= i < |items| ==> items[i].Dict?
    ensures Tagged(items, product, vendor).Ok? ==>
      && |Tagged(items, product, vendor).value| == |items|
      && forall i :: 0 <= i < |items| ==> Tagged(items, product, vendor).value[i] == Tag(items[i].fields, product, vendor)
  {
    if items != [] {
      var n := |items| - 1;
      var front := items[..n];
      TaggedOk(front, product, vendor);
      var t := Tagged(items, product, vendor);
      var f := Tagged(front, product, vendor);
      if f.Ok? && items[n].Dict? {
        assert t.value == f.value + [Tag(items[n].fields, product, vendor)];
        forall i | 0 <= i < |items|
          ensures t.value[i] == Tag(items[i].fields, product, vendor)
        {
          if i < n {
            assert front[i] == items[i];
          }
        }
      } else if f.Err? {
        var i :| 0 <= i < n && !front[i].Dict?;
        assert !items[i].Dict?;
      }
    }
  }

  /** Otherwise tagging fails on the first item that is not a dict. */
  lemma {:induction false} TaggedErr(items: seq<Value>, product: string, vendor: string)
    requires Tagged(items, product, vendor).Err?
    ensures exists i :: (0 <= i < |items| && !items[i].Dict? && (forall j :: 0 <= j < i ==> items[j].Dict?)
        && Tagged(items, product, vendor).error == NoItemAssignment(items[i]))
  {
    var n := |items| - 1;
    var front := items[..n];
    var f := Tagged(front, product, vendor);
    if f.Err? {
      TaggedErr(front, product, vendor);
      var i :| 0 <= i < n && !front[i].Dict? && (forall j :: 0 <= j < i ==> front[j].Dict?)
        && f.error == NoItemAssignment(front[i]);
      assert items[i] == front[i];
      assert forall j :: 0 <= j < i ==> items[j] == front[j];
    } else {
      TaggedOk(front, product, vendor);
      assert forall j :: 0 <= j < n ==> items[j] == front[j];
      assert !items[n].Dict?;
    }
  }

  /** Once tagging a prefix has failed, tagging the whole list fails the same way. */
  lemma {:induction false} TaggedErrSticks(items: seq<Value>, n: nat, product: string, vendor: string)
    requires n <= |items| && Tagged(items[..n], product, vendor).Err?
    ensures Tagged(items, product, vendor) == Tagged(items[..n], product, vendor)
  {
    if n < |items| {
      var m := |items| - 1;
      assert items[..m][..n] == items[..n];
      TaggedErrSticks(items[..m], n, product, vendor);
    } else {
      assert items[..n] == items;
    }
  }

  /** The loop of lines 170-172 (and 176-178) over the items of one result. */
  method TagItems(items: seq<Value>, product: string, vendor: string) returns (r: Result<seq<Record>>)
    ensures r == Tagged(items, product, vendor)
  {
    var tagged: seq<Record> := [];
    for i := 0 to |items|
      invariant Tagged(items[..i], product, vendor) == Ok(tagged)
    {
      assert items[..i + 1][..i] == items[..i];
      var item := items[i];
      if !item.Dict? {
        TaggedErrSticks(items, i + 1, product, vendor);
        return Err(NoItemAssignment(item));
      }
      tagged := tagged + [Tag(item.fields, product, vendor)];
    }
    assert items[..|items|] == items;
    r := Ok(tagged);
  }

  /** What one query result adds to the running list (lines 167-182): the
      tagged items of a `{items: ...}` dict or of a bare list, and nothing
      for a falsy result or any other shape. */
  function Contribution(results: Value, product: string, vendor: string): Result<seq<Record>>
  {
    if !Truthy(results) then Ok([])
    else
      match results
      case Dict(fs) =>
        if "items" in Keys(fs) then
          match Iterate(Get(fs, "items").value)
          case Err(e) => Err(e)
          case Ok(items) => Tagged(items, product, vendor)
        else Ok([])
      case List(items) => Tagged(items, product, vendor)
      case _ => Ok([])
  }

  /** `all_results.extend(...)`, unless the contribution raised. */
  function Extend(all: seq<Record>, more: Result<seq<Record>>): Result<seq<Record>>
  {
    match more
    case Ok(records) => Ok(all + records)
    case Err(e) => Err(e)
  }

  /** Lines 167-182 for one query result. */
  method AddResult(all: seq<Record>, results: Value, product: string, vendor: string)
    returns (r: Result<seq<Record>>)
    ensures r == Extend(all, Contribution(results, product, vendor))
  {
    assert all + [] == all;
    if !Truthy(results) {
      return Ok(all);
    }
    match results {
      case Dict(fs) =>
        if "items" in Keys(fs) {
          var items := Iterate(Get(fs, "items").value);
          if items.Err? {
            return Err(items.error);
          }
          var tagged := TagItems(items.value, product, vendor);
          r := Extend(all, tagged);
        } else {
          r := Ok(all);
        }
      case List(items) =>
        var tagged := TagItems(items, product, vendor);
        r := Extend(all, tagged);
      case _ =>
        r := Ok(all);
    }
  }

  /** A dict whose `items` is a list of dicts, and a bare list of dicts,
      contribute exactly their items, in order, each tagged with the queried
      pair; a dict without `items` and any scalar contribute nothing. */
  lemma ContributionShapes(results: Value, product: string, vendor: string, items: seq<Value>)
    requires forall i :: 0 <= i < |items| ==> items[i].Dict?
    requires results == List(items) || (results.Dict? && Get(results.fields, "items") == Some(List(items)))
    ensures Contribution(results, product, vendor).Ok?
    ensures |Contribution(results, product, vendor).value| == |items|
    ensures forall i :: 0 <= i < |items| ==>
      Contribution(results, product, vendor).value[i] == Tag(items[i].fields, product, vendor)
  {
    TaggedOk(items, product, vendor);
    if results.Dict? {
      assert Truthy(results);
    }
  }

  /** Results that are not a dict with `items` and not a list add nothing. */
  lemma ContributionIgnored(results: Value, product: string, vendor: string)
    requires !Truthy(results) || (!results.List? && !(results.Dict? && "items" in Keys(results.fields)))
    ensures Contribution(results, product, vendor) == Ok([])
  {
  }

  /** Every record a query contributes carries the queried pair. */
  lemma ContributionTagged(results: Value, product: string, vendor: string)
    requires Contribution(results, product, vendor).Ok?
    ensures forall rec :: rec in Contribution(results, product, vendor).value ==>
      Get(rec, QueriedProduct) == Some(Str(product)) && Get(rec, QueriedVendor) == Some(Str(vendor))
  {
    var c := Contribution(results, product, vendor).value;
    if c != [] {
      var items := if results.List? then results.elems else Iterate(Get(results.fields, "items").value).value;
      assert Contribution(results, product, vendor) == Tagged(items, product, vendor);
      TaggedOk(items, product, vendor);
      forall rec | rec in c
        ensures Get(rec, QueriedProduct) == Some(Str(product)) && Get(rec, QueriedVendor) == Some(Str(vendor))
      {
        var i :| 0 <= i < |c| && c[i] == rec;
        TagSpec(items[i].fields, product, vendor);
      }
    }
  }

  /** The running result list of one pass (lines 164-184), or the exception
      that ended the run. */
  function PassResults(products: seq<(string, string)>, exploited: bool, fetch: Params -> Value): Result<seq<Record>>
  {
    if products == [] then Ok([])
    else
      match PassResults(products[..|products| - 1], exploited, fetch)
      case Err(e) => Err(e)
      case Ok(all) =>
        var (product, vendor) := products[|products| - 1];
        Extend(all, Contribution(fetch(QueryParams(product, vendor, Some(exploited))), product, vendor))
  }

  lemma {:induction false} PassErrSticks(products: seq<(string, string)>, n: nat, exploited: bool, fetch: Params -> Value)
    requires n <= |products| && PassResults(products[..n], exploited, fetch).Err?
    ensures PassResults(products, exploited, fetch) == PassResults(products[..n], exploited, fetch)
  {
    if n < |products| {
      var m := |products| - 1;
      assert products[..m][..n] == products[..n];
      PassErrSticks(products[..m], n, exploited, fetch);
    } else {
      assert products[..n] == products;
    }
  }

  /** The product loop of one pass, querying with the pass's `exploited` flag. */
  method CollectPass(products: seq<(string, string)>, exploited: bool, fetch: Params -> Value)
    returns (r: Result<seq<Record>>)
    ensures r == PassResults(products, exploited, fetch)
  {
    var all: seq<Record> := [];
    for i := 0 to |products|
      invariant PassResults(products[..i], exploited, fetch) == Ok(all)
    {
      assert products[..i + 1][..i] == products[..i];
      var (product, vendor) := products[i];
      var results := fetch(QueryParams(product, vendor, Some(exploited)));
      var next := AddResult(all, results, product, vendor);
      if next.Err? {
        PassErrSticks(products, i + 1, exploited, fetch);
        return next;
      }
      all := next.value;
    }
    assert products[..|products|] == products;
    r := Ok(all);
  }

  /** Every record of a pass carries the product and vendor of one of the
      queried pairs. */
  lemma {:induction false} PassRecordsTagged(products: seq<(string, string)>, exploited: bool, fetch: Params -> Value)
    requires PassResults(products, exploited, fetch).Ok?
    ensures forall rec :: rec in PassResults(products, exploited, fetch).value ==>
      exists j :: 0 <= j < |products| && Get(rec, QueriedProduct) == Some(Str(products[j].0))
        && Get(rec, QueriedVendor) == Some(Str(products[j].1))
  {
    if products != [] {
      var m := |products| - 1;
      var front := products[..m];
      PassRecordsTagged(front, exploited, fetch);
      var (product, vendor) := products[m];
      var results := fetch(QueryParams(product, vendor, Some(exploited)));
      ContributionTagged(results, product, vendor);
      forall rec | rec in PassResults(products, exploited, fetch).value
        ensures exists j :: (0 <= j < |products| && Get(rec, QueriedProduct) == Some(Str(products[j].0))
          && Get(rec, QueriedVendor) == Some(Str(products[j].1)))
      {
        if rec in PassResults(front, exploited, fetch).value {
          var j :| 0 <= j < m && Get(rec, QueriedProduct) == Some(Str(front[j].0))
            && Get(rec, QueriedVendor) == Some(Str(front[j].1));
          assert front[j] == products[j];
        } else {
          assert products[m] == (product, vendor);
        }
      }
    }
  }

  /** A pass in which no query contributes a record finds nothing: each
      result is falsy, holds an empty `items` list, has another shape, or is
      an empty list. */
  lemma {:induction false} PassEmptyWhenNothingContributed(products: seq<(string, string)>, exploited: bool, fetch: Params -> Value)
    requires forall j :: 0 <= j < |products| ==>
      Contribution(fetch(QueryParams(products[j].0, products[j].1, Some(exploited))), products[j].0, products[j].1) == Ok([])
    ensures PassResults(products, exploited, fetch) == Ok([])
  {
    if products != [] {
      var m := |products| - 1;
      var front := products[..m];
      assert forall j :: 0 <= j < m ==> front[j] == products[j];
      PassEmptyWhenNothingContributed(front, exploited, fetch);
      var none: seq<Record> := [];
      assert none + none == none;
    }
  }

  /** A pass in which no query returns a truthy result finds nothing. */
  lemma PassEmptyWhenNothingFound(products: seq<(string, string)>, exploited: bool, fetch: Params -> Value)
    requires forall j :: 0 <= j < |products| ==>
      !Truthy(fetch(QueryParams(products[j].0, products[j].1, Some(exploited))))
    ensures PassResults(products, exploited, fetch) == Ok([])
  {
    forall j | 0 <= j < |products|
      ensures Contribution(fetch(QueryParams(products[j].0, products[j].1, Some(exploited))), products[j].0, products[j].1) == Ok([])
    {
      ContributionIgnored(fetch(QueryParams(products[j].0, products[j].1, Some(exploited))), products[j].0, products[j].1);
    }
    PassEmptyWhenNothingContributed(products, exploited, fetch);
  }

  /** A pass over one pair holds what that pair's result contributes. */
  lemma PassOfOne(product: string, vendor: string, exploited: bool, fetch: Params -> Value)
    ensures PassResults([(product, vendor)], exploited, fetch)
      == Contribution(fetch(QueryParams(product, vendor, Some(exploited))), product, vendor)
  {
    var products := [(product, vendor)];
    assert products[..0] == [];
    match Contribution(fetch(QueryParams(product, vendor, Some(exploited))), product, vendor) {
      case Ok(records) =>
        var none: seq<Record> := [];
        assert none + records == records;
      case Err(_) =>
    }
  }
}
