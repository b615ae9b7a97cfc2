/** `main` (get-vulnerabilities.py:156-197) after the product list is read:
    one pass with `exploited=True`, then one with `exploited=False`. Each pass
    collects the tagged results of every product and saves them as a CSV
    table and an HTML page. An exception ends the whole run, so the second
    pass happens only when the first one ended normally. */
module Runner {
  import opened Values
  import opened Query
  import opened Aggregation
  import opened CsvReport
  import opened HtmlReport

  /** How one pass ends. */
  datatype PassOutcome =
    | Aborted(error: Error)                    // tagging a result raised
    | NoResults                                // nothing was found, nothing is saved
    | Saved(csv: CsvTable, page: HtmlTable)    // both reports were built
    | PageFailed(csv: CsvTable, error: Error)  // the CSV was saved, then the page raised

  /** The outcomes after which the script stops with an exception. */
  predicate Raised(o: PassOutcome)
  {
    o.Aborted? || o.PageFailed?
  }

  /** What a pass ends with, given what its queries return. */
  ghost predicate PassSpec(o: PassOutcome, products: seq<(string, string)>, exploited: bool, fetch: Params -> Value)
  {
    match PassResults(products, exploited, fetch)
    case Err(e) => o == Aborted(e)
    case Ok(data) =>
      if data == [] then o == NoResults
      else
        match Rendered(data)
        case Ok(page) => o.Saved? && page == Some(o.page) && IsCsvFor(o.csv, data)
        case Err(e) => o.PageFailed? && o.error == e && IsCsvFor(o.csv, data)
  }

  /** Lines 164-197 for one value of the flag. */
  method RunPass(products: seq<(string, string)>, exploited: bool, fetch: Params -> Value) returns (o: PassOutcome)
    ensures PassSpec(o, products, exploited, fetch)
  {
    var collected := CollectPass(products, exploited, fetch);
    if collected.Err? {
      return Aborted(collected.error);
    }
    var data := collected.value;
    if data == [] {
      return NoResults;
    }
    var csv := SaveCsv(data);
    var page := SaveHtml(data);
    match page {
      case Err(e) => o := PageFailed(csv.value, e);
      case Ok(p) => o := Saved(csv.value, p.value);
    }
  }

  /** The two passes of `main`: the exploited pass first; the second pass
      runs exactly when the first one did not raise. */
  method Run(products: seq<(string, string)>, fetch: Params -> Value) returns (outcomes: seq<PassOutcome>)
    ensures 1 <= |outcomes| <= 2
    ensures PassSpec(outcomes[0], products, true, fetch)
    ensures |outcomes| == 2 <==> !Raised(outcomes[0])
    ensures |outcomes| == 2 ==> PassSpec(outcomes[1], products, false, fetch)
  {
    var first := RunPass(products, true, fetch);
    outcomes := [first];
    if !Raised(first) {
      var second := RunPass(products, false, fetch);
      outcomes := outcomes + [second];
    }
  }

  /** A pass in which no query contributes a record (a falsy result, an
      empty `items` list, an unexpected shape) saves nothing and does not
      raise, so the run goes on to the second pass. */
  lemma NothingFoundSavesNothing(o: PassOutcome, products: seq<(string, string)>, exploited: bool, fetch: Params -> Value)
    requires forall j :: 0 <= j < |products| ==>
      Contribution(fetch(QueryParams(products[j].0, products[j].1, Some(exploited))), products[j].0, products[j].1) == Ok([])
    requires PassSpec(o, products, exploited, fetch)
    ensures o == NoResults && !Raised(o)
  {
    PassEmptyWhenNothingContributed(products, exploited, fetch);
  }

  /** A saved pass has a CSV row and an HTML row for every record found, and
      every record carries the product and vendor it was found for. */
  lemma SavedPass(o: PassOutcome, products: seq<(string, string)>, exploited: bool, fetch: Params -> Value)
    requires PassSpec(o, products, exploited, fetch) && o.Saved?
    ensures PassResults(products, exploited, fetch).Ok?
    ensures |o.csv.rows| == |PassResults(products, exploited, fetch).value| > 0
    ensures forall rec :: rec in PassResults(products, exploited, fetch).value ==>
      exists j :: 0 <= j < |products| && Get(rec, QueriedProduct) == Some(Str(products[j].0))
  {
    PassRecordsTagged(products, exploited, fetch);
  }

  // ------------------------------------------------ one product, end to end

  const ExampleProducts := [("Alpha", "VendorA")]
  const ExampleFields := [Field("id", Str("V-1")), Field("baseScore", Float(7.5, "7.5"))]

  /** The service of the example: one item for the exploited query of the
      product, an empty item list for every other query. */
  function ExampleFetch(p: Params): Value
  {
    if p == QueryParams("Alpha", "VendorA", Some(true)) then Dict([Field("items", List([Dict(ExampleFields)]))])
    else Dict([Field("items", List([]))])
  }

  lemma ExampleSecondPass()
    ensures PassResults(ExampleProducts, false, ExampleFetch) == Ok([])
  {
    FlagChangesQuery("Alpha", "VendorA", false, true);
    assert ExampleFetch(QueryParams("Alpha", "VendorA", Some(false))) == Dict([Field("items", List([]))]);
    assert Keys([Field("items", List([]))]) == ["items"];
    ContributionShapes(Dict([Field("items", List([]))]), "Alpha", "VendorA", []);
    PassOfOne("Alpha", "VendorA", false, ExampleFetch);
  }

  lemma ExampleFirstPass()
    ensures PassResults(ExampleProducts, true, ExampleFetch) == Ok([Tag(ExampleFields, "Alpha", "VendorA")])
  {
    var result := Dict([Field("items", List([Dict(ExampleFields)]))]);
    assert ExampleFetch(QueryParams("Alpha", "VendorA", Some(true))) == result;
    assert Keys(result.fields) == ["items"];
    ContributionShapes(result, "Alpha", "VendorA", [Dict(ExampleFields)]);
    var c := Contribution(result, "Alpha", "VendorA").value;
    assert c == [Tag(ExampleFields, "Alpha", "VendorA")];
    PassOfOne("Alpha", "VendorA", true, ExampleFetch);
  }

  lemma ExampleRecord()
    ensures var rec := Tag(ExampleFields, "Alpha", "VendorA");
      && IsDict(rec)
      && Get(rec, "id") == Some(Str("V-1"))
      && Get(rec, "baseScore") == Some(Float(7.5, "7.5"))
      && Get(rec, QueriedProduct) == Some(Str("Alpha"))
      && Get(rec, QueriedVendor) == Some(Str("VendorA"))
      && ProductKey !in Keys(rec)
  {
    var rec := Tag(ExampleFields, "Alpha", "VendorA");
    TagSpec(ExampleFields, "Alpha", "VendorA");
    assert Keys(ExampleFields) == ["id", "baseScore"];
    TagIsDict(ExampleFields, "Alpha", "VendorA");
    GetField(ExampleFields, 0);
    GetField(ExampleFields, 1);
    assert Get(ExampleFields, ProductKey).None?;
    assert Get(rec, ProductKey).None?;
  }

  /** The record's columns: its own two keys and the two tags. */
  lemma ExampleColumns()
    ensures AllKeys([Tag(ExampleFields, "Alpha", "VendorA")]) == {"id", "baseScore", QueriedProduct, QueriedVendor}
  {
    var once := Put(ExampleFields, QueriedProduct, Str("Alpha"));
    var rec := Put(once, QueriedVendor, Str("VendorA"));
    assert Keys(ExampleFields) == ["id", "baseScore"];
    PutKeys(ExampleFields, QueriedProduct, Str("Alpha"));
    assert Keys(once) == ["id", "baseScore", QueriedProduct];
    PutKeys(once, QueriedVendor, Str("VendorA"));
    assert Keys(rec) == ["id", "baseScore", QueriedProduct, QueriedVendor];
    assert [rec][..0] == [];
  }

  lemma ExampleCells()
    ensures forall f :: f in Tag(ExampleFields, "Alpha", "VendorA") ==> FieldCell(f).Ok?
  {
    ExampleRecord();
    CellsBuildWhenScoreConverts(Tag(ExampleFields, "Alpha", "VendorA"));
  }

  /** A record whose every field has a cell renders. */
  lemma RenderedWhenCellsBuild(rec: Record)
    requires ProductKey !in Keys(rec)
    requires forall f :: f in rec ==> FieldCell(f).Ok?
    ensures Rendered([rec]).Ok? && Rendered([rec]).value.Some?
  {
    ProductCellAbsent(rec);
    ShownFieldsSpec(rec);
    CellsSpec(rec, FieldCell);
    BodyMarkupOk([rec]);
  }

  lemma OnlyRecordColumns(rec: Record, k: string)
    requires Get(rec, k).Some?
    ensures k in AllKeys([rec])
  {
    RecordKeysAreColumns([rec], 0);
  }

  lemma ExampleSecondOutcome(o2: PassOutcome)
    requires PassSpec(o2, ExampleProducts, false, ExampleFetch)
    ensures o2 == NoResults
  {
    ExampleSecondPass();
  }

  lemma ExampleFirstOutcome(o1: PassOutcome)
    requires PassSpec(o1, ExampleProducts, true, ExampleFetch)
    ensures o1.Saved? && IsCsvFor(o1.csv, [Tag(ExampleFields, "Alpha", "VendorA")])
  {
    ExampleFirstPass();
    ExampleRecord();
    ExampleCells();
    RenderedWhenCellsBuild(Tag(ExampleFields, "Alpha", "VendorA"));
  }

  /** The header of the example's table: exactly the item's two keys and the
      two tags. */
  lemma ExampleHeader(t: CsvTable)
    requires IsCsvFor(t, [Tag(ExampleFields, "Alpha", "VendorA")])
    ensures forall k :: k in t.columns <==> k in {"id", "baseScore", QueriedProduct, QueriedVendor}
  {
    ExampleColumns();
  }

  lemma ExampleRow(row: map<string, string>)
    requires IsCsvRow(row, Tag(ExampleFields, "Alpha", "VendorA"), AllKeys([Tag(ExampleFields, "Alpha", "VendorA")]))
    ensures "id" in row && row["id"] == "V-1"
    ensures "baseScore" in row && row["baseScore"] == "7.5"
    ensures QueriedProduct in row && row[QueriedProduct] == "Alpha"
    ensures QueriedVendor in row && row[QueriedVendor] == "VendorA"
  {
    var rec := Tag(ExampleFields, "Alpha", "VendorA");
    ExampleRecord();
    OnlyRecordColumns(rec, "id");
    OnlyRecordColumns(rec, "baseScore");
    OnlyRecordColumns(rec, QueriedProduct);
    OnlyRecordColumns(rec, QueriedVendor);
  }

  /** The scenario of one product whose exploited query finds one item and
      whose other query finds none: the first pass saves one row holding the
      item's fields and the queried pair, the second pass saves nothing. */
  lemma OneProductExample(o1: PassOutcome, o2: PassOutcome)
    requires PassSpec(o1, ExampleProducts, true, ExampleFetch)
    requires PassSpec(o2, ExampleProducts, false, ExampleFetch)
    ensures o1.Saved? && |o1.csv.rows| == 1
    ensures forall k :: k in o1.csv.columns <==> k in {"id", "baseScore", QueriedProduct, QueriedVendor}
    ensures "id" in o1.csv.rows[0] && o1.csv.rows[0]["id"] == "V-1"
    ensures "baseScore" in o1.csv.rows[0] && o1.csv.rows[0]["baseScore"] == "7.5"
    ensures QueriedProduct in o1.csv.rows[0] && o1.csv.rows[0][QueriedProduct] == "Alpha"
    ensures QueriedVendor in o1.csv.rows[0] && o1.csv.rows[0][QueriedVendor] == "VendorA"
    ensures o2 == NoResults
  {
    ExampleSecondOutcome(o2);
    ExampleFirstOutcome(o1);
    ExampleHeader(o1.csv);
    ExampleRow(o1.csv.rows[0]);
  }
}
