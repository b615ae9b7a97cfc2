# get-vulnerabilities: a Dafny model

`get-vulnerabilities.py` reads a list of (product, vendor) pairs. For each pair
it queries the ENISA EU Vulnerability Database API twice:
- once for exploited vulnerabilities;
- once for vulnerabilities that are not exploited.

In each pass, every returned item is tagged with `queried_product` and
`queried_vendor`. The pass's items are collected in order. Then they are
written as:
- a CSV table whose columns are the union of all item keys;
- an HTML table with a leading "Product" column and a colour class on the
  `baseScore` cell.

This project models that core in Dafny:

| Module | What it models |
|---|---|
| `Values` | Decoded JSON values, with a Python dict as an ordered sequence of fields. It also models the Python built-ins the script relies on: `d.get`, `d[k] = v`, truthiness, iteration, `in`, subscripting, `repr` and `str`. An operation Python would raise on becomes an `Err`. |
| `HtmlEscape` | `html.escape` with `quote=True`, and a reference unescaping that proves it loses nothing. |
| `Query` | The query parameters that `query_api` sends. |
| `Aggregation` | The per-pass collection loop of `main`: tagging items in place and extending the result list. |
| `CsvReport` | `save_to_csv` up to the header and the rows handed to `csv.DictWriter`. |
| `HtmlReport` | `save_to_html`: the header cells, the product-name cell, the score bands and the row markup built with `+=`. |
| `Runner` | The two passes of `main`, how a pass ends, and one product followed end to end. |

The network is a parameter: `fetch: Params -> Value` stands for the request
and the JSON decoding. A query that fails (bad status, undecodable body) is
`fetch` returning `Null`, as `query_api` returns `None`.

`requests.get` (line 34) sits outside the `try`, so a network exception
ends the run. `fetch` is total and does not model it.

## Model

| member | source | states |
|---|---|---|
| Values.Get | get-vulnerabilities.py:124 | `d.get(k)` finds a value exactly when `k` is one of the dict's keys |
| Values.GetField | get-vulnerabilities.py:128 | in a dict, looking up a field's key gives back that field's value |
| Values.PutGet | get-vulnerabilities.py:171-172 | after `item[k] = v`, `k` holds `v` and every other key keeps its value |
| Values.PutKeys | get-vulnerabilities.py:171-172 | an assigned key keeps its position when present and is appended when new |
| Values.PutIsDict | get-vulnerabilities.py:171-172 | item assignment never creates a duplicate key |
| Values.ContainsIterate | get-vulnerabilities.py:168-170 | on a list or a dict, `k in v` holds exactly when iterating `v` yields `k` |
| Values.ContainsSubscript | get-vulnerabilities.py:125 | on a dict, `k in d` holds exactly when `d[k]` succeeds, and `d[k]` is then the looked-up value |
| Values.TruthyIterate | get-vulnerabilities.py:167 | an iterable result is truthy exactly when iterating it yields something |
| Values.ReprPlain | get-vulnerabilities.py:67 | `str()` of a string in a list shows plain text inside single quotes |
| HtmlEscape.Escape | get-vulnerabilities.py:111 | escaped text holds no `<`, `>`, `"` or `'` and is never shorter than the input |
| HtmlEscape.UnescapeEscape | get-vulnerabilities.py:140-142 | unescaping the escaped text gives back the original text |
| HtmlEscape.EscapeInjective | get-vulnerabilities.py:111 | two different texts never escape to the same markup |
| HtmlEscape.EscapePlain | get-vulnerabilities.py:142 | escaping leaves a text unchanged exactly when it holds none of `&<>"'` |
| Query.Lower | get-vulnerabilities.py:28 | lower-casing keeps the length and maps each character on its own |
| Query.QueryParams | get-vulnerabilities.py:22-28 | product, vendor and size 100 are always sent; `exploited` is added as "true" or "false" only when a flag is given |
| Query.ParamNames | get-vulnerabilities.py:22-28 | parameter names are distinct, and `exploited` is among them exactly when a flag is given |
| Query.FlagChangesQuery | get-vulnerabilities.py:163-166 | the two passes send different queries for the same product |
| Aggregation.TagSpec | get-vulnerabilities.py:171-172 | a tagged item holds the queried product and vendor and agrees with the item on every other key |
| Aggregation.TagShape | get-vulnerabilities.py:171-172 | tagging adds at most two fields and keeps the item's own keys in front, in order |
| Aggregation.TagIsDict | get-vulnerabilities.py:177-178 | tagging keeps a dict free of duplicate keys |
| Aggregation.TaggedOk | get-vulnerabilities.py:170-172 | tagging a list succeeds exactly when every item is a dict, and then yields each item tagged, in order |
| Aggregation.TaggedErr | get-vulnerabilities.py:176-178 | a failed tagging raises for the first item that is not a dict |
| Aggregation.TagItems | get-vulnerabilities.py:170-172 | the tagging loop computes the tagged list, or the first error |
| Aggregation.AddResult | get-vulnerabilities.py:167-182 | one query's handling extends the pass's list by its contribution, or raises |
| Aggregation.ContributionShapes | get-vulnerabilities.py:168-179 | a dict whose `items` is a list of dicts, and a bare list of dicts, contribute each of their items, tagged, in order |
| Aggregation.ContributionIgnored | get-vulnerabilities.py:167-182 | a falsy result, or one that is neither a list nor a dict with `items`, contributes nothing |
| Aggregation.ContributionTagged | get-vulnerabilities.py:170-178 | every record a query contributes carries that query's product and vendor |
| Aggregation.CollectPass | get-vulnerabilities.py:164-183 | the product loop computes the pass's results: products in order, stopping at the first error |
| Aggregation.PassRecordsTagged | get-vulnerabilities.py:165-179 | every record of a pass carries the product and vendor of one of the listed products |
| Aggregation.PassEmptyWhenNothingContributed | get-vulnerabilities.py:164-183 | when no query contributes a record (falsy, an empty `items` list, an unexpected shape), the pass collects nothing |
| Aggregation.PassEmptyWhenNothingFound | get-vulnerabilities.py:164-167 | when no query returns anything truthy, the pass collects nothing |
| Aggregation.PassOfOne | get-vulnerabilities.py:165-182 | a pass over one product is that product's contribution for the pass's flag |
| CsvReport.AllKeysSpec | get-vulnerabilities.py:56-58 | a key is a column exactly when some record has it |
| CsvReport.RecordKeysAreColumns | get-vulnerabilities.py:56-58 | every key of every record is a column |
| CsvReport.CollectFields | get-vulnerabilities.py:56-58 | the key-collecting loop yields the union of all record keys |
| CsvReport.ListFields | get-vulnerabilities.py:60 | the field list holds each collected key exactly once |
| CsvReport.Stringified | get-vulnerabilities.py:67 | the comprehension has exactly the row's keys, each with `str(v)`, or "" for None |
| CsvReport.CleanRow | get-vulnerabilities.py:67-71 | a cleaned row has the row's keys and every field name, and each cell is what the record holds there, or "" |
| CsvReport.CleanRows | get-vulnerabilities.py:65-72 | one cleaned row per record, in order, each giving every column its cell |
| CsvReport.SaveCsv | get-vulnerabilities.py:50-73 | nothing is written for an empty list; otherwise the header lists every key once and row `i` is record `i` cleaned |
| HtmlReport.Band | get-vulnerabilities.py:132-139 | each colour class holds exactly on its closed range; every other score, including the gaps between ranges and negative scores, is dark red |
| HtmlReport.BandExamples | get-vulnerabilities.py:132-139 | range ends fall in their own band, and 3.95, 6.95, 8.95 and -0.1 fall in dark red |
| HtmlReport.ClassNamesDistinct | get-vulnerabilities.py:133-139 | different bands get different CSS classes |
| HtmlReport.ParseIntText | get-vulnerabilities.py:131 | `float()` reads back the decimal text of every integer |
| HtmlReport.ScoreOfIntText | get-vulnerabilities.py:131 | an integer score and its decimal text convert to the same float |
| HtmlReport.FieldCellFails | get-vulnerabilities.py:130-131 | building a cell raises exactly for a `baseScore` that `float()` rejects |
| HtmlReport.BadScoreFails | get-vulnerabilities.py:131 | one unconvertible shown `baseScore` anywhere makes the whole page fail |
| HtmlReport.EntryNamesTyped | get-vulnerabilities.py:125 | well-typed product entries yield their names, skipping entries without `product.name` |
| HtmlReport.ProductCellTyped | get-vulnerabilities.py:124-126 | the product cell joins the names of the entries with ", " |
| HtmlReport.ProductCellAbsent | get-vulnerabilities.py:124 | a row without `enisaIdProduct` gets an empty product cell |
| HtmlReport.RowProductCell | get-vulnerabilities.py:124-126 | the first cell of a row is unclassed and unescapes to the product names |
| HtmlReport.ShownFieldsSpec | get-vulnerabilities.py:129 | the shown fields are fields of the row whose keys are not excluded |
| HtmlReport.ShownFieldsKeys | get-vulnerabilities.py:129 | a key is shown exactly when the row has it and it is not excluded |
| HtmlReport.ShownFieldsWhole | get-vulnerabilities.py:129 | a row without excluded keys is shown whole |
| HtmlReport.HeaderCells | get-vulnerabilities.py:109-111 | the header loop writes one escaped `<th>` per shown key of the first record, in order |
| HtmlReport.CellsSpec | get-vulnerabilities.py:128-142 | the cells of a row are built exactly when every shown field's cell is, one per shown field, in order |
| HtmlReport.FieldCellSpec | get-vulnerabilities.py:130-142 | a cell unescapes to `str(value)`; only the `baseScore` cell has a class, and that class is the band of its float |
| HtmlReport.RowCellsSpec | get-vulnerabilities.py:120-142 | a row has one product cell followed by one cell per shown field, in order |
| HtmlReport.RowCellsEscaped | get-vulnerabilities.py:126-142 | no cell text contains `<`, `>`, `"` or `'` |
| HtmlReport.RowWidths | get-vulnerabilities.py:105-143 | a row has one more cell than it has shown keys; the first row matches the header |
| HtmlReport.PlainRecordRow | get-vulnerabilities.py:120-143 | a record without excluded keys or score renders one cell more than it has fields |
| HtmlReport.CellsBuildWhenScoreConverts | get-vulnerabilities.py:128-142 | when the `baseScore`, if any, converts, every field gets a cell |
| HtmlReport.MisalignedRows | get-vulnerabilities.py:105-143 | a later record that has every shown key of the first record and one shown key more renders more cells than the header has |
| HtmlReport.MisalignedRow | get-vulnerabilities.py:105-143 | for example, `[id]` then `[id, vector]`: the second row has three cells under a header of two |
| HtmlReport.RowsOk | get-vulnerabilities.py:120-143 | the body builds exactly when every row does |
| HtmlReport.BodyMarkupOk | get-vulnerabilities.py:120-143 | the body builds exactly when every row's cells do |
| HtmlReport.RowsConcat | get-vulnerabilities.py:120-143 | the body of two lists is the first's rows followed by the second's |
| HtmlReport.AppendFieldCells | get-vulnerabilities.py:128-142 | the field loop appends the markup of every shown cell in order, or raises the first cell's error |
| HtmlReport.AppendRow | get-vulnerabilities.py:121-143 | one row's `+=` steps append the row's markup, or raise its error |
| HtmlReport.RenderedNothing | get-vulnerabilities.py:76-78 | `save_to_html` ends with no page and no error exactly for an empty list; a list whose row raises also leaves no page, but ends in that error |
| HtmlReport.SaveHtml | get-vulnerabilities.py:75-154 | the page is the header of the first record's shown keys plus one row per record, in order, or the first error |
| Runner.RunPass | get-vulnerabilities.py:164-194 | a pass raises on a tagging error, saves nothing when nothing was found, and otherwise saves the CSV table and then the page, or raises while building the page |
| Runner.Run | get-vulnerabilities.py:163-194 | the exploited pass runs first; the second pass runs exactly when the first did not raise |
| Runner.NothingFoundSavesNothing | get-vulnerabilities.py:185-194 | a pass where no query contributes a record (falsy results, `{"items": []}`, a dict without `items`) saves nothing and does not raise |
| Runner.SavedPass | get-vulnerabilities.py:185-192 | a saved pass has one CSV row per record found, and each record carries a listed product |
| Runner.OneProductExample | get-vulnerabilities.py:163-194 | one product with one exploited item: the first pass saves a CSV whose columns are exactly `id`, `baseScore`, `queried_product` and `queried_vendor`, with one row holding the item's id and score and the queried pair; the second pass saves nothing |

## Left out

- `parse_xml` (lines 10-18): reading `products.xml` is file I/O, so the product list is a parameter.
- `requests.get`, status handling and `json.loads` (lines 20-48) are the `fetch` parameter. A failed or undecodable response is `fetch` returning `Null`.
- A network exception from `requests.get` is not modelled. The code does not catch it, so it would end the run.
- The diagnostic prints, `json.dumps` truncation, `time.sleep(1)`, the timestamp, `os.makedirs` and the file names are output, time and file-system effects.
- `csv.DictWriter` quoting and byte layout are not modelled. The model stops at the header and the cleaned rows handed to the writer.
- The fixed HTML boilerplate and CSS around the table (lines 80-106, 113-117, 145-150) are constant text. The model keeps the header and body markup.
- HtmlReport.ToFloat: accepts only plain decimal text (`7`, `-7.5`, `.5`, `5.`). Python's `float()` also accepts exponents, `inf`/`nan`, surrounding whitespace and underscores.
- HtmlReport.ToFloat: an int score converts to its exact value. Python's `float()` rounds an int above 2^53 and raises `OverflowError` for one beyond the double range; the model instead bands such a score dark red.
- Values.Value: a float carries its exact value and its `str()` text. IEEE rounding and the shortest-repr algorithm are not modelled.
- Values.Repr: characters above 0xff that Python treats as non-printable are not escaped.
- Aggregation.Tag: the model returns tagged copies. Python mutates the items in place, which is unobservable here because each decoded item is reachable only from its own result.
- Values.Get: a record with a repeated key reads the first occurrence. Decoded JSON objects never repeat a key (`TagIsDict`, `PutIsDict`).
- Query.Lower: lower-cases ASCII only. It is applied only to "True" and "False".
- CsvReport.ListFields: leaves the column order open, as a Python set's iteration order is.
- Only the first page of at most 100 results per query is requested. The script does the same; paging is not part of it.
- A raised Python exception is an `Err` value carrying its cause. The traceback and the abrupt exit are not modelled.
