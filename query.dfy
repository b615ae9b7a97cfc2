/** The query string `query_api` sends for one (product, vendor) pair. */
module Query {
  import opened Values

  /** A query parameter value: the script passes str values and the int page size. */
  datatype Param = Text(s: string) | Number(n: int)

  /** The `params` dict, in insertion order (the order `requests` encodes it in). */
  type Params = seq<(string, Param)>

  /** Only the first page of this many results is ever requested. */
  const PageSize := 100

  function LowerChar(c: char): char
  {
    if 'A' <= c <= 'Z' then (c as int + 32) as char else c
  }

  /** `s.lower()` on ASCII letters. */
  function Lower(s: string): (r: string)
    ensures |r| == |s|
    ensures forall i :: 0 <= i < |s| ==> r[i] == LowerChar(s[i])
  {
    if s == [] then "" else [LowerChar(s[0])] + Lower(s[1..])
  }

  /** The parameters of one request: product, vendor and the page size
      always, in that order, and then `exploited` as the lower-cased
      `str()` of the flag when a flag is given. */
  function QueryParams(product: string, vendor: string, exploited: Option<bool>): (p: Params)
    ensures |p| == if exploited.Some? then 4 else 3
    ensures p[0] == ("product", Text(product)) && p[1] == ("vendor", Text(vendor))
    ensures p[2] == ("size", Number(100))
    ensures exploited.Some? ==> p[3] == ("exploited", Text(if exploited.value then "true" else "false"))
  {
    var base := [("product", Text(product)), ("vendor", Text(vendor)), ("size", Number(PageSize))];
    match exploited
    case None => base
    case Some(flag) =>
      var word := Lower(ToStr(Bool(flag)));
      assert word == if flag then "true" else "false";
      base + [("exploited", Text(word))]
  }

  /** The parameter names of a request, looked up as the request encodes them. */
  function Names(p: Params): seq<string>
  {
    seq(|p|, i requires 0 <= i < |p| => p[i].0)
  }

  /** No parameter is sent twice, and `exploited` is sent exactly when a flag is given. */
  lemma ParamNames(product: string, vendor: string, exploited: Option<bool>)
    ensures Distinct(Names(QueryParams(product, vendor, exploited)))
    ensures "exploited" in Names(QueryParams(product, vendor, exploited)) <==> exploited.Some?
  {
    var p := QueryParams(product, vendor, exploited);
    var n := Names(p);
    assert n[..3] == ["product", "vendor", "size"];
    if exploited.Some? {
      assert n == ["product", "vendor", "size", "exploited"];
    } else {
      assert n == ["product", "vendor", "size"];
    }
  }

  /** The two passes send different queries for the same pair. */
  lemma FlagChangesQuery(product: string, vendor: string, a: bool, b: bool)
    requires a != b
    ensures QueryParams(product, vendor, Some(a)) != QueryParams(product, vendor, Some(b))
  {
    assert QueryParams(product, vendor, Some(a))[3] != QueryParams(product, vendor, Some(b))[3];
  }
}
