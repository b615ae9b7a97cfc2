/** `save_to_html` (get-vulnerabilities.py:75-154) up to the markup it
    builds between the fixed page head and the fixed page tail: the header
    cells and the table rows. The fixed text around them and the file itself
    are not part of this model. */
module HtmlReport {
  import opened Values
  import opened HtmlEscape

  const ProductKey := "enisaIdProduct"
  const VendorKey := "enisaIdVendor"
  const ScoreKey := "baseScore"

  /** The two keys that get no column of their own. */
  predicate Shown(key: string)
  {
    key != ProductKey && key != VendorKey
  }

  // ---------------------------------------------------------------- severity

  datatype Severity = Green | Orange | Red | DarkRed

  /** The if/elif chain of lines 132-139. Each band is closed at both ends,
      and every score outside the three bands, negative scores and the gaps
      between the bands included, is dark red. */
  function Band(score: real): (s: Severity)
    ensures s == Green <==> 0.0 <= score <= 3.9
    ensures s == Orange <==> 4.0 <= score <= 6.9
    ensures s == Red <==> 7.0 <= score <= 8.9
    ensures s == DarkRed <==> score < 0.0 || 3.9 < score < 4.0 || 6.9 < score < 7.0 || 8.9 < score
  {
    if 0.0 <= score <= 3.9 then Green
    else if 4.0 <= score <= 6.9 then Orange
    else if 7.0 <= score <= 8.9 then Red
    else DarkRed
  }

  function ClassName(s: Severity): string
  {
    match s
    case Green => "score-green"
    case Orange => "score-orange"
    case Red => "score-red"
    case DarkRed => "score-darkred"
  }

  /** The band edges, and scores that fall between or below the bands. */
  lemma BandExamples()
    ensures Band(0.0) == Green && Band(3.9) == Green
    ensures Band(4.0) == Orange && Band(6.9) == Orange
    ensures Band(7.0) == Red && Band(8.9) == Red
    ensures Band(9.0) == DarkRed && Band(10.0) == DarkRed
    ensures Band(3.95) == DarkRed && Band(6.95) == DarkRed && Band(8.95) == DarkRed
    ensures Band(-0.1) == DarkRed
  {
  }

  /** Different bands get different CSS classes. */
  lemma ClassNamesDistinct(s: Severity, t: Severity)
    requires s != t
    ensures ClassName(s) != ClassName(t)
  {
  }

  // ---------------------------------------------------------------- float()

  predicate IsDigit(c: char)
  {
    '0' <= c <= '9'
  }

  predicate AllDigits(s: string)
  {
    forall i :: 0 <= i < |s| ==> IsDigit(s[i])
  }

  function DigitsValue(s: string): nat
    requires AllDigits(s)
  {
    if s == [] then 0 else DigitsValue(s[..|s| - 1]) * 10 + (s[|s| - 1] as int - '0' as int)
  }

  function Pow10(n: nat): (p: nat)
    ensures p > 0
  {
    if n == 0 then 1 else 10 * Pow10(n - 1)
  }

  /** The index of the first `c` in `s`, or `|s|` when there is none. */
  function IndexOf(s: string, c: char): (i: nat)
    ensures i <= |s|
    ensures i < |s| ==> s[i] == c
    ensures forall j :: 0 <= j < i ==> s[j] != c
  {
    if s == [] then 0 else if s[0] == c then 0 else 1 + IndexOf(s[1..], c)
  }

  /** Digits with at most one decimal point and at least one digit. */
  function ParseUnsigned(s: string): Option<real>
  {
    var dot := IndexOf(s, '.');
    var whole := s[..dot];
    var frac := if dot < |s| then s[dot + 1..] else "";
    if |whole| + |frac| == 0 || !AllDigits(whole) || !AllDigits(frac) then None
    else Some(DigitsValue(whole) as real + DigitsValue(frac) as real / Pow10(|frac|) as real)
  }

  /** `float(s)` for a str in plain decimal notation with an optional sign. */
  function ParseDecimal(s: string): Option<real>
  {
    if |s| > 0 && s[0] == '-' then
      match ParseUnsigned(s[1..])
      case Some(x) => Some(-x)
      case None => None
    else if |s| > 0 && s[0] == '+' then ParseUnsigned(s[1..])
    else ParseUnsigned(s)
  }

  /** `float(v)` (line 131): numbers and bools convert, a str is parsed,
      None, lists and dicts raise. */
  function ToFloat(v: Value): Result<real>
  {
    match v
    case Int(i) => Ok(i as real)
    case Float(x, _) => Ok(x)
    case Bool(b) => Ok(if b then 1.0 else 0.0)
    case Str(s) =>
      (match ParseDecimal(s)
       case Some(x) => Ok(x)
       case None => Err(NotANumber(v)))
    case _ => Err(NotANumber(v))
  }

  lemma DigitValue(d: nat)
    requires d < 10
    ensures IsDigit(Digit(d)) && Digit(d) as int - '0' as int == d
  {
    var digits := "0123456789";
    assert digits[0] == '0' && digits[1] == '1' && digits[2] == '2' && digits[3] == '3' && digits[4] == '4';
    assert digits[5] == '5' && digits[6] == '6' && digits[7] == '7' && digits[8] == '8' && digits[9] == '9';
  }

  lemma {:induction false} DigitsOfNatText(n: nat)
    ensures AllDigits(NatText(n)) && DigitsValue(NatText(n)) == n
  {
    DigitValue(n % 10);
    if n >= 10 {
      DigitsOfNatText(n / 10);
      var s := NatText(n);
      assert s == NatText(n / 10) + [Digit(n % 10)];
      assert s[..|s| - 1] == NatText(n / 10);
    }
  }

  lemma IndexOfAbsent(s: string, c: char)
    requires forall i :: 0 <= i < |s| ==> s[i] != c
    ensures IndexOf(s, c) == |s|
  {
  }

  /** The text of a natural number parses back to that number. */
  lemma ParseNatText(n: nat)
    ensures ParseUnsigned(NatText(n)) == Some(n as real)
  {
    var t := NatText(n);
    DigitsOfNatText(n);
    IndexOfAbsent(t, '.');
    assert t[..|t|] == t;
    assert AllDigits("") && DigitsValue("") == 0 && Pow10(0) == 1;
  }

  /** The text of an integer parses back to that integer. */
  lemma ParseIntText(i: int)
    ensures ParseDecimal(IntText(i)) == Some(i as real)
  {
    var n: nat := if i < 0 then -i else i;
    var t := NatText(n);
    ParseNatText(n);
    DigitsOfNatText(n);
    assert IsDigit(t[0]);
    if i < 0 {
      var s := IntText(i);
      assert s == "-" + t;
      assert s[0] == '-' && s[1..] == t;
    } else {
      assert IntText(i) == t;
    }
  }

  /** A score sent as the text of an integer converts to that integer, so it
      falls into the same band as the number itself. */
  lemma ScoreOfIntText(i: int)
    ensures ToFloat(Str(IntText(i))) == ToFloat(Int(i))
  {
    ParseIntText(i);
  }

  // ---------------------------------------------------------------- product cell

  /** `p['product']['name']` for an entry that passes the test
      `'product' in p and 'name' in p['product']`; None for one that fails it. */
  function EntryName(p: Value): Result<Option<Value>>
  {
    match Contains(p, "product")
    case Err(e) => Err(e)
    case Ok(hasProduct) =>
      if !hasProduct then Ok(None)
      else
        match Subscript(p, "product")
        case Err(e) => Err(e)
        case Ok(product) =>
          match Contains(product, "name")
          case Err(e) => Err(e)
          case Ok(hasName) =>
            if !hasName then Ok(None)
            else
              match Subscript(product, "name")
              case Err(e) => Err(e)
              case Ok(name) => Ok(Some(name))
  }

  /** The generator of line 125, drained in order. */
  function EntryNames(entries: seq<Value>): Result<seq<Value>>
  {
    if entries == [] then Ok([])
    else
      match EntryNames(entries[..|entries| - 1])
      case Err(e) => Err(e)
      case Ok(names) =>
        match EntryName(entries[|entries| - 1])
        case Err(e) => Err(e)
        case Ok(None) => Ok(names)
        case Ok(Some(n)) => Ok(names + [n])
  }

  /** `str.join` accepts only str items. */
  function AsStrings(vs: seq<Value>): Result<seq<string>>
  {
    if vs == [] then Ok([])
    else
      match AsStrings(vs[..|vs| - 1])
      case Err(e) => Err(e)
      case Ok(strs) =>
        var last := vs[|vs| - 1];
        if last.Str? then Ok(strs + [last.s]) else Err(NotAString(last))
  }

  function Join(parts: seq<string>, sep: string): string
  {
    if parts == [] then ""
    else if |parts| == 1 then parts[0]
    else Join(parts[..|parts| - 1], sep) + sep + parts[|parts| - 1]
  }

  /** Lines 124-125: the names of the `enisaIdProduct` entries joined by ", ". */
  function ProductCell(row: Record): Result<string>
  {
    var entries := match Get(row, ProductKey) case Some(v) => v case None => List([]);
    match Iterate(entries)
    case Err(e) => Err(e)
    case Ok(items) =>
      match EntryNames(items)
      case Err(e) => Err(e)
      case Ok(names) =>
        match AsStrings(names)
        case Err(e) => Err(e)
        case Ok(strs) => Ok(Join(strs, ", "))
  }

  /** An entry of the shape the service sends: a dict whose `product`, when
      present, is a dict whose `name`, when present, is a str. */
  predicate WellTypedEntry(p: Value)
  {
    && p.Dict?
    && match Get(p.fields, "product")
       case None => true
       case Some(product) =>
         && product.Dict?
         && match Get(product.fields, "name")
            case None => true
            case Some(name) => name.Str?
  }

  /** The name a well-typed entry contributes, if it has one. */
  function TypedName(p: Value): Option<string>
    requires WellTypedEntry(p)
  {
    match Get(p.fields, "product")
    case None => None
    case Some(product) =>
      match Get(product.fields, "name")
      case None => None
      case Some(name) => Some(name.s)
  }

  /** The names of the entries that have both `product` and `name`, in
      order, duplicates kept. */
  function TypedNames(entries: seq<Value>): seq<string>
    requires forall i :: 0 <= i < |entries| ==> WellTypedEntry(entries[i])
  {
    if entries == [] then []
    else
      var front := TypedNames(entries[..|entries| - 1]);
      match TypedName(entries[|entries| - 1])
      case None => front
      case Some(n) => front + [n]
  }

  lemma {:induction false} EntryNamesTyped(entries: seq<Value>)
    requires forall i :: 0 <= i < |entries| ==> WellTypedEntry(entries[i])
    ensures EntryNames(entries).Ok?
    ensures AsStrings(EntryNames(entries).value) == Ok(TypedNames(entries))
  {
    if entries != [] {
      var n := |entries| - 1;
      var front := entries[..n];
      assert forall i :: 0 <= i < n ==> front[i] == entries[i];
      EntryNamesTyped(front);
      var names := EntryNames(front).value;
      var p := entries[n];
      match TypedName(p)
      case None =>
        assert EntryName(p) == Ok(None);
      case Some(nm) =>
        assert EntryName(p) == Ok(Some(Str(nm)));
        var all := names + [Str(nm)];
        assert all[..|all| - 1] == names;
    }
  }

  /** For entries of the shape the service sends, the product cell is the
      names of the entries that have both `product` and `name`, joined by
      ", " in order without removing duplicates; other entries are skipped. */
  lemma ProductCellTyped(row: Record, entries: seq<Value>)
    requires Get(row, ProductKey) == Some(List(entries))
    requires forall i :: 0 <= i < |entries| ==> WellTypedEntry(entries[i])
    ensures ProductCell(row) == Ok(Join(TypedNames(entries), ", "))
  {
    EntryNamesTyped(entries);
  }

  /** A record without `enisaIdProduct` gets an empty product cell. */
  lemma ProductCellAbsent(row: Record)
    requires ProductKey !in Keys(row)
    ensures ProductCell(row) == Ok("")
  {
  }

  // ---------------------------------------------------------------- cells

  /** A table cell: its CSS class, if any, and its escaped text. */
  datatype Cell = Cell(cls: Option<string>, text: string)

  /** The cell of one shown field (lines 129-142): `baseScore` gets the
      class of its band, and `float()` of its value must succeed. */
  function FieldCell(f: Field): Result<Cell>
  {
    if f.key == ScoreKey then
      match ToFloat(f.val)
      case Err(e) => Err(e)
      case Ok(score) => Ok(Cell(Some(ClassName(Band(score))), Escape(ToStr(f.val))))
    else Ok(Cell(None, Escape(ToStr(f.val))))
  }

  /** The fields of a record that get a column, in the record's order. */
  function ShownFields(r: Record): Record
  {
    if r == [] then []
    else
      var front := ShownFields(r[..|r| - 1]);
      if Shown(r[|r| - 1].key) then front + [r[|r| - 1]] else front
  }

  /** The cells of the shown fields of a record, in order, each built by
      `cell`; the first field whose cell fails decides the error. */
  function Cells(r: Record, cell: Field -> Result<Cell>): Result<seq<Cell>>
  {
    if r == [] then Ok([])
    else
      match Cells(r[..|r| - 1], cell)
      case Err(e) => Err(e)
      case Ok(cells) =>
        var f := r[|r| - 1];
        if !Shown(f.key) then Ok(cells)
        else
          match cell(f)
          case Err(e) => Err(e)
          case Ok(c) => Ok(cells + [c])
  }

  /** The cells of the loop of lines 128-142 over one record. */
  function FieldCells(r: Record): Result<seq<Cell>>
  {
    Cells(r, FieldCell)
  }

  /** One table row: the product cell, then the cells of the shown fields. */
  function RowCells(row: Record): Result<seq<Cell>>
  {
    match ProductCell(row)
    case Err(e) => Err(e)
    case Ok(names) =>
      match FieldCells(row)
      case Err(e) => Err(e)
      case Ok(cells) => Ok([Cell(None, Escape(names))] + cells)
  }

  function CellMarkup(c: Cell): string
  {
    match c.cls
    case None => "<td>" + c.text + "</td>"
    case Some(k) => "<td class=\"" + k + "\">" + c.text + "</td>"
  }

  /** The texts of `cells`, each rendered by `render`, one after another. */
  function Concat(cells: seq<Cell>, render: Cell -> string): string
  {
    if cells == [] then "" else Concat(cells[..|cells| - 1], render) + render(cells[|cells| - 1])
  }

  function Markup(cells: seq<Cell>): string
  {
    Concat(cells, CellMarkup)
  }

  function RowMarkup(row: Record): Result<string>
  {
    match RowCells(row)
    case Err(e) => Err(e)
    case Ok(cells) => Ok("<tr>" + Markup(cells) + "</tr>")
  }

  /** The rows of a table body, in the order of the records, each rendered
      by `render`; the first row that fails decides the error. */
  function Rows(data: seq<Record>, render: Record -> Result<string>): Result<string>
  {
    if data == [] then Ok("")
    else
      match Rows(data[..|data| - 1], render)
      case Err(e) => Err(e)
      case Ok(body) =>
        match render(data[|data| - 1])
        case Err(e) => Err(e)
        case Ok(row) => Ok(body + row)
  }

  /** The rows of the table body (lines 120-145). */
  function BodyMarkup(data: seq<Record>): Result<string>
  {
    Rows(data, RowMarkup)
  }

  /** The header cells after "Product": one per shown key, in order. */
  function HeaderMarkup(keys: seq<string>): string
  {
    if keys == [] then "" else HeaderMarkup(keys[..|keys| - 1]) + "<th>" + Escape(keys[|keys| - 1]) + "</th>"
  }

  /** The columns after "Product": the shown keys of the first record only. */
  function HeaderKeys(data: seq<Record>): seq<string>
    requires data != []
  {
    Keys(ShownFields(data[0]))
  }

  /** The varying parts of the page: the header cells and the table body. */
  datatype HtmlTable = HtmlTable(head: string, body: string)

  /** What `save_to_html` writes: nothing for an empty list, otherwise the
      table, unless building a row raised. */
  function Rendered(data: seq<Record>): Result<Option<HtmlTable>>
  {
    if data == [] then Ok(None)
    else
      match BodyMarkup(data)
      case Err(e) => Err(e)
      case Ok(body) => Ok(Some(HtmlTable(HeaderMarkup(HeaderKeys(data)), body)))
  }

  // ---------------------------------------------------------------- properties

  /** Every field that gets a column is a field of the record whose key is
      not one of the two excluded ones. */
  lemma {:induction false} ShownFieldsSpec(r: Record)
    ensures forall j :: 0 <= j < |ShownFields(r)| ==> Shown(ShownFields(r)[j].key) && ShownFields(r)[j] in r
  {
    if r != [] {
      var n := |r| - 1;
      var front := r[..n];
      ShownFieldsSpec(front);
      var s := ShownFields(front);
      assert forall f :: f in front ==> f in r;
      if Shown(r[n].key) {
        assert ShownFields(r) == s + [r[n]];
      }
    }
  }

  /** A key gets a column exactly when the record has it and it is not one
      of the two excluded keys. */
  lemma {:induction false} ShownFieldsKeys(r: Record)
    ensures forall k :: k in Keys(ShownFields(r)) <==> k in Keys(r) && Shown(k)
  {
    if r != [] {
      var n := |r| - 1;
      var front := r[..n];
      ShownFieldsKeys(front);
      assert r == front + [r[n]];
      KeysSnoc(front, r[n]);
      if Shown(r[n].key) {
        KeysSnoc(ShownFields(front), r[n]);
      }
    }
  }

  /** A record without the excluded keys is shown whole, in its own order. */
  lemma {:induction false} ShownFieldsWhole(r: Record)
    requires forall j :: 0 <= j < |r| ==> Shown(r[j].key)
    ensures ShownFields(r) == r
  {
    if r != [] {
      var n := |r| - 1;
      var front := r[..n];
      assert forall j :: 0 <= j < n ==> front[j] == r[j];
      ShownFieldsWhole(front);
      assert r == front + [r[n]];
    }
  }

  /** The cells of one record are the cells of its shown fields, one each,
      in order; building them fails exactly when one of them fails. */
  lemma {:induction false} CellsSpec(r: Record, cell: Field -> Result<Cell>)
    ensures Cells(r, cell).Ok? <==> forall j :: 0 <= j < |ShownFields(r)| ==> cell(ShownFields(r)[j]).Ok?
    ensures Cells(r, cell).Ok? ==> |Cells(r, cell).value| == |ShownFields(r)|
    ensures Cells(r, cell).Ok? ==>
      forall j :: 0 <= j < |ShownFields(r)| ==> Cells(r, cell).value[j] == cell(ShownFields(r)[j]).value
  {
    if r != [] {
      var n := |r| - 1;
      var front := r[..n];
      CellsSpec(front, cell);
      var s := ShownFields(front);
      if Shown(r[n].key) {
        var s' := s + [r[n]];
        assert ShownFields(r) == s';
        assert forall j :: 0 <= j < |s| ==> s'[j] == s[j];
        if Cells(front, cell).Err? {
          var j :| 0 <= j < |s| && cell(s[j]).Err?;
          assert cell(s'[j]).Err?;
        } else if cell(r[n]).Err? {
          assert cell(s'[|s|]).Err?;
        } else {
          var cs := Cells(front, cell).value + [cell(r[n]).value];
          assert Cells(r, cell) == Ok(cs);
          forall j | 0 <= j < |s'|
            ensures cell(s'[j]).Ok? && cs[j] == cell(s'[j]).value
          {
            if j < |s| {
              assert s'[j] == s[j];
            }
          }
        }
      } else {
        assert ShownFields(r) == s;
      }
    }
  }

  /** The cell of one shown field reads back, once unescaped, as `str()`
      of its value; only `baseScore` carries a class, the class of its band. */
  lemma FieldCellSpec(f: Field)
    requires FieldCell(f).Ok?
    ensures Unescape(FieldCell(f).value.text) == ToStr(f.val)
    ensures f.key == ScoreKey ==>
      ToFloat(f.val).Ok? && FieldCell(f).value.cls == Some(ClassName(Band(ToFloat(f.val).value)))
    ensures f.key != ScoreKey ==> FieldCell(f).value.cls == None
  {
    UnescapeEscape(ToStr(f.val));
  }

  /** Building a cell fails only for a `baseScore` that `float()` rejects. */
  lemma FieldCellFails(f: Field)
    ensures FieldCell(f).Err? <==> f.key == ScoreKey && ToFloat(f.val).Err?
  {
  }

  /** Line 126: a row opens with a product cell that reads back, once
      unescaped, as the joined product names. */
  lemma RowProductCell(row: Record)
    requires RowCells(row).Ok?
    ensures RowCells(row).value[0].cls == None
    ensures Unescape(RowCells(row).value[0].text) == ProductCell(row).value
  {
    UnescapeEscape(ProductCell(row).value);
  }

  /** Lines 128-142: after the product cell, a row holds the cell of each
      shown field of the record, in order. */
  lemma RowCellsSpec(row: Record)
    requires RowCells(row).Ok?
    ensures |RowCells(row).value| == 1 + |ShownFields(row)|
    ensures forall j :: 0 <= j < |ShownFields(row)| ==>
      FieldCell(ShownFields(row)[j]).Ok? && RowCells(row).value[j + 1] == FieldCell(ShownFields(row)[j]).value
  {
    CellsSpec(row, FieldCell);
    var cells := FieldCells(row).value;
    var first := RowCells(row).value[0];
    assert RowCells(row).value == [first] + cells;
    ConsCells(first, cells, ShownFields(row), FieldCell);
  }

  lemma ConsCells(first: Cell, cells: seq<Cell>, shown: Record, cell: Field -> Result<Cell>)
    requires |cells| == |shown|
    requires forall j :: 0 <= j < |shown| ==> cell(shown[j]).Ok? && cells[j] == cell(shown[j]).value
    ensures |[first] + cells| == 1 + |shown|
    ensures forall j :: 0 <= j < |shown| ==> cell(shown[j]).Ok? && ([first] + cells)[j + 1] == cell(shown[j]).value
  {
  }

  /** No character that could open a tag or close an attribute value in
      either quote. */
  predicate Inert(t: string)
  {
    forall i :: 0 <= i < |t| ==> t[i] != '<' && t[i] != '>' && t[i] != '"' && t[i] != '\''
  }

  lemma FieldCellInert(f: Field)
    requires FieldCell(f).Ok?
    ensures Inert(FieldCell(f).value.text)
  {
  }

  /** No cell text can open a tag or close an attribute value. */
  lemma RowCellsEscaped(row: Record)
    requires RowCells(row).Ok?
    ensures forall c :: c in RowCells(row).value ==> Inert(c.text)
  {
    RowCellsSpec(row);
    var cells := RowCells(row).value;
    var shown := ShownFields(row);
    forall c | c in cells
      ensures Inert(c.text)
    {
      var j :| 0 <= j < |cells| && cells[j] == c;
      if j > 0 {
        FieldCellInert(shown[j - 1]);
      }
    }
  }

  /** The header is built from the first record only: the first row has one
      cell per header cell ("Product" included), and any later record has
      exactly as many cells as it has shown keys, whatever the header says. */
  lemma RowWidths(data: seq<Record>, i: nat)
    requires i < |data| && RowCells(data[i]).Ok?
    ensures |RowCells(data[i]).value| == 1 + |Keys(ShownFields(data[i]))|
    ensures i == 0 ==> |RowCells(data[i]).value| == 1 + |HeaderKeys(data)|
  {
    RowCellsSpec(data[i]);
  }

  /** A record without product entries, excluded keys or a score gets a
      product cell and one cell per field. */
  lemma PlainRecordRow(rec: Record)
    requires forall j :: 0 <= j < |rec| ==> Shown(rec[j].key) && rec[j].key != ScoreKey
    ensures ShownFields(rec) == rec
    ensures RowCells(rec).Ok? && |RowCells(rec).value| == 1 + |rec|
  {
    ShownFieldsWhole(rec);
    assert ProductKey !in Keys(rec);
    ProductCellAbsent(rec);
    forall j | 0 <= j < |rec|
      ensures FieldCell(rec[j]).Ok?
    {
      FieldCellFails(rec[j]);
    }
    CellsSpec(rec, FieldCell);
    RowCellsSpec(rec);
  }

  /** In a record whose `baseScore`, if any, converts, every field gets a
      cell. */
  lemma CellsBuildWhenScoreConverts(rec: Record)
    requires IsDict(rec)
    requires Get(rec, ScoreKey).Some? ==> ToFloat(Get(rec, ScoreKey).value).Ok?
    ensures forall f :: f in rec ==> FieldCell(f).Ok?
  {
    forall f | f in rec
      ensures FieldCell(f).Ok?
    {
      FieldCellFails(f);
      if f.key == ScoreKey {
        var j :| 0 <= j < |rec| && rec[j] == f;
        GetField(rec, j);
      }
    }
  }

  /** A dict's keys, taken as a set, have as many members as the dict has
      fields. */
  lemma {:induction false} DistinctCard(s: seq<string>)
    requires Distinct(s)
    ensures |set x | x in s| == |s|
  {
    if s != [] {
      var n := |s| - 1;
      DistinctCard(s[..n]);
      assert (set x | x in s) == (set x | x in s[..n]) + {s[n]};
      assert s[n] !in (set x | x in s[..n]);
    }
  }

  /** Leaving out the excluded keys keeps a dict free of duplicate keys. */
  lemma {:induction false} ShownFieldsDict(r: Record)
    requires IsDict(r)
    ensures IsDict(ShownFields(r))
  {
    if r != [] {
      var n := |r| - 1;
      assert Keys(r[..n]) == Keys(r)[..n];
      ShownFieldsDict(r[..n]);
      if Shown(r[n].key) {
        ShownFieldsKeys(r[..n]);
        assert r[n].key !in Keys(r[..n]) by {
          assert forall j :: 0 <= j < n ==> Keys(r)[j] != Keys(r)[n];
        }
        KeysSnoc(ShownFields(r[..n]), r[n]);
      }
    }
  }

  /** The header is taken from the first record alone: a later record that
      has every shown key of the first and one shown key more renders more
      cells than the header has. */
  lemma MisalignedRows(data: seq<Record>, i: nat)
    requires i < |data| && IsDict(data[0]) && IsDict(data[i]) && RowCells(data[i]).Ok?
    requires forall k :: k in Keys(data[0]) && Shown(k) ==> k in Keys(data[i])
    requires exists k :: k in Keys(data[i]) && Shown(k) && k !in Keys(data[0])
    ensures |RowCells(data[i]).value| > 1 + |HeaderKeys(data)|
  {
    var first := Keys(ShownFields(data[0]));
    var later := Keys(ShownFields(data[i]));
    ShownFieldsKeys(data[0]);
    ShownFieldsKeys(data[i]);
    ShownFieldsDict(data[0]);
    ShownFieldsDict(data[i]);
    FewerKeys(first, later);
    RowWidths(data, i);
  }

  /** A set of distinct keys that another distinct set strictly contains is
      shorter. */
  lemma FewerKeys(a: seq<string>, b: seq<string>)
    requires Distinct(a) && Distinct(b)
    requires forall x :: x in a ==> x in b
    requires exists x :: x in b && x !in a
    ensures |a| < |b|
  {
    var sa := set x | x in a;
    var sb := set x | x in b;
    DistinctCard(a);
    DistinctCard(b);
    var k :| k in b && k !in a;
    assert sa <= sb;
    assert k in sb - sa;
    assert sb == sa + (sb - sa);
  }

  /** For example, `[id]` then `[id, vector]`: the second row has three
      cells under a header of two. */
  lemma MisalignedRow()
    ensures var data := [[Field("id", Str("a"))], [Field("id", Str("b")), Field("vector", Str("v"))]];
      && |HeaderKeys(data)| == 1
      && RowCells(data[1]).Ok?
      && |RowCells(data[1]).value| == 3
  {
    var data := [[Field("id", Str("a"))], [Field("id", Str("b")), Field("vector", Str("v"))]];
    PlainRecordRow(data[0]);
    PlainRecordRow(data[1]);
  }

  /** A body fails exactly when one of its rows fails. */
  lemma {:induction false} RowsOk(data: seq<Record>, render: Record -> Result<string>)
    ensures Rows(data, render).Ok? <==> forall i :: 0 <= i < |data| ==> render(data[i]).Ok?
  {
    if data != [] {
      var n := |data| - 1;
      var front := data[..n];
      RowsOk(front, render);
      assert forall i :: 0 <= i < n ==> front[i] == data[i];
      if Rows(front, render).Err? {
        var i :| 0 <= i < n && render(front[i]).Err?;
        assert render(data[i]).Err?;
      }
    }
  }

  /** The page fails exactly when building the cells of one of its rows fails. */
  lemma BodyMarkupOk(data: seq<Record>)
    ensures BodyMarkup(data).Ok? <==> forall i :: 0 <= i < |data| ==> RowCells(data[i]).Ok?
  {
    RowsOk(data, RowMarkup);
  }

  /** The body of `a + b` is the body of `a` followed by the body of `b`:
      rows appear in the order of the records. */
  lemma {:induction false} RowsConcat(a: seq<Record>, b: seq<Record>, render: Record -> Result<string>)
    ensures Rows(a + b, render).Ok? <==> Rows(a, render).Ok? && Rows(b, render).Ok?
    ensures Rows(a + b, render).Ok? ==> Rows(a + b, render).value == Rows(a, render).value + Rows(b, render).value
  {
    if b == [] {
      assert a + b == a;
    } else {
      var n := |b| - 1;
      RowsConcat(a, b[..n], render);
      assert (a + b)[..|a + b| - 1] == a + b[..n];
      assert (a + b)[|a + b| - 1] == b[n];
      if Rows(a + b[..n], render).Ok? && render(b[n]).Ok? {
        var x := Rows(a, render).value;
        var y := Rows(b[..n], render).value;
        assert x + y + render(b[n]).value == x + (y + render(b[n]).value);
      }
    }
  }

  /** An empty list builds no page at all, and only an empty list does. */
  lemma RenderedNothing(data: seq<Record>)
    ensures Rendered(data) == Ok(None) <==> data == []
  {
  }

  /** A `baseScore` that `float()` rejects makes the whole page fail. */
  lemma BadScoreFails(data: seq<Record>, i: nat, j: nat)
    requires i < |data| && j < |ShownFields(data[i])|
    requires ShownFields(data[i])[j].key == ScoreKey && ToFloat(ShownFields(data[i])[j].val).Err?
    ensures Rendered(data).Err?
  {
    CellsSpec(data[i], FieldCell);
    BodyMarkupOk(data);
  }

  // ---------------------------------------------------------------- the loops

  lemma {:induction false} FieldCellsErrSticks(r: Record, n: nat)
    requires n <= |r| && FieldCells(r[..n]).Err?
    ensures FieldCells(r) == FieldCells(r[..n])
  {
    if n < |r| {
      var m := |r| - 1;
      assert r[..m][..n] == r[..n];
      FieldCellsErrSticks(r[..m], n);
    } else {
      assert r[..n] == r;
    }
  }

  lemma {:induction false} BodyErrSticks(data: seq<Record>, n: nat)
    requires n <= |data| && BodyMarkup(data[..n]).Err?
    ensures BodyMarkup(data) == BodyMarkup(data[..n])
  {
    if n < |data| {
      var m := |data| - 1;
      assert data[..m][..n] == data[..n];
      BodyErrSticks(data[..m], n);
    } else {
      assert data[..n] == data;
    }
  }

  lemma KeysSnoc(r: Record, f: Field)
    ensures Keys(r + [f]) == Keys(r) + [f.key]
  {
  }

  lemma HeaderSnoc(keys: seq<string>, k: string)
    ensures HeaderMarkup(keys + [k]) == HeaderMarkup(keys) + "<th>" + Escape(k) + "</th>"
  {
    assert (keys + [k])[..|keys|] == keys;
  }

  lemma MarkupSnoc(cells: seq<Cell>, c: Cell)
    ensures Markup(cells + [c]) == Markup(cells) + CellMarkup(c)
  {
    assert (cells + [c])[..|cells|] == cells;
  }

  lemma {:induction false} ConcatCons(c: Cell, cells: seq<Cell>, render: Cell -> string)
    ensures Concat([c] + cells, render) == render(c) + Concat(cells, render)
  {
    if cells != [] {
      var n := |cells| - 1;
      var s := [c] + cells;
      var front := cells[..n];
      ConcatCons(c, front, render);
      assert s[..n + 1] == [c] + front;
      assert s[n + 1] == cells[n];
      var x, y, z := render(c), Concat(front, render), render(cells[n]);
      assert x + y + z == x + (y + z);
    }
  }

  lemma MarkupCons(c: Cell, cells: seq<Cell>)
    ensures Markup([c] + cells) == CellMarkup(c) + Markup(cells)
  {
    ConcatCons(c, cells, CellMarkup);
  }

  /** The header loop of lines 109-111. */
  method HeaderCells(first: Record) returns (head: string)
    ensures head == HeaderMarkup(Keys(ShownFields(first)))
  {
    head := "";
    for j := 0 to |first|
      invariant head == HeaderMarkup(Keys(ShownFields(first[..j])))
    {
      var f := first[j];
      assert first[..j + 1] == first[..j] + [f];
      if Shown(f.key) {
        KeysSnoc(ShownFields(first[..j]), f);
        HeaderSnoc(Keys(ShownFields(first[..j])), f.key);
        head := head + "<th>" + Escape(f.key) + "</th>";
      }
    }
    assert first[..|first|] == first;
  }

  /** The markup the loop of lines 128-142 appends for one field. */
  lemma FieldMarkup(f: Field, text: string)
    requires Shown(f.key) && FieldCell(f).Ok? && text == Escape(ToStr(f.val))
    ensures f.key == ScoreKey ==>
      CellMarkup(FieldCell(f).value) == "<td class=\"" + ClassName(Band(ToFloat(f.val).value)) + "\">" + text + "</td>"
    ensures f.key != ScoreKey ==> CellMarkup(FieldCell(f).value) == "<td>" + text + "</td>"
  {
  }

  /** One step of `FieldCells`, unfolded for the field at `j`. */
  lemma FieldCellsStep(row: Record, j: nat)
    requires j < |row| && FieldCells(row[..j]).Ok?
    ensures !Shown(row[j].key) ==> FieldCells(row[..j + 1]) == FieldCells(row[..j])
    ensures Shown(row[j].key) && FieldCell(row[j]).Err? ==> FieldCells(row[..j + 1]) == Err(FieldCell(row[j]).error)
    ensures Shown(row[j].key) && FieldCell(row[j]).Ok? ==>
      FieldCells(row[..j + 1]) == Ok(FieldCells(row[..j]).value + [FieldCell(row[j]).value])
  {
    assert row[..j + 1][..j] == row[..j];
  }

  lemma AppendCell(body0: string, cells: seq<Cell>, c: Cell, cell: string)
    requires cell == CellMarkup(c)
    ensures body0 + Markup(cells) + cell == body0 + Markup(cells + [c])
  {
    MarkupSnoc(cells, c);
  }

  /** The cell loop of lines 128-142 for one record, appending to `body`. */
  method AppendFieldCells(body0: string, row: Record) returns (r: Result<string>)
    ensures FieldCells(row).Err? ==> r == Err(FieldCells(row).error)
    ensures FieldCells(row).Ok? ==> r == Ok(body0 + Markup(FieldCells(row).value))
  {
    var body := body0;
    for j := 0 to |row|
      invariant FieldCells(row[..j]).Ok?
      invariant body == body0 + Markup(FieldCells(row[..j]).value)
    {
      var f := row[j];
      FieldCellsStep(row, j);
      if Shown(f.key) {
        var text := Escape(ToStr(f.val));
        var cell: string;
        if f.key == ScoreKey {
          var score := ToFloat(f.val);
          if score.Err? {
            FieldCellsErrSticks(row, j + 1);
            return Err(score.error);
          }
          cell := "<td class=\"" + ClassName(Band(score.value)) + "\">" + text + "</td>";
        } else {
          cell := "<td>" + text + "</td>";
        }
        FieldMarkup(f, text);
        AppendCell(body0, FieldCells(row[..j]).value, FieldCell(f).value, cell);
        body := body + cell;
      }
    }
    assert row[..|row|] == row;
    r := Ok(body);
  }

  /** One step of `BodyMarkup`, unfolded for the record at `i`. */
  lemma BodyStep(data: seq<Record>, i: nat)
    requires i < |data| && BodyMarkup(data[..i]).Ok?
    ensures RowMarkup(data[i]).Err? ==> BodyMarkup(data[..i + 1]) == Err(RowMarkup(data[i]).error)
    ensures RowMarkup(data[i]).Ok? ==> BodyMarkup(data[..i + 1]) == Ok(BodyMarkup(data[..i]).value + RowMarkup(data[i]).value)
  {
    assert data[..i + 1][..i] == data[..i];
  }

  lemma RowAppend(body: string, row: Record, withRow: string)
    requires ProductCell(row).Ok? && FieldCells(row).Ok?
    requires withRow == body + "<tr>" + CellMarkup(Cell(None, Escape(ProductCell(row).value))) + Markup(FieldCells(row).value)
    ensures RowMarkup(row).Ok? && withRow + "</tr>" == body + RowMarkup(row).value
  {
    var product := Cell(None, Escape(ProductCell(row).value));
    var cells := FieldCells(row).value;
    assert RowCells(row) == Ok([product] + cells);
    MarkupCons(product, cells);
    Regroup(body, CellMarkup(product), Markup(cells));
  }

  lemma Regroup(body: string, first: string, rest: string)
    ensures body + "<tr>" + first + rest + "</tr>" == body + ("<tr>" + (first + rest) + "</tr>")
  {
  }

  /** One pass of the row loop of lines 120-143, appending to `body`. */
  method AppendRow(body: string, row: Record) returns (r: Result<string>)
    ensures RowMarkup(row).Err? ==> r == Err(RowMarkup(row).error)
    ensures RowMarkup(row).Ok? ==> r == Ok(body + RowMarkup(row).value)
  {
    var names := ProductCell(row);
    if names.Err? {
      return Err(names.error);
    }
    var product := Cell(None, Escape(names.value));
    var withRow := AppendFieldCells(body + "<tr>" + CellMarkup(product), row);
    if withRow.Err? {
      return Err(withRow.error);
    }
    RowAppend(body, row, withRow.value);
    r := Ok(withRow.value + "</tr>");
  }

  /** `save_to_html` (lines 75-154). */
  method SaveHtml(data: seq<Record>) returns (r: Result<Option<HtmlTable>>)
    ensures r == Rendered(data)
  {
    if data == [] {
      return Ok(None);
    }
    var head := HeaderCells(data[0]);
    var body := "";
    for i := 0 to |data|
      invariant BodyMarkup(data[..i]) == Ok(body)
    {
      BodyStep(data, i);
      var next := AppendRow(body, data[i]);
      if next.Err? {
        BodyErrSticks(data, i + 1);
        return Err(next.error);
      }
      body := next.value;
    }
    assert data[..|data|] == data;
    r := Ok(Some(HtmlTable(head, body)));
  }
}
