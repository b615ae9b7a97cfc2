/** Decoded JSON values as the script holds them after `json.loads`, and the
    pieces of Python's built-in behaviour that the reporting code relies on:
    dict lookup and item assignment, truthiness, iteration, the `in` operator
    and `str()`. A Python dict keeps its keys in insertion order, so a record
    is an ordered sequence of fields rather than a map. */
module Values {

  datatype Option<T> = None | Some(value: T)

  /** An operation that either produces a value or raises one of the
      exceptions below; in the script every such exception ends the run. */
  datatype Result<T> = Ok(value: T) | Err(error: Error)

  datatype Error =
    | NotIterable(v: Value)        // `for x in v` or `x in v` on None, a number or a bool
    | NoItemAssignment(v: Value)   // `v[k] = ...` on something that is not a dict
    | NotSubscriptable(v: Value)   // `v[k]` with a str key on something that is not a dict
    | KeyMissing(key: string)      // `d[k]` on a dict without `k`
    | NotAString(v: Value)         // `', '.join(...)` given an item that is not a str
    | NotANumber(v: Value)         // `float(v)` rejects `v`

  /** A JSON value after decoding. A JSON number with a fraction or an
      exponent becomes a Python float; `text` is what `str()` prints for it. */
  datatype Value =
    | Null
    | Bool(b: bool)
    | Int(i: int)
    | Float(x: real, text: string)
    | Str(s: string)
    | List(elems: seq<Value>)
    | Dict(fields: seq<Field>)

  datatype Field = Field(key: string, val: Value)

  /** The fields of a dict, in insertion order. */
  type Record = seq<Field>

  function Keys(r: Record): seq<string>
  {
    seq(|r|, i requires 0 <= i < |r| => r[i].key)
  }

  predicate Distinct<T(==)>(s: seq<T>)
  {
    forall i, j :: 0 <= i < j < |s| ==> s[i] != s[j]
  }

  /** A Python dict never holds a key twice. */
  predicate IsDict(r: Record)
  {
    Distinct(Keys(r))
  }

  /** `d.get(k)`: the value of the first field named `k`. */
  function Get(r: Record, k: string): (v: Option<Value>)
    ensures v.Some? <==> k in Keys(r)
  {
    if r == [] then None
    else if r[0].key == k then
      assert Keys(r)[0] == k;
      Some(r[0].val)
    else
      assert Keys(r) == [r[0].key] + Keys(r[1..]);
      Get(r[1..], k)
  }

  /** In a dict, looking up the key of a field gives that field's value. */
  lemma {:induction false} GetField(r: Record, i: nat)
    requires IsDict(r) && i < |r|
    ensures Get(r, r[i].key) == Some(r[i].val)
  {
    if i > 0 {
      assert Keys(r)[0] != Keys(r)[i];
      assert Keys(r[1..]) == Keys(r)[1..];
      GetField(r[1..], i - 1);
    }
  }

  /** `d[k] = v`. */
  function Put(r: Record, k: string, v: Value): Record
  {
    if r == [] then [Field(k, v)]
    else if r[0].key == k then [Field(k, v)] + r[1..]
    else [r[0]] + Put(r[1..], k, v)
  }

  /** After `d[k] = v`, `k` holds `v` and every other key keeps its value. */
  lemma {:induction false} PutGet(r: Record, k: string, v: Value)
    ensures Get(Put(r, k, v), k) == Some(v)
    ensures forall k' :: k' != k ==> Get(Put(r, k, v), k') == Get(r, k')
  {
    if r != [] && r[0].key != k {
      PutGet(r[1..], k, v);
    }
  }

  /** An existing key keeps its position, a new key goes to the end. */
  lemma {:induction false} PutKeys(r: Record, k: string, v: Value)
    ensures Keys(Put(r, k, v)) == if k in Keys(r) then Keys(r) else Keys(r) + [k]
  {
    if r == [] {
    } else if r[0].key == k {
      assert r == [r[0]] + r[1..];
      KeysCons(Field(k, v), r[1..]);
      KeysCons(r[0], r[1..]);
    } else {
      var rest := Put(r[1..], k, v);
      PutKeys(r[1..], k, v);
      KeysCons(r[0], r[1..]);
      assert r == [r[0]] + r[1..];
      KeysCons(r[0], rest);
    }
  }

  lemma KeysCons(f: Field, r: Record)
    ensures Keys([f] + r) == [f.key] + Keys(r)
  {
  }

  /** Assigning a key keeps a dict a dict. */
  lemma PutIsDict(r: Record, k: string, v: Value)
    requires IsDict(r)
    ensures IsDict(Put(r, k, v))
  {
    PutKeys(r, k, v);
  }

  /** Python's truth value of a decoded JSON value (`if results:`). */
  predicate Truthy(v: Value)
  {
    match v
    case Null => false
    case Bool(b) => b
    case Int(i) => i != 0
    case Float(x, _) => x != 0.0
    case Str(s) => s != ""
    case List(es) => es != []
    case Dict(fs) => fs != []
  }

  /** `for x in v`: a list yields its elements, a dict its keys and a string
      its characters, each as a one-character string. */
  function Iterate(v: Value): Result<seq<Value>>
  {
    match v
    case List(es) => Ok(es)
    case Dict(fs) => Ok(seq(|fs|, i requires 0 <= i < |fs| => Str(fs[i].key)))
    case Str(s) => Ok(seq(|s|, i requires 0 <= i < |s| => Str([s[i]])))
    case _ => Err(NotIterable(v))
  }

  predicate OccursAt(needle: string, s: string, i: int)
  {
    0 <= i <= |s| - |needle| && s[i..i + |needle|] == needle
  }

  predicate IsSubstring(needle: string, s: string)
  {
    exists i :: 0 <= i <= |s| && OccursAt(needle, s, i)
  }

  /** `needle in container` for a str needle: a key test on a dict, an
      element test on a list, a substring test on a str. */
  function Contains(container: Value, needle: string): Result<bool>
  {
    match container
    case Dict(fs) => Ok(needle in Keys(fs))
    case List(es) => Ok(Str(needle) in es)
    case Str(s) => Ok(IsSubstring(needle, s))
    case _ => Err(NotIterable(container))
  }

  /** `container[key]` for a str key. */
  function Subscript(container: Value, key: string): Result<Value>
  {
    match container
    case Dict(fs) =>
      (match Get(fs, key)
       case Some(v) => Ok(v)
       case None => Err(KeyMissing(key)))
    case _ => Err(NotSubscriptable(container))
  }

  function Digit(d: nat): char
    requires d < 10
  {
    "0123456789"[d]
  }

  /** Decimal digits of `n`, most significant first. */
  function NatText(n: nat): string
  {
    if n < 10 then [Digit(n)] else NatText(n / 10) + [Digit(n % 10)]
  }

  /** `str(i)` for a Python int. */
  function IntText(i: int): string
  {
    if i < 0 then "-" + NatText(-i) else NatText(i)
  }

  function HexDigit(d: nat): char
    requires d < 16
  {
    "0123456789abcdef"[d]
  }

  /** The characters below 0x100 that `repr` writes as a `\xNN` escape. */
  predicate HexEscaped(c: char)
  {
    (c as int < 0x20 && c != '\t' && c != '\n' && c != '\r') || (0x7f <= c as int <= 0xa0) || c as int == 0xad
  }

  /** One character inside the quotes of `repr(s)`, where `q` is the quote used. */
  function ReprChar(c: char, q: char): string
  {
    if c == q || c == '\\' then ['\\', c]
    else if c == '\n' then "\\n"
    else if c == '\r' then "\\r"
    else if c == '\t' then "\\t"
    else if HexEscaped(c) then "\\x" + [HexDigit(c as int / 16), HexDigit(c as int % 16)]
    else [c]
  }

  function ReprChars(s: string, q: char): string
  {
    if s == [] then "" else ReprChar(s[0], q) + ReprChars(s[1..], q)
  }

  /** `repr(s)` for a str: single quotes unless `s` holds a single quote and
      no double quote. */
  function QuoteText(s: string): string
  {
    var q := if '\'' in s && '"' !in s then '"' else '\'';
    [q] + ReprChars(s, q) + [q]
  }

  /** `repr(v)`, which is also `str(v)` for everything but a str. */
  function Repr(v: Value): string
    decreases v, 1
  {
    match v
    case Null => "None"
    case Bool(b) => if b then "True" else "False"
    case Int(i) => IntText(i)
    case Float(_, text) => text
    case Str(s) => QuoteText(s)
    case List(es) => "[" + ReprItems(es) + "]"
    case Dict(fs) => "{" + ReprFields(fs) + "}"
  }

  function ReprItems(es: seq<Value>): string
    decreases es, 0
  {
    if es == [] then ""
    else if |es| == 1 then Repr(es[0])
    else Repr(es[0]) + ", " + ReprItems(es[1..])
  }

  function ReprFields(fs: seq<Field>): string
    decreases fs, 0
  {
    if fs == [] then ""
    else
      var head := QuoteText(fs[0].key) + ": " + Repr(fs[0].val);
      if |fs| == 1 then head else head + ", " + ReprFields(fs[1..])
  }

  /** `str(v)`. */
  function ToStr(v: Value): string
  {
    if v.Str? then v.s else Repr(v)
  }

  /** A key that `in` finds on a dict can be subscripted, giving its value;
      a key it does not find cannot. */
  lemma ContainsSubscript(container: Value, key: string)
    requires container.Dict?
    ensures Contains(container, key) == Ok(true) <==> Subscript(container, key).Ok?
    ensures Contains(container, key) == Ok(true) ==> Subscript(container, key) == Ok(Get(container.fields, key).value)
  {
  }

  /** On a list or a dict, `k in v` holds exactly when iterating `v` yields
      `k` (on a str, `in` is a substring test instead). */
  lemma ContainsIterate(v: Value, k: string)
    requires v.List? || v.Dict?
    ensures Contains(v, k) == Ok(true) <==> Str(k) in Iterate(v).value
  {
    if v.Dict? {
      var fs := v.fields;
      var it := Iterate(v).value;
      if k in Keys(fs) {
        var i :| 0 <= i < |fs| && Keys(fs)[i] == k;
        assert it[i] == Str(k);
      }
      if Str(k) in it {
        var i :| 0 <= i < |it| && it[i] == Str(k);
        assert Keys(fs)[i] == k;
      }
    }
  }

  /** An iterable value is truthy exactly when iterating it yields something. */
  lemma TruthyIterate(v: Value)
    requires v.List? || v.Dict? || v.Str?
    ensures Truthy(v) <==> |Iterate(v).value| > 0
  {
  }

  /** Characters that `repr` writes as they are inside either quote. */
  predicate Plain(c: char)
  {
    c != '\'' && c != '"' && c != '\\' && c != '\n' && c != '\r' && c != '\t' && !HexEscaped(c)
  }

  lemma {:induction false} ReprCharsPlain(s: string, q: char)
    requires forall i :: 0 <= i < |s| ==> Plain(s[i])
    requires q == '\'' || q == '"'
    ensures ReprChars(s, q) == s
  {
    if s != [] {
      ReprCharsPlain(s[1..], q);
      assert s == [s[0]] + s[1..];
    }
  }

  /** `repr` of plain text is that text in single quotes, so `str()` of a
      list of plain strings shows each one as `'...'`. */
  lemma ReprPlain(s: string)
    requires forall i :: 0 <= i < |s| ==> Plain(s[i])
    ensures Repr(Str(s)) == "'" + s + "'"
  {
    ReprCharsPlain(s, '\'');
  }
}
