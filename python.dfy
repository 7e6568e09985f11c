/** The slice of Python's value model that the gateway's core touches: the
    values it passes around, exceptions, `str`/`repr`, truth tests, dictionary
    lookup and `str.split` with a one-character separator. */
module Python {
  import opened Wrappers

  newtype byte = x: int | 0 <= x < 256

  /** A Python value as the core sees it. `PObject` stands for any other object
      (a relocatable VM address, a float, ...), known only by its type name. */
  datatype PyValue =
    | PNone
    | PInt(i: int)
    | PStr(s: string)
    | PList(items: seq<PyValue>)
    | PObject(typeName: string)

  /** The values a decoded wire container can hold: an int or a str. */
  datatype Scalar = Int(i: int) | Str(s: string) {
    function ToPy(): (v: PyValue)
      ensures v.PInt? || v.PStr?
    {
      match this
      case Int(i) => PInt(i)
      case Str(s) => PStr(s)
    }
  }

  /** A raised exception: its class name and `str(exc)`. */
  datatype Exception = Exception(kind: string, message: string)

  /** `type(v).__name__` */
  function TypeName(v: PyValue): string {
    match v
    case PNone => "NoneType"
    case PInt(_) => "int"
    case PStr(_) => "str"
    case PList(_) => "list"
    case PObject(t) => t
  }

  /** The AttributeError raised by `v.name` when `v` has no such attribute. */
  function NoAttribute(v: PyValue, name: string): Exception {
    Exception("AttributeError", "'" + TypeName(v) + "' object has no attribute '" + name + "'")
  }

  /** `bool(v)` */
  predicate Truthy(v: PyValue) {
    match v
    case PNone => false
    case PInt(i) => i != 0
    case PStr(s) => s != ""
    case PList(items) => items != []
    case PObject(_) => true
  }

  function DigitChar(d: nat): char
    requires d < 10
  {
    "0123456789"[d]
  }

  /** `str(n)` for a non-negative int: its decimal digits. */
  function NatToString(n: nat): (s: string)
    ensures |s| >= 1
    ensures forall k :: 0 <= k < |s| ==> '0' <= s[k] <= '9'
  {
    if n < 10 then [DigitChar(n)] else NatToString(n / 10) + [DigitChar(n % 10)]
  }

  /** `str(i)` */
  function IntToString(i: int): string {
    if i < 0 then "-" + NatToString(-i) else NatToString(i)
  }

  /** `repr(v)`, with strings always in single quotes and without escaping. */
  function Repr(v: PyValue): string
    decreases v, 1
  {
    match v
    case PNone => "None"
    case PInt(i) => IntToString(i)
    case PStr(s) => "'" + s + "'"
    case PList(items) => "[" + ReprItems(v, items) + "]"
    case PObject(t) => "<" + t + " object>"
  }

  function ReprItems(ghost parent: PyValue, items: seq<PyValue>): string
    requires forall k :: 0 <= k < |items| ==> items[k] < parent
    decreases parent, 0, |items|
  {
    if items == [] then ""
    else if |items| == 1 then Repr(items[0])
    else Repr(items[0]) + ", " + ReprItems(parent, items[1..])
  }

  /** `str(v)`: a str is itself, everything else its repr. */
  function ToStr(v: PyValue): string {
    if v.PStr? then v.s else Repr(v)
  }

  /** The repr of a list of strs, as in an f-string over a `List[str]`. */
  function ReprStrings(xs: seq<string>): string {
    if xs == [] then "" else if |xs| == 1 then "'" + xs[0] + "'"
    else "'" + xs[0] + "', " + ReprStrings(xs[1..])
  }

  predicate StartsWith(s: string, prefix: string) {
    |prefix| <= |s| && s[..|prefix|] == prefix
  }

  /** A Python dict in insertion order, keys assumed distinct. */
  type PyDict = seq<(string, PyValue)>

  /** `d[key]`: the first binding of `key`, or KeyError (whose str is the key's repr). */
  function DictGet(d: PyDict, key: string): (r: Result<PyValue, Exception>)
    ensures r.Ok? <==> exists k :: 0 <= k < |d| && d[k].0 == key
    ensures r.Err? ==> r.error == Exception("KeyError", "'" + key + "'")
    ensures r.Ok? ==> exists k :: 0 <= k < |d| && d[k].0 == key && r.value == d[k].1
                                 && forall j :: 0 <= j < k ==> d[j].0 != key
  {
    if d == [] then Err(Exception("KeyError", "'" + key + "'"))
    else if d[0].0 == key then Ok(d[0].1)
    else DictGet(d[1..], key)
  }

  /** `repr(d)` of a dict with str keys. */
  function DictRepr(d: PyDict): string {
    "{" + DictItems(d) + "}"
  }

  function DictItems(d: PyDict): string {
    if d == [] then ""
    else if |d| == 1 then "'" + d[0].0 + "': " + Repr(d[0].1)
    else "'" + d[0].0 + "': " + Repr(d[0].1) + ", " + DictItems(d[1..])
  }

  // ---------------------------------------------------------------------------
  // str.split with a one-character separator

  /** `s.split(sep)`: the maximal separator-free pieces, always at least one. */
  function Split(s: string, sep: char): (parts: seq<string>)
    ensures |parts| >= 1
  {
    if s == [] then [""]
    else
      var rest := Split(s[1..], sep);
      if s[0] == sep then [""] + rest else [[s[0]] + rest[0]] + rest[1..]
  }

  /** `sep.join(parts)` */
  function Join(sep: char, parts: seq<string>): string {
    if parts == [] then ""
    else if |parts| == 1 then parts[0]
    else parts[0] + [sep] + Join(sep, parts[1..])
  }

  /** No piece of a split contains the separator. */
  lemma {:induction false} SplitPiecesHaveNoSeparator(s: string, sep: char)
    ensures forall k :: 0 <= k < |Split(s, sep)| ==> sep !in Split(s, sep)[k]
  {
    if s != [] {
      SplitPiecesHaveNoSeparator(s[1..], sep);
    }
  }

  /** Joining the pieces of a split gives the string back. */
  lemma {:induction false} JoinSplit(s: string, sep: char)
    ensures Join(sep, Split(s, sep)) == s
  {
    if s != [] {
      var rest := Split(s[1..], sep);
      JoinSplit(s[1..], sep);
      if s[0] == sep {
        assert Split(s, sep) == [""] + rest;
        assert s == [sep] + s[1..];
      } else {
        var parts := [[s[0]] + rest[0]] + rest[1..];
        if |rest| > 1 {
          assert parts[1..] == rest[1..];
        }
        assert s == [s[0]] + s[1..];
      }
    }
  }

  /** Splitting a separator-free piece, a separator and a tail. */
  lemma {:induction false} SplitAtSeparator(a: string, sep: char, b: string)
    requires sep !in a
    ensures Split(a + [sep] + b, sep) == [a] + Split(b, sep)
  {
    if a == [] {
      assert [] + [sep] + b == [sep] + b;
      assert ([sep] + b)[1..] == b;
    } else {
      SplitAtSeparator(a[1..], sep, b);
      assert (a + [sep] + b)[1..] == a[1..] + [sep] + b;
      assert [a[0]] + a[1..] == a;
    }
  }

  /** A separator-free string splits into itself. */
  lemma {:induction false} SplitWithoutSeparator(a: string, sep: char)
    requires sep !in a
    ensures Split(a, sep) == [a]
  {
    if a != [] {
      SplitWithoutSeparator(a[1..], sep);
      assert [a[0]] + a[1..] == a;
    }
  }

  /** Splitting a join of separator-free pieces gives the pieces back. */
  lemma {:induction false} SplitJoin(parts: seq<string>, sep: char)
    requires |parts| >= 1
    requires forall k :: 0 <= k < |parts| ==> sep !in parts[k]
    ensures Split(Join(sep, parts), sep) == parts
  {
    if |parts| == 1 {
      SplitWithoutSeparator(parts[0], sep);
    } else {
      SplitJoin(parts[1..], sep);
      SplitAtSeparator(parts[0], sep, Join(sep, parts[1..]));
    }
  }
}
