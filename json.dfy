/** JSON-like values as the Python code receives them (from `resp.json()` or from the YAML
    configuration), and the few Python operations the core applies to them: `dict.get`,
    item assignment, truthiness, iteration, `int()` and `str()`. */
module Json {
  import opened Wrappers
  import opened Text
  import opened Seqs

  /** A Python float, reduced to what the core observes of it: the value `int()` truncates it
      to, whether it is zero (its truthiness) and its `str()` rendering. */
  datatype Float =
    | Finite(trunc: int, isZero: bool, repr: string)
    | Infinite(negative: bool)
    | NaN

  datatype Number = Int(i: int) | Float(f: Float)

  /** A JSON object is an ordered list of members: Python dicts iterate in insertion order,
      and that order decides the order of literals in a response. Keys are distinct in any
      value Python builds; lookups take the first binding. */
  datatype Json =
    | JNull
    | JBool(b: bool)
    | JNum(n: Number)
    | JStr(s: string)
    | JArr(items: seq<Json>)
    | JObj(fields: seq<(string, Json)>)

  type Fields = seq<(string, Json)>

  /** The exceptions the Python code can raise on a value of the wrong shape. */
  datatype PyError = AttributeError | TypeError | ValueError | OverflowError | KeyError

  function Keys(fields: Fields): (ks: seq<string>)
    ensures |ks| == |fields|
    ensures forall i :: 0 <= i < |fields| ==> ks[i] == fields[i].0
  {
    if fields == [] then [] else [fields[0].0] + Keys(fields[1..])
  }

  predicate DistinctKeys(fields: Fields) {
    NoDup(Keys(fields))
  }

  predicate HasKey(fields: Fields, key: string) {
    key in Keys(fields)
  }

  /** `d.get(key)`: the value of the first member named `key`. */
  function Get(fields: Fields, key: string): (r: Option<Json>)
    ensures r.Some? <==> HasKey(fields, key)
  {
    if fields == [] then None
    else if fields[0].0 == key then Some(fields[0].1)
    else
      assert Keys(fields) == [fields[0].0] + Keys(fields[1..]);
      Get(fields[1..], key)
  }

  /** A value `get` finds is one of the dict's members. */
  lemma {:induction false} GetIsMember(fields: Fields, key: string)
    requires HasKey(fields, key)
    ensures (key, Get(fields, key).value) in fields
  {
    if fields[0].0 != key {
      assert Keys(fields) == [fields[0].0] + Keys(fields[1..]);
      GetIsMember(fields[1..], key);
      assert forall x :: x in fields[1..] ==> x in fields;
    }
  }

  /** `d.get(key, default)` on a dict. */
  function GetOr(fields: Fields, key: string, default: Json): Json {
    Get(fields, key).GetOr(default)
  }

  /** `d[key] = v`: replaces the member in place, or appends a new one. */
  function Set(fields: Fields, key: string, v: Json): (r: Fields)
    ensures Get(r, key) == Some(v)
    ensures forall k :: k != key ==> Get(r, k) == Get(fields, k)
    ensures Keys(r) == if HasKey(fields, key) then Keys(fields) else Keys(fields) + [key]
  {
    if fields == [] then [(key, v)]
    else
      var m, rest := fields[0], fields[1..];
      assert fields == [m] + rest;
      if m.0 == key then
        SetHere(m, rest, v);
        [(key, v)] + rest
      else
        var rest' := Set(rest, key, v);
        SetFurther(m, rest, key, v, rest');
        [m] + rest'
  }

  lemma SetHere(m: (string, Json), rest: Fields, v: Json)
    ensures var r, fields := [(m.0, v)] + rest, [m] + rest;
      && Get(r, m.0) == Some(v)
      && (forall k :: k != m.0 ==> Get(r, k) == Get(fields, k))
      && Keys(r) == Keys(fields) && HasKey(fields, m.0)
  {
    ConsKeys(m, rest);
    ConsKeys((m.0, v), rest);
    ConsGet((m.0, v), rest, m.0);
    forall k | k != m.0
      ensures Get([(m.0, v)] + rest, k) == Get([m] + rest, k)
    {
      ConsGet(m, rest, k);
      ConsGet((m.0, v), rest, k);
    }
  }

  lemma SetFurther(m: (string, Json), rest: Fields, key: string, v: Json, rest': Fields)
    requires m.0 != key
    requires Get(rest', key) == Some(v)
    requires forall k :: k != key ==> Get(rest', k) == Get(rest, k)
    requires Keys(rest') == if HasKey(rest, key) then Keys(rest) else Keys(rest) + [key]
    ensures var r, fields := [m] + rest', [m] + rest;
      && Get(r, key) == Some(v)
      && (forall k :: k != key ==> Get(r, k) == Get(fields, k))
      && Keys(r) == if HasKey(fields, key) then Keys(fields) else Keys(fields) + [key]
  {
    ConsGet(m, rest', key);
    forall k | k != key
      ensures Get([m] + rest', k) == Get([m] + rest, k)
    {
      ConsGet(m, rest', k);
      ConsGet(m, rest, k);
    }
    SetFurtherKeys(m, rest, key, rest');
  }

  lemma SetFurtherKeys(m: (string, Json), rest: Fields, key: string, rest': Fields)
    requires m.0 != key
    requires Keys(rest') == if HasKey(rest, key) then Keys(rest) else Keys(rest) + [key]
    ensures Keys([m] + rest') == if HasKey([m] + rest, key) then Keys([m] + rest) else Keys([m] + rest) + [key]
  {
    ConsKeys(m, rest);
    ConsKeys(m, rest');
    if HasKey(rest, key) {
      assert key in Keys([m] + rest);
    } else {
      assert key !in [m.0] + Keys(rest);
      assert [m.0] + (Keys(rest) + [key]) == [m.0] + Keys(rest) + [key];
    }
  }

  /** The keys of a dict whose first member is `m`. */
  lemma ConsKeys(m: (string, Json), rest: Fields)
    ensures Keys([m] + rest) == [m.0] + Keys(rest)
  {
    assert ([m] + rest)[1..] == rest;
  }

  /** A lookup in a dict whose first member is `m`. */
  lemma ConsGet(m: (string, Json), rest: Fields, k: string)
    ensures Get([m] + rest, k) == if m.0 == k then Some(m.1) else Get(rest, k)
  {
    assert ([m] + rest)[1..] == rest;
  }

  /** `v[k0][k1]...` through nested objects; `None` where a key is missing or a value on the
      way is not an object. */
  function Path(v: Json, keys: seq<string>): Option<Json>
    decreases |keys|
  {
    if keys == [] then Some(v)
    else if v.JObj? then
      match Get(v.fields, keys[0])
      case None => None
      case Some(c) => Path(c, keys[1..])
    else None
  }

  /** A list of Python strings. */
  function Strs(xs: seq<string>): (r: seq<Json>)
    ensures |r| == |xs|
    ensures forall i :: 0 <= i < |xs| ==> r[i] == JStr(xs[i])
  {
    seq(|xs|, i requires 0 <= i < |xs| => JStr(xs[i]))
  }

  /** `x.get(key, default)` where `x` must be a dict: anything else has no `get`. */
  function DictGet(x: Json, key: string, default: Json): (r: Result<Json, PyError>)
    ensures r.Success? <==> x.JObj?
    ensures x.JObj? ==> r.value == GetOr(x.fields, key, default)
  {
    if x.JObj? then Success(GetOr(x.fields, key, default)) else Failure(AttributeError)
  }

  /** `x[key]` where `x` is read as a dict: a missing key raises `KeyError`; subscripting
      anything else (`None`, a list, a string, a number) with a string raises `TypeError`. */
  function Index(x: Json, key: string): (r: Result<Json, PyError>)
    ensures r.Success? <==> x.JObj? && HasKey(x.fields, key)
    ensures r.Success? ==> Get(x.fields, key) == Some(r.value)
    ensures r.Failure? ==> r.error == if x.JObj? then KeyError else TypeError
  {
    if !x.JObj? then Failure(TypeError)
    else match Get(x.fields, key)
      case Some(v) => Success(v)
      case None => Failure(KeyError)
  }

  /** A member that is there and not `null` is what `x[key]` gives. */
  lemma IndexOfPresent(x: Json, key: string, v: Json)
    requires x.JObj? && v != JNull && GetOr(x.fields, key, JNull) == v
    ensures Index(x, key) == Success(v)
  {
    assert Get(x.fields, key) == Some(v);
  }

  /** Python truthiness. */
  predicate Truthy(v: Json) {
    match v
    case JNull => false
    case JBool(b) => b
    case JNum(Int(i)) => i != 0
    case JNum(Float(Finite(_, zero, _))) => !zero
    case JNum(Float(_)) => true
    case JStr(s) => s != ""
    case JArr(items) => items != []
    case JObj(fields) => fields != []
  }

  /** `v or default`. */
  function Or(v: Json, default: Json): (r: Json)
    ensures Truthy(v) ==> r == v
    ensures !Truthy(v) ==> r == default
  {
    if Truthy(v) then v else default
  }

  /** What `for x in v` visits: list items, dict keys, the characters of a string; numbers,
      booleans and None are not iterable. */
  function Iterate(v: Json): (r: Result<seq<Json>, PyError>)
    ensures v.JArr? ==> r == Success(v.items)
    ensures r.Success? <==> v.JArr? || v.JObj? || v.JStr?
  {
    match v
    case JArr(items) => Success(items)
    case JObj(fields) => Success(seq(|fields|, i requires 0 <= i < |fields| => JStr(fields[i].0)))
    case JStr(s) => Success(seq(|s|, i requires 0 <= i < |s| => JStr([s[i]])))
    case _ => Failure(TypeError)
  }

  /** `isinstance(v, int)`; a Python bool is an int. */
  predicate IsInt(v: Json) {
    v.JBool? || (v.JNum? && v.n.Int?)
  }

  /** Python's `int(v)`. */
  function PyInt(v: Json): (r: Result<int, PyError>)
    ensures v.JNum? && v.n.Int? ==> r == Success(v.n.i)
    ensures v.JStr? ==> (r.Success? <==> ParseInt(v.s).Some?)
    ensures r.Failure? && r.error != ValueError ==> !v.JStr?
  {
    match v
    case JNull => Failure(TypeError)
    case JBool(b) => Success(if b then 1 else 0)
    case JNum(Int(i)) => Success(i)
    case JNum(Float(Finite(t, _, _))) => Success(t)
    case JNum(Float(Infinite(_))) => Failure(OverflowError)
    case JNum(Float(NaN)) => Failure(ValueError)
    case JStr(s) => if ParseInt(s).Some? then Success(ParseInt(s).value) else Failure(ValueError)
    case JArr(_) => Failure(TypeError)
    case JObj(_) => Failure(TypeError)
  }

  /** 2^1024 - 2^970: the least integer `float()` rounds beyond the largest finite double (it
      lies halfway between that double and 2^1024, and the tie goes to the even 2^1024). */
  const FloatOverflow: int :=
    0xfffffffffffffc00_0000000000000000_0000000000000000_0000000000000000_0000000000000000_0000000000000000_0000000000000000_0000000000000000_0000000000000000_0000000000000000_0000000000000000_0000000000000000_0000000000000000_0000000000000000_0000000000000000_0000000000000000

  /** Python's `float(v)` succeeds: an integer overflows once it rounds beyond the doubles. */
  predicate FloatConvertible(v: Json) {
    match v
    case JBool(_) => true
    case JNum(Int(i)) => -FloatOverflow < i < FloatOverflow
    case JNum(Float(_)) => true
    case JStr(s) => IsFloatLiteral(s)
    case _ => false
  }

  /** The exception `float(v)` raises when it fails. */
  function FloatError(v: Json): PyError {
    if v.JStr? then ValueError else if v.JNum? then OverflowError else TypeError
  }

  function FloatRepr(f: Float): string {
    match f
    case Finite(_, _, repr) => repr
    case Infinite(neg) => if neg then "-inf" else "inf"
    case NaN => "nan"
  }

  /** Python's `str(v)`. Strings nested in containers are written with `repr`. */
  function PyStr(v: Json): (r: string)
    ensures v.JStr? ==> r == v.s
    decreases v, 1
  {
    match v
    case JNull => "None"
    case JBool(b) => if b then "True" else "False"
    case JNum(Int(i)) => IntToDecimal(i)
    case JNum(Float(f)) => FloatRepr(f)
    case JStr(s) => s
    case JArr(items) => "[" + ReprItems(v, items) + "]"
    case JObj(fields) => "{" + ReprMembers(v, fields) + "}"
  }

  /** Python's `repr(v)` as nested in a container. */
  function Repr(v: Json): string
    decreases v, 2
  {
    if v.JStr? then StrRepr(v.s) else PyStr(v)
  }

  function ReprItems(ghost parent: Json, items: seq<Json>): string
    requires forall x :: x in items ==> x < parent
    decreases parent, 0, |items|
  {
    if items == [] then ""
    else
      assert items[0] in items;
      assert forall x :: x in items[1..] ==> x in items;
      if |items| == 1 then Repr(items[0])
      else Repr(items[0]) + ", " + ReprItems(parent, items[1..])
  }

  function ReprMembers(ghost parent: Json, fields: Fields): string
    requires forall i :: 0 <= i < |fields| ==> fields[i].1 < parent
    decreases parent, 0, |fields|
  {
    if fields == [] then ""
    else
      var m := StrRepr(fields[0].0) + ": " + Repr(fields[0].1);
      if |fields| == 1 then m else m + ", " + ReprMembers(parent, fields[1..])
  }

  // ---------------------------------------------------------------------------
  // `repr` of a string
  // ---------------------------------------------------------------------------

  /** The quote `repr` puts around a string: a single quote, unless the string holds a
      single quote and no double quote. */
  function QuoteFor(s: string): char {
    if '\'' in s && '"' !in s then '"' else '\''
  }

  function HexDigit(d: nat): char
    requires d < 16
  {
    if d < 10 then ('0' as int + d) as char else ('a' as int + d - 10) as char
  }

  /** How `repr` writes one character between the quotes `q`: the quote itself and the
      backslash behind a backslash, tab, newline and carriage return by name, the other
      ASCII control characters as `\xhh`, and everything else as it is. */
  function EscapeChar(c: char, q: char): string {
    if c == q || c == '\\' then ['\\', c]
    else if c == '\t' then "\\t"
    else if c == '\n' then "\\n"
    else if c == '\r' then "\\r"
    else if c < ' ' || c == '\U{007F}' then "\\x" + [HexDigit(c as int / 16), HexDigit(c as int % 16)]
    else [c]
  }

  function Escaped(s: string, q: char): string
    decreases |s|
  {
    if s == [] then [] else EscapeChar(s[0], q) + Escaped(s[1..], q)
  }

  /** `repr(s)` for a string `s`. */
  function StrRepr(s: string): (r: string)
    ensures |r| >= 2 && r[0] == r[|r| - 1] == QuoteFor(s)
    ensures r[1..|r| - 1] == Escaped(s, QuoteFor(s))
  {
    var q := QuoteFor(s);
    var r := [q] + Escaped(s, q) + [q];
    assert r[1..|r| - 1] == Escaped(s, q);
    r
  }

  // What a reader of the repr does: undo the escapes.

  predicate IsHexDigit(c: char) {
    '0' <= c <= '9' || 'a' <= c <= 'f'
  }

  function HexValue(c: char): (d: nat)
    requires IsHexDigit(c)
    ensures d < 16
  {
    if c <= '9' then c as int - '0' as int else c as int - 'a' as int + 10
  }

  /** The character a backslash followed by `c` stands for (other than `\x`). */
  function Unescape(c: char): char {
    if c == 't' then '\t' else if c == 'n' then '\n' else if c == 'r' then '\r' else c
  }

  /** The text between the quotes of a repr, read back; `None` on a dangling escape. */
  function Unescaped(t: string): Option<string>
    decreases |t|
  {
    if t == [] then Some([])
    else if t[0] != '\\' then Prefixed(t[0], Unescaped(t[1..]))
    else if |t| < 2 then None
    else if t[1] != 'x' then Prefixed(Unescape(t[1]), Unescaped(t[2..]))
    else if |t| < 4 || !IsHexDigit(t[2]) || !IsHexDigit(t[3]) then None
    else Prefixed((HexValue(t[2]) * 16 + HexValue(t[3])) as char, Unescaped(t[4..]))
  }

  function Prefixed(c: char, rest: Option<string>): Option<string> {
    match rest
    case None => None
    case Some(r) => Some([c] + r)
  }

  /** Reading back one escaped character gives the character. */
  lemma UnescapeOne(c: char, q: char, rest: string)
    requires q == '\'' || q == '"'
    ensures Unescaped(EscapeChar(c, q) + rest) == Prefixed(c, Unescaped(rest))
  {
    var e := EscapeChar(c, q);
    var t := e + rest;
    if c == q || c == '\\' {
      assert t[2..] == rest;
    } else if c == '\t' || c == '\n' || c == '\r' {
      assert t[2..] == rest;
    } else if c < ' ' || c == '\U{007F}' {
      var n := c as int;
      assert HexValue(HexDigit(n / 16)) == n / 16;
      assert HexValue(HexDigit(n % 16)) == n % 16;
      assert t[4..] == rest;
    } else {
      assert t[1..] == rest;
    }
  }

  /** The repr of a string reads back as the string: every character is escaped so that the
      reader recovers it. */
  lemma {:induction false} UnescapedOfEscaped(s: string, q: char)
    requires q == '\'' || q == '"'
    ensures Unescaped(Escaped(s, q)) == Some(s)
    decreases |s|
  {
    if s != [] {
      var rest := Escaped(s[1..], q);
      assert Escaped(s, q) == EscapeChar(s[0], q) + rest;
      UnescapedOfEscaped(s[1..], q);
      UnescapeOne(s[0], q, rest);
      assert [s[0]] + s[1..] == s;
    }
  }

  /** The repr of a string is its quote, the string read back from between the quotes, and
      the same quote again. */
  lemma StrReprReadsBack(s: string)
    ensures var r := StrRepr(s); Unescaped(r[1..|r| - 1]) == Some(s)
  {
    UnescapedOfEscaped(s, QuoteFor(s));
  }

  /** A string without quotes, backslashes or ASCII control characters is written between
      single quotes as it is. */
  lemma {:induction false} StrReprPlain(s: string)
    requires forall k :: 0 <= k < |s| ==> s[k] != '\'' && s[k] != '"' && s[k] != '\\' && ' ' <= s[k] && s[k] != '\U{007F}'
    ensures StrRepr(s) == "'" + s + "'"
  {
    EscapedPlain(s, '\'');
  }

  lemma {:induction false} EscapedPlain(s: string, q: char)
    requires forall k :: 0 <= k < |s| ==> s[k] != q && s[k] != '\\' && ' ' <= s[k] && s[k] != '\U{007F}'
    ensures Escaped(s, q) == s
    decreases |s|
  {
    if s != [] {
      EscapedPlain(s[1..], q);
      assert [s[0]] + s[1..] == s;
    }
  }

  /** A string holding an apostrophe and neither a double quote, a backslash nor a control
      character is written between double quotes, with the apostrophes as they are: `str`
      of the list holding `it's` is `["it's"]`. */
  lemma ReprOfApostrophe(s: string)
    requires '\'' in s
    requires forall k :: 0 <= k < |s| ==> s[k] != '"' && s[k] != '\\' && ' ' <= s[k] && s[k] != '\U{007F}'
    ensures PyStr(JArr([JStr(s)])) == "[\"" + s + "\"]"
  {
    EscapedPlain(s, '"');
    StrReprDoubleQuoted(s);
    ListOfOneString(s);
  }

  lemma StrReprDoubleQuoted(s: string)
    requires QuoteFor(s) == '"' && Escaped(s, '"') == s
    ensures StrRepr(s) == "\"" + s + "\""
  {
    var r := StrRepr(s);
    assert r == [r[0]] + r[1..|r| - 1] + [r[|r| - 1]];
  }

  /** `str([s])` is `repr(s)` between brackets. */
  lemma ListOfOneString(s: string)
    ensures PyStr(JArr([JStr(s)])) == "[" + StrRepr(s) + "]"
  {
    var v := JArr([JStr(s)]);
    assert ReprItems(v, [JStr(s)]) == Repr(JStr(s));
  }
}
