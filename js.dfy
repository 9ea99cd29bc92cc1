/** The JavaScript values and built-ins that the portal's client and server
    code relies on: truthiness, `||`, `+ 1`, `Number(...)`, `toLowerCase`,
    `includes` and what `JSON.stringify` does to a flat object. */
module Js {

  datatype Option<T> = None | Some(value: T)

  /** A property value of a flat JSON-like document. `NaN` is kept apart
      from the finite numbers because the source tests for it (`isNaN`). */
  datatype Value =
    | Undefined
    | Null
    | Bool(b: bool)
    | Num(n: real)
    | NaN
    | Str(s: string)

  /** JavaScript's `!!v`. */
  predicate Truthy(v: Value) {
    match v
    case Undefined => false
    case Null => false
    case Bool(b) => b
    case Num(n) => n != 0.0
    case NaN => false
    case Str(s) => s != ""
  }

  /** `obj.key`: a missing property reads as `undefined`. Object spread
      `{...a, ...b}` is the map union `a + b`. */
  function Get<K>(obj: map<K, Value>, key: K): Value {
    if key in obj then obj[key] else Undefined
  }

  /** `v || d` */
  function Or(v: Value, d: Value): Value {
    if Truthy(v) then v else d
  }

  /** `v + 1`: numeric addition, except that a string is concatenated. */
  function AddOne(v: Value): Value {
    match v
    case Undefined => NaN
    case Null => Num(1.0)
    case Bool(b) => Num(if b then 2.0 else 1.0)
    case Num(n) => Num(n + 1.0)
    case NaN => NaN
    case Str(s) => Str(s + "1")
  }

  /** `a + b` on two values that are already numbers (or NaN). */
  function NumberAdd(a: Value, b: Value): Value {
    if a.Num? && b.Num? then Num(a.n + b.n) else NaN
  }

  /** `a / 2` on a value that is already a number (or NaN). */
  function NumberHalf(a: Value): Value {
    if a.Num? then Num(a.n / 2.0) else NaN
  }

  /** The white space that `\s` matches and that `Number` trims. */
  predicate IsSpace(c: char) {
    c == '\t' || c == '\n' || c == '\U{000B}' || c == '\U{000C}' || c == '\r' || c == ' '
    || c == '\U{00A0}' || c == '\U{1680}' || ('\U{2000}' <= c <= '\U{200A}')
    || c == '\U{2028}' || c == '\U{2029}' || c == '\U{202F}' || c == '\U{205F}'
    || c == '\U{3000}' || c == '\U{FEFF}'
  }

  predicate IsDigit(c: char) {
    '0' <= c <= '9'
  }

  predicate AllDigits(s: string) {
    forall i :: 0 <= i < |s| ==> IsDigit(s[i])
  }

  function DigitsValue(s: string): nat
    requires AllDigits(s)
  {
    if s == [] then 0
    else DigitsValue(s[..|s| - 1]) * 10 + (s[|s| - 1] as int - '0' as int)
  }

  function Pow10(n: nat): (p: nat)
    ensures p > 0
  {
    if n == 0 then 1 else 10 * Pow10(n - 1)
  }

  function TrimStart(s: string): string {
    if s != [] && IsSpace(s[0]) then TrimStart(s[1..]) else s
  }

  function TrimEnd(s: string): string {
    if s != [] && IsSpace(s[|s| - 1]) then TrimEnd(s[..|s| - 1]) else s
  }

  /** Position of the first '.' in `s`, or `|s|` when there is none. */
  function DotIndex(s: string): (k: nat)
    ensures k <= |s|
  {
    if s == [] then 0 else if s[0] == '.' then 0 else 1 + DotIndex(s[1..])
  }

  /** Decimal notation without sign: digits, optionally a '.' and more
      digits, with at least one digit in all. */
  function ParseUnsigned(t: string): Option<real> {
    var dot := DotIndex(t);
    var whole := t[..dot];
    var fraction := if dot < |t| then t[dot + 1..] else "";
    if AllDigits(whole) && AllDigits(fraction) && |whole| + |fraction| > 0 then
      Some(DigitsValue(whole) as real + DigitsValue(fraction) as real / Pow10(|fraction|) as real)
    else
      None
  }

  /** The string case of `Number(s)`: surrounding white space is ignored,
      an empty string is 0, a sign may lead; `None` stands for NaN. */
  function ParseNumeral(s: string): Option<real> {
    var t := TrimEnd(TrimStart(s));
    if t == "" then Some(0.0)
    else if t[0] == '-' then
      match ParseUnsigned(t[1..])
      case Some(x) => Some(-x)
      case None => None
    else if t[0] == '+' then ParseUnsigned(t[1..])
    else ParseUnsigned(t)
  }

  /** `Number(v)`: always a number or NaN. */
  function ToNumber(v: Value): Value {
    match v
    case Undefined => NaN
    case Null => Num(0.0)
    case Bool(b) => Num(if b then 1.0 else 0.0)
    case Num(_) => v
    case NaN => NaN
    case Str(s) =>
      match ParseNumeral(s)
      case Some(x) => Num(x)
      case None => NaN
  }

  /** `Number(o)` for an optional text field of a form. */
  function NumberOf(o: Option<string>): Value {
    match o
    case None => NaN
    case Some(s) => ToNumber(Str(s))
  }

  lemma {:induction false} DigitsHaveNoDot(s: string)
    requires AllDigits(s)
    ensures DotIndex(s) == |s|
  {
    if s != [] {
      DigitsHaveNoDot(s[1..]);
    }
  }

  /** A string of decimal digits reads as the integer it spells. */
  lemma IntegerNumber(s: string)
    requires s != "" && AllDigits(s)
    ensures ToNumber(Str(s)) == Num(DigitsValue(s) as real)
  {
    DigitsHaveNoDot(s);
    assert s[..DotIndex(s)] == s;
    assert ParseUnsigned(s) == Some(DigitsValue(s) as real);
    assert IsDigit(s[0]) && IsDigit(s[|s| - 1]);
    assert TrimEnd(TrimStart(s)) == s;
    assert s[0] != '-' && s[0] != '+';
    assert ParseNumeral(s) == ParseUnsigned(s);
  }

  lemma {:induction false} TrimBlank(s: string)
    requires forall i :: 0 <= i < |s| ==> IsSpace(s[i])
    ensures TrimStart(s) == ""
  {
    if s != [] {
      TrimBlank(s[1..]);
    }
  }

  /** A string of white space, the empty one included, reads as 0. */
  lemma BlankNumber(s: string)
    requires forall i :: 0 <= i < |s| ==> IsSpace(s[i])
    ensures ToNumber(Str(s)) == Num(0.0)
  {
    TrimBlank(s);
  }

  /** What `JSON.stringify` and the parse at the other end make of a flat
      object: undefined properties vanish, NaN becomes null, and every other
      property arrives unchanged. */
  function ToJson<K>(rec: map<K, Value>): (r: map<K, Value>)
    ensures forall k :: k in r ==> k in rec && rec[k] != Undefined && r[k] != Undefined && r[k] != NaN
    ensures forall k :: k in rec && rec[k] != Undefined && rec[k] != NaN ==> k in r && r[k] == rec[k]
    ensures forall k :: k in rec && rec[k] == NaN ==> k in r && r[k] == Null
  {
    map k | k in rec && rec[k] != Undefined :: if rec[k] == NaN then Null else rec[k]
  }

  /** `s.length`: JavaScript strings count UTF-16 code units, and a
      character outside the Basic Multilingual Plane takes two of them. */
  function Utf16Length(s: string): (n: nat)
    ensures |s| <= n <= 2 * |s|
    ensures n == 0 <==> s == []
  {
    if s == [] then 0
    else (if s[0] > '\U{FFFF}' then 2 else 1) + Utf16Length(s[1..])
  }

  /** On text within the Basic Multilingual Plane, `s.length` is the number
      of characters. */
  lemma {:induction false} Utf16LengthOfBmp(s: string)
    requires forall i :: 0 <= i < |s| ==> s[i] <= '\U{FFFF}'
    ensures Utf16Length(s) == |s|
  {
    if s != [] {
      assert forall i :: 0 <= i < |s[1..]| ==> s[1..][i] == s[i + 1];
      Utf16LengthOfBmp(s[1..]);
    }
  }

  /** A single character outside the Basic Multilingual Plane, such as an
      emoji, is two code units long. */
  lemma AstralCharLength(c: char)
    requires c > '\U{FFFF}'
    ensures Utf16Length([c]) == 2
  {
    assert [c][1..] == [];
  }

  /** ASCII case of `toLowerCase`. */
  function LowerChar(c: char): char {
    if 'A' <= c <= 'Z' then (c as int + 32) as char else c
  }

  function Lower(s: string): (r: string)
    ensures |r| == |s|
    ensures forall i :: 0 <= i < |s| ==> r[i] == LowerChar(s[i])
  {
    if s == [] then [] else [LowerChar(s[0])] + Lower(s[1..])
  }

  /** ASCII case of `toUpperCase`. */
  function UpperChar(c: char): char {
    if 'a' <= c <= 'z' then (c as int - 32) as char else c
  }

  function Upper(s: string): (r: string)
    ensures |r| == |s|
    ensures forall i :: 0 <= i < |s| ==> r[i] == UpperChar(s[i])
  {
    if s == [] then [] else [UpperChar(s[0])] + Upper(s[1..])
  }

  /** `s.includes(t)`, scanning the start positions of `s` left to right. */
  predicate Includes(s: string, t: string)
    decreases |s|
  {
    t <= s || (s != [] && Includes(s[1..], t))
  }

  /** `t` occurs in `s` at position `i`. */
  ghost predicate OccursAt(s: string, t: string, i: int) {
    0 <= i && i + |t| <= |s| && s[i..i + |t|] == t
  }

  /** `Includes` is substring search: it holds iff `t` occurs somewhere in `s`. */
  lemma {:induction false} IncludesIffOccurs(s: string, t: string)
    ensures Includes(s, t) <==> exists i :: OccursAt(s, t, i)
    decreases |s|
  {
    if t <= s {
      assert OccursAt(s, t, 0);
    } else if s != [] {
      IncludesIffOccurs(s[1..], t);
      forall i | OccursAt(s[1..], t, i)
        ensures OccursAt(s, t, i + 1)
      {
        assert s[1..][i..i + |t|] == s[i + 1..i + 1 + |t|];
      }
      forall i | OccursAt(s, t, i)
        ensures OccursAt(s[1..], t, i - 1)
      {
        assert s[1..][i - 1..i - 1 + |t|] == s[i..i + |t|];
      }
    }
  }
}
