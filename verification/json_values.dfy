/**
 * The values exchanged as JSON between the chat server, the widgets and the host.
 * Numbers are integers here: no operation of the model computes with fractional values.
 * Also the property names JavaScript reads as array indices.
 */
module JsonValues {
  import opened Wrappers

  datatype Json =
    | Null
    | Bool(b: bool)
    | Num(n: int)
    | Str(s: string)
    | Arr(items: seq<Json>)
    | Obj(fields: map<string, Json>)

  /** Python's truth value (`if x:`): None, False, 0, "" and empty containers are false. */
  predicate PyTruthy(j: Json) {
    match j
    case Null => false
    case Bool(b) => b
    case Num(n) => n != 0
    case Str(s) => s != ""
    case Arr(a) => a != []
    case Obj(m) => m != map[]
  }

  /** JavaScript's truth value: unlike Python, every array and object is true. */
  predicate JsTruthy(j: Json) {
    match j
    case Null => false
    case Bool(b) => b
    case Num(n) => n != 0
    case Str(s) => s != ""
    case Arr(_) => true
    case Obj(_) => true
  }

  /** JavaScript property read `j.name` on a value that is not null: `None` is `undefined`. */
  function Get(j: Json, name: string): (r: Option<Json>)
    ensures r.Some? <==> j.Obj? && name in j.fields
    ensures r.Some? ==> r.value == j.fields[name]
  {
    if j.Obj? && name in j.fields then Some(j.fields[name]) else None
  }

  /** JavaScript's SameValueZero on values that JSON.parse produced: arrays and objects are
      compared by reference, and two parses never yield the same reference. */
  predicate SameValueZero(a: Option<Json>, b: Option<Json>) {
    a == b && (a.Some? ==> !a.value.Arr? && !a.value.Obj?)
  }

  /** JavaScript's `list.includes(x)`. */
  predicate Includes(list: seq<Option<Json>>, x: Option<Json>) {
    exists i | 0 <= i < |list| :: SameValueZero(list[i], x)
  }

  // ---------------------------------------------------------------------------------------
  // Array indices as property names

  predicate IsDigit(c: char) {
    '0' <= c <= '9'
  }

  function DigitChar(d: nat): char
    requires d < 10
  {
    ('0' as int + d) as char
  }

  function DigitOf(c: char): (d: nat)
    requires IsDigit(c)
    ensures d < 10
  {
    c as int - '0' as int
  }

  /** The decimal name of `n`, as JavaScript writes it. */
  function Decimal(n: nat): (s: string)
    ensures |s| >= 1 && forall i | 0 <= i < |s| :: IsDigit(s[i])
    ensures n >= 10 ==> s[0] != '0'
    decreases n
  {
    if n < 10 then [DigitChar(n)] else Decimal(n / 10) + [DigitChar(n % 10)]
  }

  /** The value of a string of digits. */
  function ValueOf(s: string): nat
    requires forall i | 0 <= i < |s| :: IsDigit(s[i])
    decreases |s|
  {
    if s == [] then 0 else ValueOf(s[..|s| - 1]) * 10 + DigitOf(s[|s| - 1])
  }

  /** The array index a property name denotes: a string of digits without a leading zero. */
  function ArrayIndex(key: string): Option<nat> {
    if key != [] && (forall i | 0 <= i < |key| :: IsDigit(key[i])) && (key[0] != '0' || |key| == 1)
    then Some(ValueOf(key)) else None
  }

  lemma {:induction false} ValueOfDecimal(n: nat)
    ensures ValueOf(Decimal(n)) == n
    decreases n
  {
    if n >= 10 {
      ValueOfDecimal(n / 10);
      var s := Decimal(n);
      assert s[..|s| - 1] == Decimal(n / 10);
    }
  }

  lemma {:induction false} LeadingDigit(s: string)
    requires s != [] && forall i | 0 <= i < |s| :: IsDigit(s[i])
    requires s[0] != '0'
    ensures ValueOf(s) >= 1
    decreases |s|
  {
    if |s| > 1 {
      LeadingDigit(s[..|s| - 1]);
    }
  }

  lemma {:induction false} DecimalValueOf(s: string)
    requires s != [] && forall i | 0 <= i < |s| :: IsDigit(s[i])
    requires s[0] != '0' || |s| == 1
    ensures Decimal(ValueOf(s)) == s
    decreases |s|
  {
    if |s| > 1 {
      var p := s[..|s| - 1];
      DecimalValueOf(p);
      LeadingDigit(p);
      var n := ValueOf(s);
      assert n / 10 == ValueOf(p) && n % 10 == DigitOf(s[|s| - 1]);
    }
  }

  /** A name denotes index `n` exactly when it is the decimal name of `n`: the canonical numeric
      names of the ECMAScript specification. */
  lemma ArrayIndexDecimal(key: string, n: nat)
    ensures ArrayIndex(key) == Some(n) <==> key == Decimal(n)
  {
    if key == Decimal(n) {
      ValueOfDecimal(n);
    }
    if ArrayIndex(key) == Some(n) {
      DecimalValueOf(key);
    }
  }

  lemma ArrayIndexDecimals(key: string)
    ensures forall n: nat :: ArrayIndex(key) == Some(n) <==> key == Decimal(n)
  {
    forall n: nat
      ensures ArrayIndex(key) == Some(n) <==> key == Decimal(n)
    {
      ArrayIndexDecimal(key, n);
    }
  }
}
