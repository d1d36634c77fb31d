/** The values the typed layer stores, as a closed union of the five
    variants the codec table knows plus `Null` (what `finish` answers for a
    node that has no type tag, and what can therefore sit inside a decoded
    array or object). Numbers are integers. */
module Values {
  import opened Paths

  datatype Value =
    | Null
    | Str(s: string)
    | Num(n: int)
    | Bool(b: bool)
    | Arr(elems: seq<Value>)
    | Obj(fields: seq<Entry>)

  /** One own property of an object, in `Object.keys` order. */
  datatype Entry = Entry(key: string, val: Value)

  const StringTag: string := "String"
  const NumberTag: string := "Number"
  const BooleanTag: string := "Boolean"
  const ArrayTag: string := "Array"
  const ObjectTag: string := "Object"

  /** `value.constructor.name` for the variants the codec table knows. */
  function TagName(v: Value): (t: string)
    requires v != Null
    ensures t in {StringTag, NumberTag, BooleanTag, ArrayTag, ObjectTag}
    ensures t != ""
  {
    match v
    case Str(_) => StringTag
    case Num(_) => NumberTag
    case Bool(_) => BooleanTag
    case Arr(_) => ArrayTag
    case Obj(_) => ObjectTag
  }

  function Max(a: nat, b: nat): nat { if a < b then b else a }

  /** Nesting depth; an object is one level deeper than an array so that the
      array of its key names is shallower than the object itself. */
  function Depth(v: Value): nat
    decreases v, 1
  {
    match v
    case Arr(es) => 1 + ElemsDepth(v, |es|)
    case Obj(fs) => 2 + FieldsDepth(v, |fs|)
    case _ => 0
  }

  function ElemsDepth(v: Value, n: nat): (d: nat)
    requires v.Arr? && n <= |v.elems|
    ensures forall i :: 0 <= i < n ==> Depth(v.elems[i]) <= d
    decreases v, 0, n
  {
    if n == 0 then 0 else Max(ElemsDepth(v, n - 1), Depth(v.elems[n - 1]))
  }

  function FieldsDepth(v: Value, n: nat): (d: nat)
    requires v.Obj? && n <= |v.fields|
    ensures forall i :: 0 <= i < n ==> Depth(v.fields[i].val) <= d
    decreases v, 0, n
  {
    if n == 0 then 0 else Max(FieldsDepth(v, n - 1), Depth(v.fields[n - 1].val))
  }

  function Keys(fs: seq<Entry>): (ks: seq<string>)
    ensures |ks| == |fs|
    ensures forall i :: 0 <= i < |fs| ==> ks[i] == fs[i].key
  {
    if fs == [] then [] else [fs[0].key] + Keys(fs[1..])
  }

  function Strings(ks: seq<string>): (vs: seq<Value>)
    ensures |vs| == |ks|
    ensures forall i :: 0 <= i < |ks| ==> vs[i] == Str(ks[i])
  {
    if ks == [] then [] else [Str(ks[0])] + Strings(ks[1..])
  }

  /** The array the object encoder stores under "keys". */
  function KeysArray(fs: seq<Entry>): (a: Value)
    ensures a.Arr? && |a.elems| == |fs|
    ensures forall i :: 0 <= i < |fs| ==> a.elems[i] == Str(fs[i].key)
    ensures Depth(a) == 1
  {
    var a := Arr(Strings(Keys(fs)));
    StringsAreFlat(a, |fs|);
    a
  }

  lemma {:induction false} StringsAreFlat(a: Value, n: nat)
    requires a.Arr? && n <= |a.elems|
    requires forall i :: 0 <= i < |a.elems| ==> a.elems[i].Str?
    ensures ElemsDepth(a, n) == 0
  {
    if n > 0 {
      StringsAreFlat(a, n - 1);
    }
  }

  /** `o[key] = x` on an object being built: replace in place, or append. */
  function Assign(fs: seq<Entry>, key: string, x: Value): (r: seq<Entry>)
    ensures key in Keys(fs) ==> |r| == |fs|
    ensures key !in Keys(fs) ==> r == fs + [Entry(key, x)]
  {
    if fs == [] then [Entry(key, x)]
    else if fs[0].key == key then [Entry(key, x)] + fs[1..]
    else [fs[0]] + Assign(fs[1..], key, x)
  }

  // ----- numbers -----

  predicate IsDigit(c: char) { '0' <= c <= '9' }

  predicate AllDigits(s: string) { forall i :: 0 <= i < |s| ==> IsDigit(s[i]) }

  function DigitChar(d: nat): (c: char)
    requires d < 10
    ensures IsDigit(c)
  {
    ['0', '1', '2', '3', '4', '5', '6', '7', '8', '9'][d]
  }

  function DigitValue(c: char): (d: nat)
    requires IsDigit(c)
    ensures d < 10
  {
    (c as int - '0' as int) as nat
  }

  lemma DigitRoundTrip(d: nat)
    requires d < 10
    ensures DigitValue(DigitChar(d)) == d
  {
  }

  /** Decimal rendering of a natural number, most significant digit first. */
  function NatToString(n: nat): (s: string)
    ensures s != "" && AllDigits(s)
  {
    if n < 10 then [DigitChar(n)] else NatToString(n / 10) + [DigitChar(n % 10)]
  }

  /** `number.toString()` for an integer. */
  function IntToString(n: int): (s: string)
    ensures s != ""
    ensures forall i :: 0 <= i < |s| ==> IsDigit(s[i]) || s[i] == '-'
  {
    if n < 0 then "-" + NatToString(-n) else NatToString(n)
  }

  /** The value of a non-empty run of decimal digits. */
  function DigitsValue(s: string): nat
    requires s != "" && AllDigits(s)
  {
    if |s| == 1 then DigitValue(s[0])
    else DigitsValue(s[..|s| - 1]) * 10 + DigitValue(s[|s| - 1])
  }

  /** `Number(text)` restricted to integers: "" is 0 as in JavaScript, an
      optionally signed run of decimal digits is its value, and every other
      text is not an integer the model can represent. */
  function ParseNumber(s: string): (r: Option<int>)
  {
    if s == "" then Some(0)
    else if s[0] == '-' && |s| > 1 && AllDigits(s[1..]) then Some(-(DigitsValue(s[1..]) as int))
    else if s[0] == '+' && |s| > 1 && AllDigits(s[1..]) then Some(DigitsValue(s[1..]))
    else if AllDigits(s) then Some(DigitsValue(s))
    else None
  }

  datatype Option<T> = None | Some(value: T)

  lemma {:induction false} NatToStringRoundTrip(n: nat)
    ensures DigitsValue(NatToString(n)) == n
  {
    if n >= 10 {
      NatToStringRoundTrip(n / 10);
      var s := NatToString(n);
      assert s[..|s| - 1] == NatToString(n / 10);
      DigitRoundTrip(n % 10);
    } else {
      DigitRoundTrip(n);
    }
  }

  /** Number decode inverts Number encode. */
  lemma IntToStringRoundTrip(n: int)
    ensures ParseNumber(IntToString(n)) == Some(n)
  {
    if n < 0 {
      NatToStringRoundTrip(-n);
      assert IntToString(n)[1..] == NatToString(-n);
    } else {
      NatToStringRoundTrip(n);
    }
  }

  /** Different integers render to different texts. */
  lemma IntToStringInjective(a: int, b: int)
    requires IntToString(a) == IntToString(b)
    ensures a == b
  {
    IntToStringRoundTrip(a);
    IntToStringRoundTrip(b);
  }

  // ----- JavaScript's toString of a stored value -----

  /** `String(v)` for a non-null value: what a raw write of `v` stores. */
  function JsString(v: Value): string
    requires v != Null
    decreases v, 1
  {
    match v
    case Str(s) => s
    case Num(n) => IntToString(n)
    case Bool(b) => if b then "true" else "false"
    case Arr(es) => JoinElems(v, |es|)
    case Obj(_) => "[object Object]"
  }

  /** `Array.prototype.join(",")` over the first `n` elements; null prints as "". */
  function JoinElems(v: Value, n: nat): string
    requires v.Arr? && n <= |v.elems|
    decreases v, 0, n
  {
    if n == 0 then ""
    else
      var last := if v.elems[n - 1] == Null then "" else JsString(v.elems[n - 1]);
      if n == 1 then last else JoinElems(v, n - 1) + "," + last
  }

  // ----- which values the encoder accepts, and which round-trip -----

  /** The encoder reaches no null: `set` of null throws on `null.constructor`,
      and a raw write of an object's "self" property throws on `null.toString()`. */
  predicate Storable(v: Value)
  {
    match v
    case Null => false
    case Arr(es) => forall i :: 0 <= i < |es| ==> Storable(es[i])
    case Obj(fs) =>
      forall i :: 0 <= i < |fs| ==>
        if fs[i].key == "self" then fs[i].val != Null else Storable(fs[i].val)
    case _ => true
  }

  /** Values that survive `set` followed by `finish`: no null anywhere, and
      every object key non-empty, neither "self" nor "keys", and distinct from
      its siblings after escaping. */
  predicate WellFormed(v: Value)
  {
    match v
    case Null => false
    case Arr(es) => forall i :: 0 <= i < |es| ==> WellFormed(es[i])
    case Obj(fs) =>
      (forall i :: 0 <= i < |fs| ==>
         fs[i].key != "" && fs[i].key != "self" && fs[i].key != "keys" && WellFormed(fs[i].val))
      && (forall i, j :: 0 <= i < j < |fs| ==> Escape(fs[i].key) != Escape(fs[j].key))
    case _ => true
  }
}
