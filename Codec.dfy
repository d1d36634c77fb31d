/** The codec table and the store effect of the cursor's `set`, `finish`
    and `delete`, as functions over a snapshot of the store. The cursor
    methods in module Cursor perform the same reads and writes one store
    call at a time and are proved to agree with these functions. */
module Codec {
  import opened KvStore
  import opened Paths
  import opened Values

  datatype Fault =
    | UnknownTag(tag: string)      // `impl[dataType]` is undefined: the source throws
    | NotAnInteger(text: string)   // `Number(text)` is NaN or not an integer
    | NotIterable                  // the "keys" child cannot be iterated by `for ... of`
    | NullKey                      // a null key name: `null.toString()` throws

  datatype Result<T> = Ok(value: T) | Err(fault: Fault)

  const SelfName: string := "self"
  const LengthName: string := "length"
  const KeysName: string := "keys"

  /** The key of a raw, non-"self" field: no escaping on this path. */
  function RawKey(nc: string, thing: string): string
  {
    nc + [Delimiter] + thing
  }

  // ----- encoding: the store after `chain(c).set(name, v)` -----

  /** Store after setting `v` at node key `nc`: the codec's writes, then the type tag. */
  function Encode(m: map<string, string>, nc: string, v: Value): map<string, string>
    requires Storable(v)
    decreases Depth(v), 1
  {
    var written :=
      match v
      case Str(s) => Put(m, nc, SelfName, v, true)
      case Num(n) => Put(m, nc, SelfName, v, true)
      case Bool(b) => Put(m, nc, SelfName, Num(if b then 1 else 0), true)
      case Arr(es) => EncodeElems(Put(m, nc, LengthName, Num(|es|), false), nc, v, |es|)
      case Obj(fs) => EncodeFields(Put(m, nc, KeysName, KeysArray(fs), false), nc, v, |fs|);
    written[TypeKey(nc) := TagName(v)]
  }

  /** The setter the codecs receive: "self" writes the node's own key,
      a non-raw field is a full typed child node, a raw field a plain key. */
  function Put(m: map<string, string>, nc: string, thing: string, x: Value, raw: bool): map<string, string>
    requires thing == SelfName || raw ==> x != Null
    requires thing != SelfName && !raw ==> Storable(x)
    decreases Depth(x), if thing == SelfName || raw then 0 else 2
  {
    if thing == SelfName then m[nc := JsString(x)]
    else if !raw then Encode(m, NodeKey(nc, thing), x)
    else m[RawKey(nc, thing) := JsString(x)]
  }

  /** Array encode's loop: elements 0 .. n-1, each as a typed child. */
  function EncodeElems(m: map<string, string>, nc: string, v: Value, n: nat): map<string, string>
    requires v.Arr? && Storable(v) && n <= |v.elems|
    decreases Depth(v), 0, n
  {
    if n == 0 then m
    else
      IndexIsNotSelf(n - 1);
      Put(EncodeElems(m, nc, v, n - 1), nc, IntToString(n - 1), v.elems[n - 1], false)
  }

  /** An array index never names the node's own text. */
  lemma IndexIsNotSelf(i: int)
    ensures IntToString(i) != SelfName
  {
    assert IntToString(i)[0] != SelfName[0];
  }

  /** Object encode's loop: fields 0 .. n-1 in `Object.keys` order. */
  function EncodeFields(m: map<string, string>, nc: string, v: Value, n: nat): map<string, string>
    requires v.Obj? && Storable(v) && n <= |v.fields|
    decreases Depth(v), 0, n
  {
    if n == 0 then m
    else
      var f := v.fields[n - 1];
      Put(EncodeFields(m, nc, v, n - 1), nc, f.key, f.val, false)
  }

  // ----- decoding: what `chain(c).finish()` resolves to -----

  /** `finish`: read the type tag, answer null without one, else dispatch. */
  function Decode(m: map<string, string>, c: string): Result<Value>
    decreases MaxLen(m.Keys) - |c|, 3
  {
    var tag := Lookup(m, TypeKey(c));
    if tag == "" then Ok(Null)
    else
      MaxLenBound(m.Keys, TypeKey(c));
      if tag == StringTag then Get(m, c, SelfName, true)
      else if tag == NumberTag then
        match Get(m, c, SelfName, true)
        case Ok(t) => AsNumber(t.s)
        case Err(f) => Err(f)
      else if tag == BooleanTag then
        match Get(m, c, SelfName, true)
        case Ok(t) => Ok(Bool(t.s == "1"))
        case Err(f) => Err(f)
      else if tag == ArrayTag then DecodeArray(m, c)
      else if tag == ObjectTag then DecodeObject(m, c)
      else Err(UnknownTag(tag))
  }

  function AsNumber(text: string): (r: Result<Value>)
    ensures r.Ok? ==> r.value.Num?
  {
    match ParseNumber(text)
    case Some(n) => Ok(Num(n))
    case None => Err(NotAnInteger(text))
  }

  /** The getter the decoders receive, mirroring the setter: raw reads give
      the stored text, a non-raw field is decoded as a typed child node. */
  function Get(m: map<string, string>, c: string, thing: string, raw: bool): (r: Result<Value>)
    requires TypeKey(c) in m
    ensures thing == SelfName || raw ==> r.Ok? && r.value.Str?
    decreases MaxLen(m.Keys) - |c|, 0
  {
    if thing == SelfName then Ok(Str(Lookup(m, c)))
    else if !raw then (MaxLenBound(m.Keys, TypeKey(c)); Decode(m, Child(c, thing)))
    else Ok(Str(Lookup(m, RawKey(c, thing))))
  }

  function DecodeArray(m: map<string, string>, c: string): Result<Value>
    requires TypeKey(c) in m
    decreases MaxLen(m.Keys) - |c|, 2
  {
    var length := Get(m, c, LengthName, true).value.s;
    match ParseNumber(length)
    case None => Err(NotAnInteger(length))
    case Some(n) =>
      match DecodeElems(m, c, if n < 0 then 0 else n)
      case Ok(es) => Ok(Arr(es))
      case Err(f) => Err(f)
  }

  /** Array decode's loop: `a.push(await get(i, false))` for i in 0 .. n-1. */
  function DecodeElems(m: map<string, string>, c: string, n: nat): Result<seq<Value>>
    requires TypeKey(c) in m
    decreases MaxLen(m.Keys) - |c|, 1, n
  {
    if n == 0 then Ok([])
    else
      match DecodeElems(m, c, n - 1)
      case Err(f) => Err(f)
      case Ok(prefix) =>
        match Get(m, c, IntToString(n - 1), false)
        case Err(f) => Err(f)
        case Ok(x) => Ok(prefix + [x])
  }

  /** What `for (let key of keys)` walks over: an array's elements, or a
      string's characters; other values are not iterable. */
  function KeyList(keys: Value): Result<seq<Value>>
  {
    match keys
    case Arr(es) => Ok(es)
    case Str(s) => Ok(seq(|s|, i requires 0 <= i < |s| => Str([s[i]])))
    case _ => Err(NotIterable)
  }

  function DecodeObject(m: map<string, string>, c: string): Result<Value>
    requires TypeKey(c) in m
    decreases MaxLen(m.Keys) - |c|, 2
  {
    match Get(m, c, KeysName, false)
    case Err(f) => Err(f)
    case Ok(keys) =>
      match KeyList(keys)
      case Err(f) => Err(f)
      case Ok(ks) =>
        match DecodeFields(m, c, ks, |ks|)
        case Ok(fs) => Ok(Obj(fs))
        case Err(f) => Err(f)
  }

  /** Object decode's loop: `o[key] = await get(key, false)` for the first n key names. */
  function DecodeFields(m: map<string, string>, c: string, ks: seq<Value>, n: nat): Result<seq<Entry>>
    requires TypeKey(c) in m && n <= |ks|
    decreases MaxLen(m.Keys) - |c|, 1, n
  {
    if n == 0 then Ok([])
    else
      match DecodeFields(m, c, ks, n - 1)
      case Err(f) => Err(f)
      case Ok(fs) =>
        if ks[n - 1] == Null then Err(NullKey)
        else
          var name := JsString(ks[n - 1]);
          match Get(m, c, name, false)
          case Err(f) => Err(f)
          case Ok(x) => Ok(Assign(fs, name, x))
  }

  // ----- deleting: the store after `chain(c).delete(name)` -----

  /** The keys `delete` marks: everything listed under `nc:`, plus `nc`
      itself when it reads back non-empty. */
  function Marked(m: map<string, string>, nc: string): set<string>
  {
    KeysWithPrefix(m, nc + [Delimiter]) + (if Lookup(m, nc) != "" then {nc} else {})
  }

  function Deleted(m: map<string, string>, nc: string): map<string, string>
  {
    m - Marked(m, nc)
  }
}
