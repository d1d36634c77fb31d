/** The cursor returned by `chain(c)`: its `set`, `finish` and `delete`,
    and the root cursor's `reset`, performing one store call at a time on
    the `Client`. Each is proved to leave the store, or to answer, exactly
    as the functions of module Codec say. */
module Cursor {
  import opened KvStore
  import opened Paths
  import opened Values
  import opened Codec

  // ----- set -----

  /** `chain(c).set(name, v)`: encode `v` under `c:escape(name)`, then write its type tag. */
  method Set(db: Client, c: string, name: string, v: Value)
    requires Storable(v)
    modifies db
    ensures db.data == Encode(old(db.data), NodeKey(c, name), v)
    decreases Depth(v), 1
  {
    var nc := NodeKey(c, name);
    match v {
      case Str(s) =>
        Setter(db, nc, SelfName, Str(s), true);
      case Num(n) =>
        Setter(db, nc, SelfName, Str(IntToString(n)), true);
      case Bool(b) =>
        Setter(db, nc, SelfName, Num(if b then 1 else 0), true);
      case Arr(es) =>
        EncodeArray(db, nc, v);
      case Obj(fs) =>
        EncodeObject(db, nc, v);
    }
    db.Set(TypeKey(nc), TagName(v));
  }

  /** Array encode: the length as a typed child, then each element as a typed child. */
  method EncodeArray(db: Client, nc: string, v: Value)
    requires v.Arr? && Storable(v)
    modifies db
    ensures db.data == EncodeElems(Put(old(db.data), nc, LengthName, Num(|v.elems|), false), nc, v, |v.elems|)
    decreases Depth(v), 0
  {
    Setter(db, nc, LengthName, Num(|v.elems|), false);
    ghost var start := db.data;
    var i := 0;
    while i < |v.elems|
      invariant 0 <= i <= |v.elems|
      invariant db.data == EncodeElems(start, nc, v, i)
    {
      IndexIsNotSelf(i);
      Setter(db, nc, IntToString(i), v.elems[i], false);
      i := i + 1;
    }
  }

  /** Object encode: the array of key names as a typed child "keys", then
      each property as a typed child named by its key. */
  method EncodeObject(db: Client, nc: string, v: Value)
    requires v.Obj? && Storable(v)
    modifies db
    ensures db.data == EncodeFields(Put(old(db.data), nc, KeysName, KeysArray(v.fields), false), nc, v, |v.fields|)
    decreases Depth(v), 0
  {
    Setter(db, nc, KeysName, KeysArray(v.fields), false);
    ghost var start := db.data;
    var i := 0;
    while i < |v.fields|
      invariant 0 <= i <= |v.fields|
      invariant db.data == EncodeFields(start, nc, v, i)
    {
      Setter(db, nc, v.fields[i].key, v.fields[i].val, false);
      i := i + 1;
    }
  }

  /** The setter the codecs receive for the node at key `nc`. */
  method Setter(db: Client, nc: string, thing: string, x: Value, raw: bool)
    requires thing == SelfName || raw ==> x != Null
    requires thing != SelfName && !raw ==> Storable(x)
    modifies db
    ensures db.data == Put(old(db.data), nc, thing, x, raw)
    decreases Depth(x), if thing == SelfName || raw then 0 else 2
  {
    if thing == SelfName {
      db.Set(nc, JsString(x));
    } else if !raw {
      Set(db, nc, thing, x);
    } else {
      db.Set(RawKey(nc, thing), JsString(x));
    }
  }

  // ----- finish -----

  /** `chain(c).finish()`: null without a type tag, else the tag's decoder. */
  method Finish(db: Client, c: string) returns (r: Result<Value>)
    ensures r == Decode(db.data, c)
    decreases MaxLen(db.data.Keys) - |c|, 3
  {
    var tag := db.Get(TypeKey(c));
    if tag == "" {
      return Ok(Null);
    }
    MaxLenBound(db.data.Keys, TypeKey(c));
    if tag == StringTag {
      r := Getter(db, c, SelfName, true);
    } else if tag == NumberTag {
      var content := Getter(db, c, SelfName, true);
      r := AsNumber(content.value.s);
    } else if tag == BooleanTag {
      var content := Getter(db, c, SelfName, true);
      r := Ok(Bool(content.value.s == "1"));
    } else if tag == ArrayTag {
      r := FinishArray(db, c);
    } else if tag == ObjectTag {
      r := FinishObject(db, c);
    } else {
      r := Err(UnknownTag(tag));
    }
  }

  /** The getter the decoders receive for the node at path `c`. */
  method Getter(db: Client, c: string, thing: string, raw: bool) returns (r: Result<Value>)
    requires TypeKey(c) in db.data
    ensures r == Get(db.data, c, thing, raw)
    decreases MaxLen(db.data.Keys) - |c|, 0
  {
    if thing == SelfName {
      var content := db.Get(c);
      r := Ok(Str(content));
    } else if !raw {
      MaxLenBound(db.data.Keys, TypeKey(c));
      r := Finish(db, Child(c, thing));
    } else {
      var content := db.Get(RawKey(c, thing));
      r := Ok(Str(content));
    }
  }

  method FinishArray(db: Client, c: string) returns (r: Result<Value>)
    requires TypeKey(c) in db.data
    ensures r == DecodeArray(db.data, c)
    decreases MaxLen(db.data.Keys) - |c|, 2
  {
    var content := Getter(db, c, LengthName, true);
    var length := ParseNumber(content.value.s);
    if length.None? {
      return Err(NotAnInteger(content.value.s));
    }
    var n := if length.value < 0 then 0 else length.value;
    var a: seq<Value> := [];
    var i := 0;
    while i < n
      invariant 0 <= i <= n
      invariant DecodeElems(db.data, c, i) == Ok(a)
    {
      var x := Getter(db, c, IntToString(i), false);
      if x.Err? {
        ElemsErrorSticks(db.data, c, i + 1, n);
        return Err(x.fault);
      }
      a := a + [x.value];
      i := i + 1;
    }
    r := Ok(Arr(a));
  }

  method FinishObject(db: Client, c: string) returns (r: Result<Value>)
    requires TypeKey(c) in db.data
    ensures r == DecodeObject(db.data, c)
    decreases MaxLen(db.data.Keys) - |c|, 2
  {
    var keys := Getter(db, c, KeysName, false);
    if keys.Err? {
      return Err(keys.fault);
    }
    var list := KeyList(keys.value);
    if list.Err? {
      return Err(list.fault);
    }
    var ks := list.value;
    var o: seq<Entry> := [];
    var i := 0;
    while i < |ks|
      invariant 0 <= i <= |ks|
      invariant DecodeFields(db.data, c, ks, i) == Ok(o)
    {
      if ks[i] == Null {
        FieldsErrorSticks(db.data, c, ks, i + 1, |ks|);
        return Err(NullKey);
      }
      var name := JsString(ks[i]);
      var x := Getter(db, c, name, false);
      if x.Err? {
        FieldsErrorSticks(db.data, c, ks, i + 1, |ks|);
        return Err(x.fault);
      }
      o := Assign(o, name, x.value);
      i := i + 1;
    }
    r := Ok(Obj(o));
  }

  /** The first failing element read ends array decode with its fault. */
  lemma ElemsErrorSticks(m: map<string, string>, c: string, i: nat, n: nat)
    requires TypeKey(c) in m && i <= n
    requires DecodeElems(m, c, i).Err?
    ensures DecodeElems(m, c, n) == DecodeElems(m, c, i)
  {
    var j := i;
    while j < n
      invariant i <= j <= n
      invariant DecodeElems(m, c, j) == DecodeElems(m, c, i)
    {
      ElemsErrorStep(m, c, j + 1);
      j := j + 1;
    }
  }

  lemma ElemsErrorStep(m: map<string, string>, c: string, n: nat)
    requires TypeKey(c) in m && 0 < n
    requires DecodeElems(m, c, n - 1).Err?
    ensures DecodeElems(m, c, n) == DecodeElems(m, c, n - 1)
  {
  }

  /** The first failing key ends object decode with its fault. */
  lemma FieldsErrorSticks(m: map<string, string>, c: string, ks: seq<Value>, i: nat, n: nat)
    requires TypeKey(c) in m && i <= n <= |ks|
    requires DecodeFields(m, c, ks, i).Err?
    ensures DecodeFields(m, c, ks, n) == DecodeFields(m, c, ks, i)
  {
    var j := i;
    while j < n
      invariant i <= j <= n
      invariant DecodeFields(m, c, ks, j) == DecodeFields(m, c, ks, i)
    {
      FieldsErrorStep(m, c, ks, j + 1);
      j := j + 1;
    }
  }

  lemma FieldsErrorStep(m: map<string, string>, c: string, ks: seq<Value>, n: nat)
    requires TypeKey(c) in m && 0 < n <= |ks|
    requires DecodeFields(m, c, ks, n - 1).Err?
    ensures DecodeFields(m, c, ks, n) == DecodeFields(m, c, ks, n - 1)
  {
  }

  // ----- delete and reset -----

  /** `chain(c).delete(name)`: list the keys under `nc:`, add `nc` itself
      when it reads back non-empty, then delete every marked key. */
  method Delete(db: Client, c: string, name: string)
    modifies db
    ensures db.data == Deleted(old(db.data), NodeKey(c, name))
  {
    var nc := NodeKey(c, name);
    var marked := db.List(nc + [Delimiter]);
    var own := db.Get(nc);
    if own != "" {
      marked := marked + [nc];
    }
    assert forall k :: k in marked <==> k in Marked(db.data, nc);
    ghost var start := db.data;
    ghost var removed: set<string> := {};
    var i := 0;
    while i < |marked|
      invariant 0 <= i <= |marked|
      invariant removed == set j | 0 <= j < i :: marked[j]
      invariant db.data == start - removed
    {
      db.Delete(marked[i]);
      removed := removed + {marked[i]};
      i := i + 1;
    }
    assert removed == Marked(start, nc);
  }

  /** The root cursor's `reset`: delete every key the store lists. */
  method Reset(db: Client)
    modifies db
    ensures db.data == map[]
  {
    var items := db.List("");
    ghost var start := db.data;
    ghost var removed: set<string> := {};
    var i := 0;
    while i < |items|
      invariant 0 <= i <= |items|
      invariant removed == set j | 0 <= j < i :: items[j]
      invariant db.data == start - removed
    {
      db.Delete(items[i]);
      removed := removed + {items[i]};
      i := i + 1;
    }
    assert forall k :: k in start ==> HasPrefix(k, "");
  }
}
