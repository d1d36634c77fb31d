/** What `set` leaves in the store is what `finish` reads back: the node
    layout each codec produces, and the round trip for every well-formed
    value, whatever the store held before. */
module RoundTrip {
  import opened KvStore
  import opened Paths
  import opened Values
  import opened Codec
  import opened Frame

  lemma {:induction false} WellFormedIsStorable(v: Value)
    requires WellFormed(v)
    ensures Storable(v)
  {
    match v
    case Arr(es) =>
      forall i | 0 <= i < |es| ensures Storable(es[i]) { WellFormedIsStorable(es[i]); }
    case Obj(fs) =>
      forall i | 0 <= i < |fs| ensures Storable(fs[i].val) { WellFormedIsStorable(fs[i].val); }
    case _ =>
  }

  lemma TypeKeyIsNotNodeKey(nc: string)
    ensures TypeKey(nc) != nc
  {
    assert |TypeKey(nc)| == |nc| + |TypeSuffix|;
  }

  /** Index names are plain digit strings: escaping keeps them. */
  lemma IndexEscape(i: int)
    ensures Escape(IntToString(i)) == IntToString(i)
    ensures IntToString(i) != "" && IntToString(i) != SelfName
  {
    var s := IntToString(i);
    assert s[0] != SelfName[0];
    assert Delimiter !in s by {
      forall j | 0 <= j < |s| ensures s[j] != Delimiter { }
    }
    EscapeKeepsColonFree(s);
  }

  lemma IndexSubtreesDisjoint(k: string, nc: string, i: int, j: int)
    requires i != j
    ensures !(InSubtree(k, NodeKey(nc, IntToString(i))) && InSubtree(k, NodeKey(nc, IntToString(j))))
  {
    IndexEscape(i);
    IndexEscape(j);
    if IntToString(i) == IntToString(j) {
      IntToStringInjective(i, j);
    }
    SiblingSubtreesDisjoint(k, nc, IntToString(i), IntToString(j));
  }

  lemma LengthOutsideIndices(k: string, nc: string, i: int)
    requires InSubtree(k, NodeKey(nc, LengthName))
    ensures !InSubtree(k, NodeKey(nc, IntToString(i)))
  {
    IndexEscape(i);
    EscapeKeepsColonFree(LengthName);
    assert IntToString(i)[0] != LengthName[0];
    SiblingSubtreesDisjoint(k, nc, LengthName, IntToString(i));
  }

  /** The "length" a decoder reads raw is the key of the typed "length" child. */
  lemma LengthRawIsTyped(nc: string)
    ensures RawKey(nc, LengthName) == NodeKey(nc, LengthName)
  {
    EscapeKeepsColonFree(LengthName);
  }

  // ----- scalars -----

  /** String, Number and Boolean nodes: the text at the node's own key and the tag. */
  lemma ScalarLayout(m: map<string, string>, nc: string, v: Value)
    requires v.Str? || v.Num? || v.Bool?
    ensures v.Str? ==> Lookup(Encode(m, nc, v), nc) == v.s
    ensures v.Num? ==> Lookup(Encode(m, nc, v), nc) == IntToString(v.n)
    ensures v.Bool? ==> Lookup(Encode(m, nc, v), nc) == (if v.b then "1" else "0")
    ensures Lookup(Encode(m, nc, v), TypeKey(nc)) == TagName(v)
  {
    TypeKeyIsNotNodeKey(nc);
    assert IntToString(1) == "1";
    assert IntToString(0) == "0";
  }

  /** A Boolean node decodes to true exactly when its text is "1"; an
      absent text reads "" and so decodes to false. */
  lemma BooleanDecode(m: map<string, string>, c: string)
    requires Lookup(m, TypeKey(c)) == BooleanTag
    ensures Decode(m, c) == Ok(Bool(c in m && m[c] == "1"))
  {
  }

  lemma ScalarRoundTrip(m: map<string, string>, nc: string, v: Value)
    requires v.Str? || v.Num? || v.Bool?
    ensures Decode(Encode(m, nc, v), nc) == Ok(v)
  {
    ScalarLayout(m, nc, v);
    if v.Num? {
      IntToStringRoundTrip(v.n);
    }
  }

  // ----- the round trip -----

  /** After `set` of a well-formed value at `nc`, `finish` at `nc` gives it back. */
  lemma {:induction false} EncodeDecode(m: map<string, string>, nc: string, v: Value)
    requires WellFormed(v)
    ensures Storable(v) && Decode(Encode(m, nc, v), nc) == Ok(v)
    decreases Depth(v), 1
  {
    WellFormedIsStorable(v);
    match v
    case Arr(es) => ArrayRoundTrip(m, nc, v);
    case Obj(fs) => ObjectRoundTrip(m, nc, v);
    case _ => ScalarRoundTrip(m, nc, v);
  }

  lemma {:induction false} ArrayRoundTrip(m: map<string, string>, nc: string, v: Value)
    requires v.Arr? && WellFormed(v)
    ensures Storable(v) && Decode(Encode(m, nc, v), nc) == Ok(v)
    decreases Depth(v), 0, 1
  {
    WellFormedIsStorable(v);
    var mm := Encode(m, nc, v);
    ArrayLength(m, nc, v);
    LengthRawIsTyped(nc);
    forall i | 0 <= i < |v.elems|
      ensures Decode(mm, NodeKey(nc, IntToString(i))) == Ok(v.elems[i])
    {
      ElemNode(m, nc, v, i);
    }
    ArrayShape(m, nc, v);
    DecodeArrayOf(mm, nc, v.elems);
  }

  lemma {:induction false} ObjectRoundTrip(m: map<string, string>, nc: string, v: Value)
    requires v.Obj? && WellFormed(v)
    ensures Storable(v) && Decode(Encode(m, nc, v), nc) == Ok(v)
    decreases Depth(v), 0, |v.fields| + 2
  {
    WellFormedIsStorable(v);
    var fs := v.fields;
    var mm := Encode(m, nc, v);
    KeysNode(m, nc, v);
    FieldNodes(m, nc, v, |fs|);
    assert fs[..|fs|] == fs;
    ObjectShape(m, nc, v);
    assert Distinct(Keys(fs));
    DecodeObjectOf(mm, nc, fs);
  }

  lemma {:induction false} FieldNodes(m: map<string, string>, nc: string, v: Value, j: nat)
    requires v.Obj? && WellFormed(v) && j <= |v.fields|
    ensures Storable(v)
    ensures FieldsDecode(Encode(m, nc, v), nc, v.fields[..j])
    decreases Depth(v), 0, j + 1
  {
    WellFormedIsStorable(v);
    if j > 0 {
      FieldNodes(m, nc, v, j - 1);
      FieldNode(m, nc, v, j - 1);
      FieldsDecodeExtend(Encode(m, nc, v), nc, v.fields, j);
    }
  }

  lemma FieldsDecodeExtend(mm: map<string, string>, nc: string, fs: seq<Entry>, j: nat)
    requires 0 < j <= |fs|
    requires FieldsDecode(mm, nc, fs[..j - 1])
    requires Decode(mm, NodeKey(nc, fs[j - 1].key)) == Ok(fs[j - 1].val)
    ensures FieldsDecode(mm, nc, fs[..j])
  {
    assert fs[..j][..j - 1] == fs[..j - 1];
  }

  /** Every field's named child decodes to the field's value. */
  ghost predicate FieldsDecode(mm: map<string, string>, nc: string, fs: seq<Entry>)
    decreases |fs|
  {
    fs != [] ==>
      FieldsDecode(mm, nc, fs[..|fs| - 1])
      && Decode(mm, NodeKey(nc, fs[|fs| - 1].key)) == Ok(fs[|fs| - 1].val)
  }

  // ----- decoding a store laid out as the encoders lay it out -----

  /** An Array-tagged node whose raw "length" is n and whose children 0 .. n-1
      decode to the elements decodes to the array. */
  lemma DecodeArrayOf(mm: map<string, string>, nc: string, es: seq<Value>)
    requires Lookup(mm, TypeKey(nc)) == ArrayTag
    requires Lookup(mm, RawKey(nc, LengthName)) == IntToString(|es|)
    requires forall i :: 0 <= i < |es| ==> Decode(mm, NodeKey(nc, IntToString(i))) == Ok(es[i])
    ensures Decode(mm, nc) == Ok(Arr(es))
  {
    DecodeElemsOf(mm, nc, es, |es|);
    assert es[..|es|] == es;
    DecodeArrayFrom(mm, nc, es);
  }

  lemma DecodeArrayFrom(mm: map<string, string>, nc: string, es: seq<Value>)
    requires Lookup(mm, TypeKey(nc)) == ArrayTag
    requires Lookup(mm, RawKey(nc, LengthName)) == IntToString(|es|)
    requires DecodeElems(mm, nc, |es|) == Ok(es)
    ensures Decode(mm, nc) == Ok(Arr(es))
  {
    assert TypeKey(nc) in mm;
    DecodeArrayBody(mm, nc, es);
  }

  lemma DecodeArrayBody(mm: map<string, string>, nc: string, es: seq<Value>)
    requires TypeKey(nc) in mm
    requires Lookup(mm, RawKey(nc, LengthName)) == IntToString(|es|)
    requires DecodeElems(mm, nc, |es|) == Ok(es)
    ensures DecodeArray(mm, nc) == Ok(Arr(es))
  {
    IntToStringRoundTrip(|es|);
  }

  lemma {:induction false} DecodeElemsOf(mm: map<string, string>, nc: string, es: seq<Value>, j: nat)
    requires TypeKey(nc) in mm && j <= |es|
    requires forall i :: 0 <= i < |es| ==> Decode(mm, NodeKey(nc, IntToString(i))) == Ok(es[i])
    ensures DecodeElems(mm, nc, j) == Ok(es[..j])
  {
    if j > 0 {
      assert es[..j] == es[..j - 1] + [es[j - 1]];
      DecodeElemsOf(mm, nc, es, j - 1);
      IndexEscape(j - 1);
      GetChild(mm, nc, IntToString(j - 1));
      DecodeElemStep(mm, nc, j, es[..j - 1], es[j - 1]);
    }
  }

  /** A typed read of a named child is that child's `finish`. */
  lemma GetChild(mm: map<string, string>, nc: string, name: string)
    requires TypeKey(nc) in mm && name != "" && name != SelfName
    ensures Get(mm, nc, name, false) == Decode(mm, NodeKey(nc, name))
  {
    ChildIsNodeKey(nc, name);
  }

  /** One pass of array decode's loop. */
  lemma DecodeElemStep(mm: map<string, string>, nc: string, j: nat, done: seq<Value>, x: Value)
    requires TypeKey(nc) in mm && 0 < j
    requires DecodeElems(mm, nc, j - 1) == Ok(done)
    requires Get(mm, nc, IntToString(j - 1), false) == Ok(x)
    ensures DecodeElems(mm, nc, j) == Ok(done + [x])
  {
  }

  /** An Object-tagged node whose "keys" child decodes to the key names and
      whose named children decode to the values decodes to the object. */
  lemma DecodeObjectOf(mm: map<string, string>, nc: string, fs: seq<Entry>)
    requires Lookup(mm, TypeKey(nc)) == ObjectTag
    requires Decode(mm, NodeKey(nc, KeysName)) == Ok(KeysArray(fs))
    requires forall i :: 0 <= i < |fs| ==> fs[i].key != "" && fs[i].key != SelfName
    requires Distinct(Keys(fs))
    requires FieldsDecode(mm, nc, fs)
    ensures Decode(mm, nc) == Ok(Obj(fs))
  {
    assert TypeKey(nc) in mm;
    assert fs[..|fs|] == fs;
    DecodeFieldsOf(mm, nc, fs, |fs|);
    DecodeObjectFrom(mm, nc, fs);
  }

  lemma DecodeObjectFrom(mm: map<string, string>, nc: string, fs: seq<Entry>)
    requires Lookup(mm, TypeKey(nc)) == ObjectTag
    requires Decode(mm, NodeKey(nc, KeysName)) == Ok(KeysArray(fs))
    requires DecodeFields(mm, nc, KeysArray(fs).elems, |fs|) == Ok(fs)
    ensures Decode(mm, nc) == Ok(Obj(fs))
  {
    assert TypeKey(nc) in mm;
    ChildIsNodeKey(nc, KeysName);
    DecodeObjectBody(mm, nc, fs);
  }

  lemma DecodeObjectBody(mm: map<string, string>, nc: string, fs: seq<Entry>)
    requires TypeKey(nc) in mm
    requires Get(mm, nc, KeysName, false) == Ok(KeysArray(fs))
    requires DecodeFields(mm, nc, KeysArray(fs).elems, |fs|) == Ok(fs)
    ensures DecodeObject(mm, nc) == Ok(Obj(fs))
  {
  }

  lemma {:induction false} DecodeFieldsOf(mm: map<string, string>, nc: string, fs: seq<Entry>, j: nat)
    requires TypeKey(nc) in mm && j <= |fs|
    requires forall i :: 0 <= i < |fs| ==> fs[i].key != "" && fs[i].key != SelfName
    requires Distinct(Keys(fs))
    requires FieldsDecode(mm, nc, fs[..j])
    ensures DecodeFields(mm, nc, KeysArray(fs).elems, j) == Ok(fs[..j])
  {
    if j == 0 {
      assert fs[..j] == [];
    } else {
      var f := fs[j - 1];
      assert fs[..j] == fs[..j - 1] + [f];
      assert fs[..j][..j - 1] == fs[..j - 1];
      DecodeFieldsOf(mm, nc, fs, j - 1);
      var ks := KeysArray(fs).elems;
      FreshKey(fs, j - 1);
      assert ks[j - 1] == Str(f.key);
      DecodeFieldStep(mm, nc, ks, j, fs[..j - 1], f);
    }
  }

  /** One pass of object decode's loop over a fresh, non-empty key name. */
  lemma DecodeFieldStep(mm: map<string, string>, nc: string, ks: seq<Value>, j: nat, done: seq<Entry>, f: Entry)
    requires TypeKey(nc) in mm && 0 < j <= |ks|
    requires DecodeFields(mm, nc, ks, j - 1) == Ok(done)
    requires ks[j - 1] == Str(f.key) && f.key != "" && f.key != SelfName && f.key !in Keys(done)
    requires Decode(mm, NodeKey(nc, f.key)) == Ok(f.val)
    ensures DecodeFields(mm, nc, ks, j) == Ok(done + [f])
  {
    GetChild(mm, nc, f.key);
  }

  /** The array store: the "length" child, then the elements, then the tag. */
  lemma ArrayShape(m: map<string, string>, nc: string, v: Value)
    requires v.Arr? && Storable(v)
    ensures Encode(m, nc, v)
         == EncodeElems(Put(m, nc, LengthName, Num(|v.elems|), false), nc, v, |v.elems|)[TypeKey(nc) := ArrayTag]
  {
  }

  /** The object store: the "keys" child, then the fields, then the tag. */
  lemma ObjectShape(m: map<string, string>, nc: string, v: Value)
    requires v.Obj? && Storable(v)
    ensures Encode(m, nc, v)
         == EncodeFields(Put(m, nc, KeysName, KeysArray(v.fields), false), nc, v, |v.fields|)[TypeKey(nc) := ObjectTag]
  {
  }

  /** Elements j .. written after a child `nc:a` leave that child's subtree
      as it was, and so does the type tag written last. */
  lemma ElemsAgreeOnChild(m1: map<string, string>, nc: string, v: Value, j: nat, a: string)
    requires v.Arr? && Storable(v) && j <= |v.elems|
    requires Delimiter !in a && a != ""
    requires forall i :: j <= i < |v.elems| ==> IntToString(i) != a
    ensures AgreeOn(EncodeElems(m1, nc, v, |v.elems|)[TypeKey(nc) := ArrayTag],
                    EncodeElems(m1, nc, v, j), nc + [Delimiter] + a)
  {
    var n := |v.elems|;
    forall k | InSubtree(k, nc + [Delimiter] + a)
      ensures Lookup(EncodeElems(m1, nc, v, n)[TypeKey(nc) := ArrayTag], k)
           == Lookup(EncodeElems(m1, nc, v, j), k)
    {
      OwnKeysOutsideChildren(nc, a);
      forall i | j <= i < n ensures !InSubtree(k, NodeKey(nc, IntToString(i))) {
        IndexEscape(i);
        SiblingSubtreesDisjoint(k, nc, a, IntToString(i));
      }
      LaterElemsKeep(m1, nc, v, j, n, k);
    }
  }

  /** The same for the fields of an object. */
  lemma FieldsAgreeOnChild(m1: map<string, string>, nc: string, v: Value, j: nat, a: string)
    requires v.Obj? && WellFormed(v) && Storable(v) && j <= |v.fields|
    requires Delimiter !in a && a != ""
    requires forall i :: j <= i < |v.fields| ==> Escape(v.fields[i].key) != a
    ensures AgreeOn(EncodeFields(m1, nc, v, |v.fields|)[TypeKey(nc) := ObjectTag],
                    EncodeFields(m1, nc, v, j), nc + [Delimiter] + a)
  {
    var fs := v.fields;
    forall k | InSubtree(k, nc + [Delimiter] + a)
      ensures Lookup(EncodeFields(m1, nc, v, |fs|)[TypeKey(nc) := ObjectTag], k)
           == Lookup(EncodeFields(m1, nc, v, j), k)
    {
      OwnKeysOutsideChildren(nc, a);
      forall i | j <= i < |fs| ensures !InSubtree(k, NodeKey(nc, fs[i].key)) {
        SiblingSubtreesDisjoint(k, nc, a, Escape(fs[i].key));
      }
      LaterFieldsKeep(m1, nc, v, j, |fs|, k);
    }
  }

  /** The "length" child holds the element count as decimal text. */
  lemma ArrayLength(m: map<string, string>, nc: string, v: Value)
    requires v.Arr? && Storable(v)
    ensures Lookup(Encode(m, nc, v), NodeKey(nc, LengthName)) == IntToString(|v.elems|)
    ensures Decode(Encode(m, nc, v), NodeKey(nc, LengthName)) == Ok(Num(|v.elems|))
  {
    var n := |v.elems|;
    var len := NodeKey(nc, LengthName);
    var m1 := Put(m, nc, LengthName, Num(n), false);
    LengthAgree(m, nc, v);
    PutIsEncode(m, nc, LengthName, Num(n));
    ScalarRoundTrip(m, len, Num(n));
    ScalarLayout(m, len, Num(n));
    assert InSubtree(len, len);
    DecodeLocal(Encode(m, nc, v), m1, len);
  }

  /** Writing the elements and the tag leaves the "length" child as its own write left it. */
  lemma LengthAgree(m: map<string, string>, nc: string, v: Value)
    requires v.Arr? && Storable(v)
    ensures AgreeOn(Encode(m, nc, v), Put(m, nc, LengthName, Num(|v.elems|), false), NodeKey(nc, LengthName))
  {
    var n := |v.elems|;
    EscapeKeepsColonFree(LengthName);
    forall i | 0 <= i < n ensures IntToString(i) != LengthName {
      IndexIsNotLength(i);
    }
    ElemsAgreeOnChild(Put(m, nc, LengthName, Num(n), false), nc, v, 0, LengthName);
    ArrayShape(m, nc, v);
  }

  lemma IndexIsNotLength(i: int)
    ensures IntToString(i) != LengthName
  {
    assert IntToString(i)[0] != LengthName[0];
  }

  /** Element j of an encoded array is a full typed node holding that element. */
  lemma {:induction false} ElemNode(m: map<string, string>, nc: string, v: Value, j: nat)
    requires v.Arr? && WellFormed(v) && j < |v.elems|
    ensures Storable(v)
    ensures Decode(Encode(m, nc, v), NodeKey(nc, IntToString(j))) == Ok(v.elems[j])
    decreases Depth(v), 0, 0
  {
    WellFormedIsStorable(v);
    var n := |v.elems|;
    var m1 := Put(m, nc, LengthName, Num(n), false);
    var index := IntToString(j);
    var q := NodeKey(nc, index);
    IndexEscape(j);
    var before := EncodeElems(m1, nc, v, j);
    var after := EncodeElems(m1, nc, v, j + 1);
    ElemWrite(m1, nc, v, j);
    EncodeDecode(before, q, v.elems[j]);
    forall i | j + 1 <= i < n ensures IntToString(i) != index {
      if IntToString(i) == index {
        IntToStringInjective(i, j);
      }
    }
    ElemsAgreeOnChild(m1, nc, v, j + 1, index);
    ArrayShape(m, nc, v);
    DecodeLocal(Encode(m, nc, v), after, q);
  }

  /** Writing element j is encoding it at its typed child. */
  lemma ElemWrite(m1: map<string, string>, nc: string, v: Value, j: nat)
    requires v.Arr? && Storable(v) && j < |v.elems|
    ensures EncodeElems(m1, nc, v, j + 1) == Encode(EncodeElems(m1, nc, v, j), NodeKey(nc, IntToString(j)), v.elems[j])
  {
    IndexIsNotSelf(j);
    assert EncodeElems(m1, nc, v, j + 1) == Put(EncodeElems(m1, nc, v, j), nc, IntToString(j), v.elems[j], false);
  }

  /** No field name escapes to "keys" in a well-formed object. */
  lemma KeysNameFree(v: Value)
    requires v.Obj? && WellFormed(v)
    ensures forall i :: 0 <= i < |v.fields| ==> Escape(v.fields[i].key) != KeysName
  {
    forall i | 0 <= i < |v.fields| ensures Escape(v.fields[i].key) != KeysName {
      if Escape(v.fields[i].key) == KeysName {
        EscapeOfDollarFree(v.fields[i].key, KeysName);
      }
    }
  }

  /** The "keys" child is an Array node listing the key names in order. */
  lemma KeysNode(m: map<string, string>, nc: string, v: Value)
    requires v.Obj? && WellFormed(v)
    ensures Storable(v)
    ensures Decode(Encode(m, nc, v), NodeKey(nc, KeysName)) == Ok(KeysArray(v.fields))
    decreases Depth(v), 0, 1
  {
    WellFormedIsStorable(v);
    KeysChild(m, nc, v);
    KeysAgree(m, nc, v);
    DecodeLocal(Encode(m, nc, v), Put(m, nc, KeysName, KeysArray(v.fields), false), NodeKey(nc, KeysName));
  }

  /** Right after the "keys" child is written it decodes to the key names. */
  lemma KeysChild(m: map<string, string>, nc: string, v: Value)
    requires v.Obj? && WellFormed(v)
    ensures Decode(Put(m, nc, KeysName, KeysArray(v.fields), false), NodeKey(nc, KeysName)) == Ok(KeysArray(v.fields))
    decreases Depth(v), 0, 0
  {
    PutIsEncode(m, nc, KeysName, KeysArray(v.fields));
    EncodeDecode(m, NodeKey(nc, KeysName), KeysArray(v.fields));
  }

  /** A typed field is written as a whole child node. */
  lemma PutIsEncode(m: map<string, string>, nc: string, thing: string, x: Value)
    requires thing != SelfName && Storable(x)
    ensures Put(m, nc, thing, x, false) == Encode(m, NodeKey(nc, thing), x)
  {
  }

  lemma KeysAgree(m: map<string, string>, nc: string, v: Value)
    requires v.Obj? && WellFormed(v) && Storable(v)
    ensures AgreeOn(Encode(m, nc, v), Put(m, nc, KeysName, KeysArray(v.fields), false), NodeKey(nc, KeysName))
  {
    var m1 := Put(m, nc, KeysName, KeysArray(v.fields), false);
    EscapeKeepsColonFree(KeysName);
    assert NodeKey(nc, KeysName) == nc + [Delimiter] + KeysName;
    assert EncodeFields(m1, nc, v, 0) == m1;
    KeysNameFree(v);
    FieldsAgreeOnChild(m1, nc, v, 0, KeysName);
    ObjectShape(m, nc, v);
  }

  /** Field j of an encoded object is a full typed node holding its value. */
  lemma {:induction false} FieldNode(m: map<string, string>, nc: string, v: Value, j: nat)
    requires v.Obj? && WellFormed(v) && j < |v.fields|
    ensures Storable(v)
    ensures Decode(Encode(m, nc, v), NodeKey(nc, v.fields[j].key)) == Ok(v.fields[j].val)
    decreases Depth(v), 0, 0
  {
    WellFormedIsStorable(v);
    var fs := v.fields;
    var m1 := Put(m, nc, KeysName, KeysArray(fs), false);
    var q := NodeKey(nc, fs[j].key);
    FieldWrite(m1, nc, v, j);
    EncodeDecode(EncodeFields(m1, nc, v, j), q, fs[j].val);
    FieldAgree(m, nc, v, j);
    DecodeLocal(Encode(m, nc, v), EncodeFields(m1, nc, v, j + 1), q);
  }

  /** The fields after j and the tag leave field j's child as its own write left it. */
  lemma FieldAgree(m: map<string, string>, nc: string, v: Value, j: nat)
    requires v.Obj? && WellFormed(v) && Storable(v) && j < |v.fields|
    ensures AgreeOn(Encode(m, nc, v), EncodeFields(Put(m, nc, KeysName, KeysArray(v.fields), false), nc, v, j + 1),
                    NodeKey(nc, v.fields[j].key))
  {
    var fs := v.fields;
    var m1 := Put(m, nc, KeysName, KeysArray(fs), false);
    var a := Escape(fs[j].key);
    assert forall i :: j + 1 <= i < |fs| ==> Escape(fs[i].key) != a;
    FieldsAgreeOnChild(m1, nc, v, j + 1, a);
    ObjectShape(m, nc, v);
  }

  /** Writing field j is encoding its value at the child named by its key. */
  lemma FieldWrite(m1: map<string, string>, nc: string, v: Value, j: nat)
    requires v.Obj? && Storable(v) && j < |v.fields| && v.fields[j].key != SelfName
    ensures Storable(v.fields[j].val)
    ensures EncodeFields(m1, nc, v, j + 1) == Encode(EncodeFields(m1, nc, v, j), NodeKey(nc, v.fields[j].key), v.fields[j].val)
  {
    assert EncodeFields(m1, nc, v, j + 1) == Put(EncodeFields(m1, nc, v, j), nc, v.fields[j].key, v.fields[j].val, false);
  }

  /** Under distinct escaped names, field j's name does not occur before it. */
  lemma FreshKey(fs: seq<Entry>, j: nat)
    requires j < |fs|
    requires Distinct(Keys(fs))
    ensures fs[j].key !in Keys(fs[..j])
  {
  }

  /** `set(name, v)` then `get(name).finish()` gives `v` back, for a
      non-empty name and a well-formed value, whatever the store held. */
  lemma SetThenGet(m: map<string, string>, c: string, name: string, v: Value)
    requires name != "" && WellFormed(v)
    ensures Storable(v)
    ensures Decode(Encode(m, NodeKey(c, name), v), Child(c, name)) == Ok(v)
  {
    ChildIsNodeKey(c, name);
    EncodeDecode(m, NodeKey(c, name), v);
  }
}
