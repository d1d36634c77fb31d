/** Which keys `set` may touch and which keys `finish` reads: both stay in
    the subtree of the node's key (the key itself and every key below
    `key:`). */
module Frame {
  import opened KvStore
  import opened Paths
  import opened Values
  import opened Codec

  /** Key `k` is present in both stores or in neither, and reads the same. */
  ghost predicate Unchanged(m1: map<string, string>, m2: map<string, string>, k: string)
  {
    (k in m1 <==> k in m2) && Lookup(m1, k) == Lookup(m2, k)
  }

  /** Every key of the subtree of `c` reads the same in both stores. */
  ghost predicate AgreeOn(m1: map<string, string>, m2: map<string, string>, c: string)
  {
    forall k :: InSubtree(k, c) ==> Lookup(m1, k) == Lookup(m2, k)
  }

  lemma NodeKeyInside(k: string, nc: string, thing: string)
    requires InSubtree(k, NodeKey(nc, thing))
    ensures InSubtree(k, nc)
  {
    ChildSubtreeInside(k, nc, Escape(thing));
  }

  lemma RawKeyInside(nc: string, thing: string)
    ensures InSubtree(RawKey(nc, thing), nc)
  {
    assert RawKey(nc, thing)[..|nc| + 1] == nc + [Delimiter];
  }

  // ----- set writes nothing outside the node's subtree -----

  lemma {:induction false} EncodeKeeps(m: map<string, string>, nc: string, v: Value, k: string)
    requires Storable(v)
    requires !InSubtree(k, nc)
    ensures Unchanged(Encode(m, nc, v), m, k)
    decreases Depth(v), 1
  {
    TypeKeyInSubtree(nc);
    match v
    case Str(_) => PutKeeps(m, nc, SelfName, v, true, k);
    case Num(_) => PutKeeps(m, nc, SelfName, v, true, k);
    case Bool(b) => PutKeeps(m, nc, SelfName, Num(if b then 1 else 0), true, k);
    case Arr(es) =>
      var m1 := Put(m, nc, LengthName, Num(|es|), false);
      PutKeeps(m, nc, LengthName, Num(|es|), false, k);
      ElemsKeep(m1, nc, v, |es|, k);
    case Obj(fs) =>
      var m1 := Put(m, nc, KeysName, KeysArray(fs), false);
      PutKeeps(m, nc, KeysName, KeysArray(fs), false, k);
      FieldsKeep(m1, nc, v, |fs|, k);
  }

  lemma {:induction false} PutKeeps(m: map<string, string>, nc: string, thing: string, x: Value, raw: bool, k: string)
    requires thing == SelfName || raw ==> x != Null
    requires thing != SelfName && !raw ==> Storable(x)
    requires !InSubtree(k, nc)
    ensures Unchanged(Put(m, nc, thing, x, raw), m, k)
    decreases Depth(x), if thing == SelfName || raw then 0 else 2
  {
    if thing == SelfName {
    } else if !raw {
      if InSubtree(k, NodeKey(nc, thing)) {
        NodeKeyInside(k, nc, thing);
      }
      EncodeKeeps(m, NodeKey(nc, thing), x, k);
    } else {
      RawKeyInside(nc, thing);
    }
  }

  lemma {:induction false} ElemsKeep(m: map<string, string>, nc: string, v: Value, n: nat, k: string)
    requires v.Arr? && Storable(v) && n <= |v.elems|
    requires !InSubtree(k, nc)
    ensures Unchanged(EncodeElems(m, nc, v, n), m, k)
    decreases Depth(v), 0, n
  {
    if n > 0 {
      IndexIsNotSelf(n - 1);
      ElemsKeep(m, nc, v, n - 1, k);
      PutKeeps(EncodeElems(m, nc, v, n - 1), nc, IntToString(n - 1), v.elems[n - 1], false, k);
    }
  }

  lemma {:induction false} FieldsKeep(m: map<string, string>, nc: string, v: Value, n: nat, k: string)
    requires v.Obj? && Storable(v) && n <= |v.fields|
    requires !InSubtree(k, nc)
    ensures Unchanged(EncodeFields(m, nc, v, n), m, k)
    decreases Depth(v), 0, n
  {
    if n > 0 {
      var f := v.fields[n - 1];
      FieldsKeep(m, nc, v, n - 1, k);
      PutKeeps(EncodeFields(m, nc, v, n - 1), nc, f.key, f.val, false, k);
    }
  }

  /** `set` at node key `nc` changes no key outside `nc` and `nc:...`:
      every key it writes is `nc` itself or starts with `nc:`. */
  lemma EncodeFrame(m: map<string, string>, nc: string, v: Value)
    requires Storable(v)
    ensures forall k :: !InSubtree(k, nc) ==> Unchanged(Encode(m, nc, v), m, k)
  {
    forall k | !InSubtree(k, nc)
      ensures Unchanged(Encode(m, nc, v), m, k)
    {
      EncodeKeeps(m, nc, v, k);
    }
  }

  /** Array elements written after index j-1 leave every key that lies
      outside their subtrees as it was. */
  lemma {:induction false} LaterElemsKeep(m: map<string, string>, nc: string, v: Value, j: nat, n: nat, k: string)
    requires v.Arr? && Storable(v) && j <= n <= |v.elems|
    requires forall i :: j <= i < n ==> !InSubtree(k, NodeKey(nc, IntToString(i)))
    ensures Unchanged(EncodeElems(m, nc, v, n), EncodeElems(m, nc, v, j), k)
    decreases n
  {
    if n > j {
      LaterElemsKeep(m, nc, v, j, n - 1, k);
      var index := IntToString(n - 1);
      IndexIsNotSelf(n - 1);
      assert !InSubtree(k, NodeKey(nc, index));
      EncodeKeeps(EncodeElems(m, nc, v, n - 1), NodeKey(nc, index), v.elems[n - 1], k);
    }
  }

  lemma {:induction false} LaterFieldsKeep(m: map<string, string>, nc: string, v: Value, j: nat, n: nat, k: string)
    requires v.Obj? && Storable(v) && j <= n <= |v.fields|
    requires forall i :: j <= i < n ==> v.fields[i].key != SelfName
    requires forall i :: j <= i < n ==> !InSubtree(k, NodeKey(nc, v.fields[i].key))
    ensures Unchanged(EncodeFields(m, nc, v, n), EncodeFields(m, nc, v, j), k)
    decreases n
  {
    if n > j {
      LaterFieldsKeep(m, nc, v, j, n - 1, k);
      var f := v.fields[n - 1];
      assert !InSubtree(k, NodeKey(nc, f.key));
      EncodeKeeps(EncodeFields(m, nc, v, n - 1), NodeKey(nc, f.key), f.val, k);
    }
  }

  // ----- finish reads nothing outside the node's subtree -----

  lemma AgreeOnChild(m1: map<string, string>, m2: map<string, string>, c: string, a: string)
    requires Delimiter !in a
    requires AgreeOn(m1, m2, c)
    ensures AgreeOn(m1, m2, c + [Delimiter] + a)
  {
    forall k | InSubtree(k, c + [Delimiter] + a)
      ensures Lookup(m1, k) == Lookup(m2, k)
    {
      ChildSubtreeInside(k, c, a);
    }
  }

  /** Two stores that agree on the subtree of `c` decode `c` alike. */
  lemma {:induction false} DecodeLocal(m1: map<string, string>, m2: map<string, string>, c: string)
    requires AgreeOn(m1, m2, c)
    ensures Decode(m1, c) == Decode(m2, c)
    decreases MaxLen(m1.Keys) - |c|, 3
  {
    TypeKeyInSubtree(c);
    var tag := Lookup(m1, TypeKey(c));
    if tag != "" {
      MaxLenBound(m1.Keys, TypeKey(c));
      GetLocal(m1, m2, c, SelfName, true);
      if tag == ArrayTag {
        GetLocal(m1, m2, c, LengthName, true);
        var length := Get(m1, c, LengthName, true).value.s;
        match ParseNumber(length)
        case None =>
        case Some(n) => ElemsLocal(m1, m2, c, if n < 0 then 0 else n);
      } else if tag == ObjectTag {
        GetLocal(m1, m2, c, KeysName, false);
        match Get(m1, c, KeysName, false)
        case Err(_) =>
        case Ok(keys) =>
          match KeyList(keys)
          case Err(_) =>
          case Ok(ks) =>
            forall i | 0 <= i < |ks| && ks[i] != Null
              ensures Get(m1, c, JsString(ks[i]), false) == Get(m2, c, JsString(ks[i]), false)
            {
              GetLocal(m1, m2, c, JsString(ks[i]), false);
            }
            FieldsLocal(m1, m2, c, ks, |ks|);
      }
    }
  }

  lemma {:induction false} GetLocal(m1: map<string, string>, m2: map<string, string>, c: string, thing: string, raw: bool)
    requires AgreeOn(m1, m2, c)
    requires TypeKey(c) in m1 && TypeKey(c) in m2
    ensures Get(m1, c, thing, raw) == Get(m2, c, thing, raw)
    decreases MaxLen(m1.Keys) - |c|, 0
  {
    if thing == SelfName {
    } else if !raw {
      MaxLenBound(m1.Keys, TypeKey(c));
      AgreeOnChild(m1, m2, c, Segment(thing));
      DecodeLocal(m1, m2, Child(c, thing));
    } else {
      RawKeyInside(c, thing);
    }
  }

  lemma {:induction false} ElemsLocal(m1: map<string, string>, m2: map<string, string>, c: string, n: nat)
    requires AgreeOn(m1, m2, c)
    requires TypeKey(c) in m1 && TypeKey(c) in m2
    ensures DecodeElems(m1, c, n) == DecodeElems(m2, c, n)
    decreases MaxLen(m1.Keys) - |c|, 1, n
  {
    if n > 0 {
      ElemsLocal(m1, m2, c, n - 1);
      GetLocal(m1, m2, c, IntToString(n - 1), false);
    }
  }

  lemma FieldsLocal(m1: map<string, string>, m2: map<string, string>, c: string, ks: seq<Value>, n: nat)
    requires TypeKey(c) in m1 && TypeKey(c) in m2 && n <= |ks|
    requires forall i :: 0 <= i < n && ks[i] != Null ==>
               Get(m1, c, JsString(ks[i]), false) == Get(m2, c, JsString(ks[i]), false)
    ensures DecodeFields(m1, c, ks, n) == DecodeFields(m2, c, ks, n)
  {
    var j := 0;
    while j < n
      invariant j <= n
      invariant DecodeFields(m1, c, ks, j) == DecodeFields(m2, c, ks, j)
    {
      FieldsAlike(m1, m2, c, ks, j + 1);
      j := j + 1;
    }
  }

  /** Object decode's loop reads alike in two stores once its earlier
      passes and its next read do. */
  lemma FieldsAlike(m1: map<string, string>, m2: map<string, string>, c: string, ks: seq<Value>, n: nat)
    requires TypeKey(c) in m1 && TypeKey(c) in m2 && 0 < n <= |ks|
    requires DecodeFields(m1, c, ks, n - 1) == DecodeFields(m2, c, ks, n - 1)
    requires ks[n - 1] != Null ==> Get(m1, c, JsString(ks[n - 1]), false) == Get(m2, c, JsString(ks[n - 1]), false)
    ensures DecodeFields(m1, c, ks, n) == DecodeFields(m2, c, ks, n)
  {
  }
}
