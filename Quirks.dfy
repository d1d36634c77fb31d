/** Behaviour of the key layout outside the round-trip domain: the empty
    name, which `get` and `set`/`delete` spell differently, and object keys
    that collide with the names the object codec uses for itself. */
module Quirks {
  import opened KvStore
  import opened Paths
  import opened Values
  import opened Codec
  import opened Frame
  import opened RoundTrip

  /** A key under the node `c:$EMPTY` has '$' right after `c:`. */
  lemma EmptySentinelShape(c: string, k: string)
    requires InSubtree(k, Child(c, ""))
    ensures |k| > |c| + 1 && k[..|c| + 1] == c + [Delimiter] && k[|c| + 1] == '$'
  {
    var q := Child(c, "");
    assert k[..|q|] == q;
    assert k[..|c| + 1] == q[..|c| + 1];
    assert k[|c| + 1] == q[|c| + 1];
  }

  /** `set("", v)` writes the node `c:`, while `get("")` reads `c:$EMPTY`:
      the value is not found again (here: where nothing was there before). */
  lemma EmptyNameSetIsLost(m: map<string, string>, c: string, v: Value)
    requires Storable(v)
    requires Lookup(m, TypeKey(Child(c, ""))) == ""
    ensures Decode(Encode(m, NodeKey(c, ""), v), Child(c, "")) == Ok(Null)
  {
    var nc := NodeKey(c, "");
    var q := Child(c, "");
    TypeKeyInSubtree(q);
    assert InSubtree(TypeKey(q), q);
    EmptySentinelShape(c, TypeKey(q));
    assert !InSubtree(TypeKey(q), nc);
    EncodeKeeps(m, nc, v, TypeKey(q));
  }

  /** `delete("")` lists the keys under `c::`, among them the parent's own
      type tag `c::type`: the parent node itself then reads back as null. */
  lemma EmptyNameDeleteDropsParentTag(m: map<string, string>, c: string)
    ensures TypeKey(c) !in Deleted(m, NodeKey(c, ""))
    ensures Decode(Deleted(m, NodeKey(c, "")), c) == Ok(Null)
  {
    assert NodeKey(c, "") + [Delimiter] == c + "::";
    assert TypeKey(c)[..|c| + 2] == c + "::";
  }

  /** ... and leaves the node `get("")` reads untouched. */
  lemma EmptyNameDeleteMissesNode(m: map<string, string>, c: string)
    ensures Decode(Deleted(m, NodeKey(c, "")), Child(c, "")) == Decode(m, Child(c, ""))
  {
    var nc := NodeKey(c, "");
    forall k | InSubtree(k, Child(c, ""))
      ensures Lookup(Deleted(m, nc), k) == Lookup(m, k)
    {
      EmptySentinelShape(c, k);
      assert k != nc;
      assert !HasPrefix(k, nc + [Delimiter]);
    }
    DecodeLocal(Deleted(m, nc), m, Child(c, ""));
  }

  /** An object with one field: the "keys" child, the field, the tag. */
  lemma SingleFieldShape(m: map<string, string>, nc: string, f: Entry)
    requires Storable(Obj([f]))
    ensures Encode(m, nc, Obj([f]))
         == Put(Put(m, nc, KeysName, KeysArray([f]), false), nc, f.key, f.val, false)[TypeKey(nc) := ObjectTag]
  {
    var m1 := Put(m, nc, KeysName, KeysArray([f]), false);
    ObjectShape(m, nc, Obj([f]));
    assert EncodeFields(m1, nc, Obj([f]), 1) == Put(EncodeFields(m1, nc, Obj([f]), 0), nc, f.key, f.val, false);
  }

  /** Writing the node's own text or its type tag leaves every named child as it decodes. */
  lemma OwnWritesKeepChild(mm: map<string, string>, nc: string, name: string, text: string, tag: string)
    requires name != ""
    ensures Decode(mm[nc := text], NodeKey(nc, name)) == Decode(mm, NodeKey(nc, name))
    ensures Decode(mm[TypeKey(nc) := tag], NodeKey(nc, name)) == Decode(mm, NodeKey(nc, name))
  {
    OwnKeysOutsideChildren(nc, Escape(name));
    assert AgreeOn(mm[nc := text], mm, NodeKey(nc, name));
    assert AgreeOn(mm[TypeKey(nc) := tag], mm, NodeKey(nc, name));
    DecodeLocal(mm[nc := text], mm, NodeKey(nc, name));
    DecodeLocal(mm[TypeKey(nc) := tag], mm, NodeKey(nc, name));
  }

  /** An object field named "self" is written raw to the object's own key;
      reading it back gives that text as a string. */
  lemma SelfFieldReadsText(m: map<string, string>, nc: string, n: int)
    ensures Storable(Obj([Entry(SelfName, Num(n))]))
    ensures Decode(Encode(m, nc, Obj([Entry(SelfName, Num(n))])), nc)
         == Ok(Obj([Entry(SelfName, Str(IntToString(n)))]))
  {
    var m1 := Put(m, nc, KeysName, Arr([Str(SelfName)]), false);
    var m2 := m1[nc := IntToString(n)];
    SelfFieldShape(m, nc, n);
    SelfKeysChild(m, nc);
    OwnWritesKeepChild(m1, nc, KeysName, IntToString(n), ObjectTag);
    OwnWritesKeepChild(m2, nc, KeysName, IntToString(n), ObjectTag);
    DecodeSelfObject(m2[TypeKey(nc) := ObjectTag], nc, IntToString(n));
  }

  lemma SelfFieldShape(m: map<string, string>, nc: string, n: int)
    ensures Storable(Obj([Entry(SelfName, Num(n))]))
    ensures Encode(m, nc, Obj([Entry(SelfName, Num(n))]))
         == Put(m, nc, KeysName, Arr([Str(SelfName)]), false)[nc := IntToString(n)][TypeKey(nc) := ObjectTag]
  {
    var fs := [Entry(SelfName, Num(n))];
    assert KeysArray(fs) == Arr([Str(SelfName)]);
    SingleFieldShape(m, nc, fs[0]);
  }

  lemma SelfKeysChild(m: map<string, string>, nc: string)
    ensures Decode(Put(m, nc, KeysName, Arr([Str(SelfName)]), false), NodeKey(nc, KeysName)) == Ok(Arr([Str(SelfName)]))
  {
    PutIsEncode(m, nc, KeysName, Arr([Str(SelfName)]));
    EncodeDecode(m, NodeKey(nc, KeysName), Arr([Str(SelfName)]));
  }

  lemma DecodeSelfObject(mm: map<string, string>, nc: string, text: string)
    requires Lookup(mm, TypeKey(nc)) == ObjectTag && Lookup(mm, nc) == text
    requires Decode(mm, NodeKey(nc, KeysName)) == Ok(Arr([Str(SelfName)]))
    ensures Decode(mm, nc) == Ok(Obj([Entry(SelfName, Str(text))]))
  {
    assert TypeKey(nc) in mm;
    ChildIsNodeKey(nc, KeysName);
    assert DecodeFields(mm, nc, [Str(SelfName)], 1) == Ok([Entry(SelfName, Str(text))]);
    assert KeysArray([Entry(SelfName, Str(text))]) == Arr([Str(SelfName)]);
    DecodeObjectBody(mm, nc, [Entry(SelfName, Str(text))]);
  }

  /** An object field named "keys" overwrites the list of key names; with an
      empty text there, the decoded object has no fields at all. */
  lemma KeysFieldHidesFields(m: map<string, string>, nc: string)
    ensures Storable(Obj([Entry(KeysName, Str(""))]))
    ensures Decode(Encode(m, nc, Obj([Entry(KeysName, Str(""))])), nc) == Ok(Obj([]))
  {
    var fs := [Entry(KeysName, Str(""))];
    var keysNode := NodeKey(nc, KeysName);
    var m1 := Put(m, nc, KeysName, KeysArray(fs), false);
    var m2 := Encode(m1, keysNode, Str(""));
    SingleFieldShape(m, nc, fs[0]);
    PutIsEncode(m1, nc, KeysName, Str(""));
    assert Encode(m, nc, Obj(fs)) == m2[TypeKey(nc) := ObjectTag];
    ScalarRoundTrip(m1, keysNode, Str(""));
    OwnWritesKeepChild(m2, nc, KeysName, "", ObjectTag);
    DecodeTextKeys(m2[TypeKey(nc) := ObjectTag], nc);
  }

  lemma DecodeTextKeys(mm: map<string, string>, nc: string)
    requires Lookup(mm, TypeKey(nc)) == ObjectTag
    requires Decode(mm, NodeKey(nc, KeysName)) == Ok(Str(""))
    ensures Decode(mm, nc) == Ok(Obj([]))
  {
    assert TypeKey(nc) in mm;
    ChildIsNodeKey(nc, KeysName);
    assert Get(mm, nc, KeysName, false) == Ok(Str(""));
    assert |KeyList(Str("")).value| == 0;
    assert DecodeObject(mm, nc) == Ok(Obj([]));
  }
}
