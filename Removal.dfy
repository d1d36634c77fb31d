/** What `delete` and `set` leave alone, and what `delete` leaves behind. */
module Removal {
  import opened KvStore
  import opened Paths
  import opened Values
  import opened Codec
  import opened Frame

  /** `delete` at node key `nc` changes no key outside the node's subtree. */
  lemma DeleteFrame(m: map<string, string>, nc: string)
    ensures forall k :: !InSubtree(k, nc) ==> Unchanged(Deleted(m, nc), m, k)
  {
  }

  /** What `delete` leaves of the subtree: nothing below `nc:`, and `nc`
      itself only when it read back empty (the source skips an empty read). */
  lemma DeleteClears(m: map<string, string>, nc: string)
    ensures forall k :: k in Deleted(m, nc) && InSubtree(k, nc) ==> k == nc && m[nc] == ""
    ensures forall k :: k in m && HasPrefix(k, nc + [Delimiter]) ==> k !in Deleted(m, nc)
  {
  }

  /** After `delete(name)` the node reads back as null. */
  lemma DeleteThenGet(m: map<string, string>, c: string, name: string)
    requires name != ""
    ensures Decode(Deleted(m, NodeKey(c, name)), Child(c, name)) == Ok(Null)
  {
    var nc := NodeKey(c, name);
    ChildIsNodeKey(c, name);
    TypeKeyInSubtree(nc);
    assert TypeKey(nc) !in Deleted(m, nc);
  }

  /** A second `delete` of the same name finds nothing left to remove. */
  lemma DeleteIdempotent(m: map<string, string>, nc: string)
    ensures Deleted(Deleted(m, nc), nc) == Deleted(m, nc)
  {
    var d := Deleted(m, nc);
    assert Marked(d, nc) == {};
  }

  /** `delete(name)` does not change what a sibling decodes to. */
  lemma DeleteKeepsSibling(m: map<string, string>, c: string, name: string, other: string)
    requires name != "" && other != "" && Escape(name) != Escape(other)
    ensures Decode(Deleted(m, NodeKey(c, name)), Child(c, other)) == Decode(m, Child(c, other))
  {
    var nc := NodeKey(c, name);
    ChildIsNodeKey(c, other);
    forall k | InSubtree(k, Child(c, other))
      ensures Lookup(Deleted(m, nc), k) == Lookup(m, k)
    {
      SiblingSubtreesDisjoint(k, c, Escape(name), Escape(other));
    }
    DecodeLocal(Deleted(m, nc), m, Child(c, other));
  }

  /** `set(name, v)` does not change what a sibling decodes to. */
  lemma SetKeepsSibling(m: map<string, string>, c: string, name: string, other: string, v: Value)
    requires Storable(v)
    requires other != "" && Escape(name) != Escape(other)
    ensures Decode(Encode(m, NodeKey(c, name), v), Child(c, other)) == Decode(m, Child(c, other))
  {
    var nc := NodeKey(c, name);
    ChildIsNodeKey(c, other);
    EncodeFrame(m, nc, v);
    forall k | InSubtree(k, Child(c, other))
      ensures Lookup(Encode(m, nc, v), k) == Lookup(m, k)
    {
      SiblingSubtreesDisjoint(k, c, Escape(name), Escape(other));
    }
    DecodeLocal(Encode(m, nc, v), m, Child(c, other));
  }
}
