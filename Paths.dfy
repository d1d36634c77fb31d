/** Path arithmetic of the cursor: a node's key is its parent's key, a
    colon, and the escaped segment; the node's type tag lives at the key
    followed by "::type". */
module Paths {
  import opened KvStore

  const Delimiter: char := ':'
  const ColonPlaceholder: string := "$FWSLH"
  const EmptySentinel: string := "$EMPTY"
  const TypeSuffix: string := "::type"

  /** `escape`: every ':' becomes "$FWSLH", everything else is kept. */
  function Escape(s: string): (r: string)
    ensures Delimiter !in r
    ensures |r| >= |s|
    ensures r == "" <==> s == ""
  {
    if s == "" then ""
    else (if s[0] == Delimiter then ColonPlaceholder else [s[0]]) + Escape(s[1..])
  }

  lemma {:induction false} EscapeKeepsColonFree(s: string)
    requires Delimiter !in s
    ensures Escape(s) == s
  {
    if s != "" {
      EscapeKeepsColonFree(s[1..]);
      assert s == [s[0]] + s[1..];
    }
  }

  lemma {:induction false} EscapeMarksColons(s: string)
    requires Delimiter in s
    ensures '$' in Escape(s)
  {
    if s[0] == Delimiter {
      assert Escape(s)[0] == '$';
    } else {
      EscapeMarksColons(s[1..]);
      assert Escape(s) == [s[0]] + Escape(s[1..]);
    }
  }

  /** A name whose escaped form is a '$'-free text is that very text. */
  lemma EscapeOfDollarFree(name: string, t: string)
    requires Escape(name) == t && '$' !in t
    ensures name == t
  {
    if Delimiter in name {
      EscapeMarksColons(name);
    } else {
      EscapeKeepsColonFree(name);
    }
  }

  /** `escape` is not injective: a literal "$FWSLH" collides with an escaped ':'. */
  lemma EscapeNotInjective()
    ensures Escape("a:b") == Escape("a$FWSLHb")
    ensures "a:b" != "a$FWSLHb"
  {
    assert Escape("b") == "b";
    assert Escape(":b") == "$FWSLHb";
    assert Escape("a:b") == "a$FWSLHb";
    EscapeKeepsColonFree("a$FWSLHb");
  }

  /** The key fragment `get(index)` appends: "$EMPTY" for the empty index. */
  function Segment(index: string): (s: string)
    ensures s != "" && Delimiter !in s
    ensures index == "" ==> s == EmptySentinel
    ensures index != "" ==> s == Escape(index)
  {
    if index == "" then EmptySentinel else Escape(index)
  }

  /** `chain(c).get(index)`: the path of the child cursor. */
  function Child(c: string, index: string): (p: string)
    ensures p == c + [Delimiter] + Segment(index)
  {
    c + [Delimiter] + Segment(index)
  }

  /** The key `set` and `delete` compute: no "$EMPTY" substitution there. */
  function NodeKey(c: string, name: string): string
  {
    c + [Delimiter] + Escape(name)
  }

  function TypeKey(c: string): string
  {
    c + TypeSuffix
  }

  /** `get` and `set` address the same node exactly when the name is not empty. */
  lemma ChildIsNodeKey(c: string, name: string)
    ensures name != "" <==> Child(c, name) == NodeKey(c, name)
  {
    if name == "" {
      assert |Child(c, name)| == |c| + 1 + |EmptySentinel|;
    }
  }

  /** The keys that belong to the node at `p`: `p` itself and all keys below `p:`. */
  predicate InSubtree(k: string, p: string)
  {
    k == p || HasPrefix(k, p + [Delimiter])
  }

  /** The segment that follows the first delimiter of a key, up to the next one. */
  function FirstSegment(s: string): (r: string)
    ensures Delimiter !in r
  {
    if s == "" || s[0] == Delimiter then "" else [s[0]] + FirstSegment(s[1..])
  }

  lemma {:induction false} FirstSegmentOf(a: string, t: string)
    requires Delimiter !in a
    requires t == "" || t[0] == Delimiter
    ensures FirstSegment(a + t) == a
  {
    if a != "" {
      assert (a + t)[0] == a[0];
      assert (a + t)[1..] == a[1..] + t;
      FirstSegmentOf(a[1..], t);
      assert a == [a[0]] + a[1..];
    }
  }

  /** A key in the subtree of `p:a` lies below `p:` and its next segment is `a`. */
  lemma ChildSubtreeShape(k: string, p: string, a: string)
    requires Delimiter !in a
    requires InSubtree(k, p + [Delimiter] + a)
    ensures HasPrefix(k, p + [Delimiter])
    ensures FirstSegment(k[|p| + 1..]) == a
  {
    var q := p + [Delimiter] + a;
    var t := k[|q|..];
    assert k == q + t;
    assert t == "" || t[0] == Delimiter;
    assert k[..|p| + 1] == p + [Delimiter];
    assert k[|p| + 1..] == a + t;
    FirstSegmentOf(a, t);
  }

  /** Subtrees of a child lie inside the parent's subtree. */
  lemma ChildSubtreeInside(k: string, p: string, a: string)
    requires Delimiter !in a
    requires InSubtree(k, p + [Delimiter] + a)
    ensures InSubtree(k, p)
  {
    ChildSubtreeShape(k, p, a);
  }

  /** Subtrees of two different children are disjoint. */
  lemma SiblingSubtreesDisjoint(k: string, p: string, a: string, b: string)
    requires Delimiter !in a && Delimiter !in b && a != b
    ensures !(InSubtree(k, p + [Delimiter] + a) && InSubtree(k, p + [Delimiter] + b))
  {
    if InSubtree(k, p + [Delimiter] + a) && InSubtree(k, p + [Delimiter] + b) {
      ChildSubtreeShape(k, p, a);
      ChildSubtreeShape(k, p, b);
    }
  }

  /** The type tag and the node's own key are outside every child's subtree. */
  lemma OwnKeysOutsideChildren(p: string, a: string)
    requires Delimiter !in a && a != ""
    ensures !InSubtree(TypeKey(p), p + [Delimiter] + a)
    ensures !InSubtree(p, p + [Delimiter] + a)
  {
    if InSubtree(TypeKey(p), p + [Delimiter] + a) {
      ChildSubtreeShape(TypeKey(p), p, a);
    }
  }

  lemma TypeKeyInSubtree(p: string)
    ensures InSubtree(TypeKey(p), p)
    ensures HasPrefix(TypeKey(p), p + [Delimiter])
  {
    assert TypeKey(p)[..|p| + 1] == p + [Delimiter];
  }
}
