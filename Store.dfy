/** The flat key-value store the typed layer sits on: string keys, string
    values, an empty string read back for a key that is not there, and
    listing by key prefix. The HTTP transport of the client is abstracted
    into a map held by a `Client` object. */
module KvStore {

  /** What `GET <key>` answers: the stored text, or "" when the key is absent. */
  function Lookup(m: map<string, string>, key: string): (v: string)
    ensures key in m ==> v == m[key]
    ensures key !in m ==> v == ""
  {
    if key in m then m[key] else ""
  }

  predicate HasPrefix(s: string, prefix: string)
  {
    |prefix| <= |s| && s[..|prefix|] == prefix
  }

  /** The keys `list(prefix)` reports. */
  function KeysWithPrefix(m: map<string, string>, prefix: string): (ks: set<string>)
    ensures forall k :: k in ks <==> k in m && HasPrefix(k, prefix)
  {
    set k | k in m && HasPrefix(k, prefix)
  }

  predicate Distinct(s: seq<string>)
  {
    forall i, j :: 0 <= i < j < |s| ==> s[i] != s[j]
  }

  /** The longest key length in a finite set of keys; used only to bound
      how deep a decode can walk into the store. */
  ghost function MaxLen(ks: set<string>): nat
  {
    if ks == {} then 0
    else
      var k :| k in ks;
      var rest := MaxLen(ks - {k});
      if |k| > rest then |k| else rest
  }

  lemma MaxLenBound(ks: set<string>, k: string)
    requires k in ks
    ensures |k| <= MaxLen(ks)
    decreases ks
  {
    var j :| j in ks && MaxLen(ks) == (if |j| > MaxLen(ks - {j}) then |j| else MaxLen(ks - {j}));
    if k != j {
      MaxLenBound(ks - {j}, k);
    }
  }

  class Client {
    var data: map<string, string>

    constructor ()
      ensures data == map[]
    {
      data := map[];
    }

    method Get(key: string) returns (v: string)
      ensures v == Lookup(data, key)
    {
      v := if key in data then data[key] else "";
    }

    /** Stores `value`; callers pass the text the source's `value.toString()` gives. */
    method Set(key: string, value: string)
      modifies this
      ensures data == old(data)[key := value]
    {
      data := data[key := value];
    }

    method Delete(key: string)
      modifies this
      ensures data == old(data) - {key}
    {
      data := data - {key};
    }

    /** Every stored key that starts with `prefix`, each once, in no particular order. */
    method List(prefix: string) returns (keys: seq<string>)
      ensures forall k :: k in keys <==> k in data && HasPrefix(k, prefix)
      ensures Distinct(keys)
    {
      var pending := KeysWithPrefix(data, prefix);
      keys := [];
      while pending != {}
        invariant forall k :: k in keys || k in pending <==> k in data && HasPrefix(k, prefix)
        invariant forall k :: k in keys ==> k !in pending
        invariant Distinct(keys)
        decreases pending
      {
        var k :| k in pending;
        keys := keys + [k];
        pending := pending - {k};
      }
    }
  }
}
