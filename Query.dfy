/** The query command `chain(c)(...args)`: the arguments become a flat
    list of words, the second word is cut into path segments, a cursor
    walks those segments from `c`, and the first word picks GET, SET or
    DELETE. */
module Query {
  import opened KvStore
  import opened Paths
  import opened Values
  import opened Codec
  import opened Tokens
  import Cursor
  import opened Quirks

  // ----- arguments to words -----

  function Strs(ts: seq<string>): (vs: seq<Value>)
    ensures |vs| == |ts|
    ensures forall i :: 0 <= i < |ts| ==> vs[i] == Str(ts[i])
  {
    if ts == [] then [] else Strs(ts[..|ts| - 1]) + [Str(ts[|ts| - 1])]
  }

  /** The words one argument contributes: a string is tokenized, any other
      value is one word as it is. */
  function Items(a: Value, r: string): seq<Value>
  {
    if a.Str? then Strs(Tokenize(a.s, r)) else [a]
  }

  /** `Items` with the placeholder suffix fixed. */
  function ItemsOf(r: string): Value -> seq<Value>
  {
    a => Items(a, r)
  }

  /** The items `f` gives for each argument, concatenated in argument order. */
  function Gather(args: seq<Value>, f: Value -> seq<Value>): seq<Value>
  {
    if args == [] then [] else Gather(args[..|args| - 1], f) + f(args[|args| - 1])
  }

  /** The `query` list the arguments build, `r` the random placeholder suffix. */
  function Words(args: seq<Value>, r: string): seq<Value>
  {
    Gather(args, ItemsOf(r))
  }

  /** Gathering concatenated arguments concatenates what is gathered. */
  lemma {:induction false} GatherAppend(a: seq<Value>, b: seq<Value>, f: Value -> seq<Value>)
    ensures Gather(a + b, f) == Gather(a, f) + Gather(b, f)
    decreases |b|
  {
    if b == [] {
      assert a + b == a;
    } else {
      var b', x := b[..|b| - 1], b[|b| - 1];
      var ab := a + b;
      assert ab[..|ab| - 1] == a + b' && ab[|ab| - 1] == x;
      GatherAppend(a, b', f);
      calc {
        Gather(ab, f);
        Gather(a + b', f) + f(x);
        (Gather(a, f) + Gather(b', f)) + f(x);
        Gather(a, f) + (Gather(b', f) + f(x));
        Gather(a, f) + Gather(b, f);
      }
    }
  }

  /** The arguments' words come in argument order. */
  lemma WordsAppend(a: seq<Value>, b: seq<Value>, r: string)
    ensures Words(a + b, r) == Words(a, r) + Words(b, r)
  {
    GatherAppend(a, b, ItemsOf(r));
  }

  lemma WordsSnoc(a: seq<Value>, x: Value, r: string)
    ensures Words(a + [x], r) == Words(a, r) + Items(x, r)
  {
    assert (a + [x])[..|a|] == a;
  }

  /** Arguments that are not strings pass through unchanged. */
  lemma {:induction false} NonStringsPass(args: seq<Value>, r: string)
    requires forall i :: 0 <= i < |args| ==> !args[i].Str?
    ensures Words(args, r) == args
    decreases |args|
  {
    if args != [] {
      NonStringsPass(args[..|args| - 1], r);
      assert args[..|args| - 1] + [args[|args| - 1]] == args;
    }
  }

  /** `args.forEach(...)` pushing each word onto `query`. */
  method Collect(args: seq<Value>, r: string) returns (query: seq<Value>)
    ensures query == Words(args, r)
  {
    query := [];
    var i := 0;
    while i < |args|
      invariant 0 <= i <= |args|
      invariant query == Words(args[..i], r)
    {
      var a := args[i];
      assert args[..i + 1] == args[..i] + [a];
      ghost var before := query;
      if a.Str? {
        query := Push(query, Tokenize(a.s, r));
      } else {
        query := query + [a];
      }
      assert query == before + Items(a, r);
      WordsSnoc(args[..i], a, r);
      i := i + 1;
    }
    assert args[..|args|] == args;
  }

  /** `a.forEach(e => query.push(e))` for the tokens of one string argument. */
  method Push(query: seq<Value>, ts: seq<string>) returns (q: seq<Value>)
    ensures q == query + Strs(ts)
  {
    q := query;
    var j := 0;
    while j < |ts|
      invariant 0 <= j <= |ts|
      invariant q == query + Strs(ts[..j])
    {
      assert ts[..j + 1][..j] == ts[..j];
      q := q + [Str(ts[j])];
      j := j + 1;
    }
    assert ts[..|ts|] == ts;
  }

  // ----- the path word -----

  /** `t` holds no line break. */
  predicate OneLine(t: string)
  {
    forall k :: 0 <= k < |t| ==> !IsLineBreak(t[k])
  }

  /** A character outside the Basic Multilingual Plane, which JavaScript
      stores as two UTF-16 code units. */
  predicate IsAstral(ch: char)
  {
    ch as int >= 0x1_0000
  }

  /** The length of `t` in UTF-16 code units, JavaScript's `length`. */
  function CodeUnits(t: string): (n: nat)
    ensures n >= |t|
  {
    if t == [] then 0 else (if IsAstral(t[0]) then 2 else 1) + CodeUnits(t[1..])
  }

  /** `split(/./g)`: without the `u` flag the regular expression matches
      one UTF-16 code unit that is not a line break, so the pieces are the
      runs of line breaks between those code units. */
  function DotSplit(t: string): (r: seq<string>)
    ensures |r| > 0
  {
    if t == [] then [[]]
    else if IsLineBreak(t[0]) then Lead([t[0]], DotSplit(t[1..]))
    else if IsAstral(t[0]) then [[], []] + DotSplit(t[1..])
    else [[]] + DotSplit(t[1..])
  }

  /** A character outside the Basic Multilingual Plane is two matches. */
  lemma DotSplitAstral()
    ensures DotSplit("\U{1F600}") == ["", "", ""]
    ensures CodeUnits("\U{1F600}") == 2
  {
    assert "\U{1F600}"[1..] == [];
  }

  /** The line breaks of `t`, in order. */
  function LineBreaks(t: string): string
  {
    if t == [] then [] else (if IsLineBreak(t[0]) then [t[0]] else []) + LineBreaks(t[1..])
  }

  /** The pieces hold only line breaks. */
  lemma {:induction false} DotSplitOnlyBreaks(t: string)
    ensures forall i, k :: 0 <= i < |DotSplit(t)| && 0 <= k < |DotSplit(t)[i]| ==> IsLineBreak(DotSplit(t)[i][k])
    decreases |t|
  {
    if t != [] {
      DotSplitOnlyBreaks(t[1..]);
    }
  }

  /** The pieces hold all the line breaks, in order, and there is one more
      piece than `t` has code units other than line breaks: the names
      between the dots are lost. */
  lemma {:induction false} DotSplitPieces(t: string)
    ensures Concat(DotSplit(t)) == LineBreaks(t)
    ensures |DotSplit(t)| == 1 + CodeUnits(t) - |LineBreaks(t)|
    decreases |t|
  {
    if t != [] {
      DotSplitPieces(t[1..]);
      DotSplitStep(t);
    }
  }

  /** One character of the path word: a line break joins the first piece,
      any other character starts a new piece per code unit. */
  lemma DotSplitStep(t: string)
    requires t != []
    ensures Concat(DotSplit(t)) == (if IsLineBreak(t[0]) then [t[0]] else []) + Concat(DotSplit(t[1..]))
    ensures |DotSplit(t)| == (if IsLineBreak(t[0]) then 0 else if IsAstral(t[0]) then 2 else 1) + |DotSplit(t[1..])|
  {
    var rest := DotSplit(t[1..]);
    if IsLineBreak(t[0]) {
      ConcatLead([t[0]], rest);
    } else if IsAstral(t[0]) {
      ConcatTwoEmpty(rest);
    } else {
      ConcatEmptyFront(rest);
    }
  }

  /** Two empty pieces in front add nothing to the joined pieces. */
  lemma ConcatTwoEmpty(ts: seq<string>)
    ensures Concat([[], []] + ts) == Concat(ts)
  {
    assert [[], []] + ts == [[]] + ([[]] + ts);
    ConcatEmptyFront([[]] + ts);
    ConcatEmptyFront(ts);
  }

  /** `n` empty strings. */
  function Blank(n: nat): (r: seq<string>)
    ensures |r| == n && forall i :: 0 <= i < n ==> r[i] == ""
  {
    if n == 0 then [] else [""] + Blank(n - 1)
  }

  /** On one line, the path word yields one empty segment per code unit, plus one. */
  lemma {:induction false} DotSplitBlank(t: string)
    requires OneLine(t)
    ensures DotSplit(t) == Blank(CodeUnits(t) + 1)
    decreases |t|
  {
    if t != [] {
      assert forall k :: 0 <= k < |t[1..]| ==> t[1..][k] == t[k + 1];
      DotSplitBlank(t[1..]);
      var b := Blank(CodeUnits(t[1..]) + 1);
      if IsAstral(t[0]) {
        assert Blank(CodeUnits(t) + 1) == [""] + ([""] + b);
      } else {
        assert Blank(CodeUnits(t) + 1) == [""] + b;
      }
    }
  }

  /** `prop.forEach(p => curr = curr.get(p))`, from the cursor at `c`. */
  function Navigate(c: string, segs: seq<string>): string
  {
    if segs == [] then c else Child(Navigate(c, segs[..|segs| - 1]), segs[|segs| - 1])
  }

  method Walk(c: string, segs: seq<string>) returns (curr: string)
    ensures curr == Navigate(c, segs)
  {
    curr := c;
    var i := 0;
    while i < |segs|
      invariant 0 <= i <= |segs|
      invariant curr == Navigate(c, segs[..i])
    {
      assert segs[..i + 1][..i] == segs[..i];
      curr := Child(curr, segs[i]);
      i := i + 1;
    }
    assert segs[..|segs|] == segs;
  }

  /** The path `:$EMPTY` repeated `n` times. */
  function Sentinels(n: nat): (p: string)
    ensures |p| == 7 * n
  {
    if n == 0 then "" else Child(Sentinels(n - 1), "")
  }

  /** The path is `:$EMPTY` over and over. */
  lemma {:induction false} SentinelsShape(n: nat)
    ensures forall k :: 0 <= k < |Sentinels(n)| ==> Sentinels(n)[k] == ":$EMPTY"[k % 7]
  {
    if n > 0 {
      SentinelsShape(n - 1);
      var q := Sentinels(n - 1);
      var p := Sentinels(n);
      assert p == q + ":$EMPTY";
      assert forall k :: 0 <= k < 7 ==> p[|q| + k] == ":$EMPTY"[k];
      assert forall k :: |q| <= k < |p| ==> k % 7 == k - |q|;
    }
  }

  /** Walking `n` empty segments from `c` appends `:$EMPTY` `n` times. */
  lemma {:induction false} NavigateBlank(c: string, n: nat)
    ensures Navigate(c, Blank(n)) == c + Sentinels(n)
  {
    var k := 0;
    assert c + Sentinels(0) == c;
    while k < n
      invariant 0 <= k <= n
      invariant Navigate(c, Blank(n)[..k]) == c + Sentinels(k)
    {
      assert Blank(n)[..k + 1][..k] == Blank(n)[..k];
      assert c + Sentinels(k + 1) == Child(c + Sentinels(k), "");
      k := k + 1;
    }
    assert Blank(n)[..n] == Blank(n);
  }

  // ----- dispatch -----

  /** What a query amounts to. */
  datatype Command =
    | Fetch(path: string)                        // GET: `finish` at the path
    | Write(at: string, name: string, v: Value)  // SET: `set(name, v)` on the cursor at `at`
    | Remove(at: string, name: string)           // DELETE: `delete(name)` on the cursor at `at`
    | Pass                                       // any other verb: nothing is called
    | Throw                                      // a missing or unusable word: the call throws

  /** What the query `query` asks of the cursor at `c`. */
  function Plan(c: string, query: seq<Value>): (cmd: Command)
    ensures cmd.Write? ==> |query| >= 3 && cmd.v == query[2] && Storable(cmd.v)
    ensures (cmd.Fetch? || cmd.Write? || cmd.Remove? || cmd.Pass?) ==> |query| >= 2 && query[1].Str?
  {
    if |query| < 2 || !query[1].Str? then Throw
    else
      var prop := DotSplit(query[1].s);
      var last := prop[|prop| - 1];
      if query[0] == Str("GET") then Fetch(Navigate(c, prop))
      else
        var at := Navigate(c, prop[..|prop| - 1]);
        if query[0] == Str("SET") then
          if |query| < 3 || !Storable(query[2]) then Throw else Write(at, last, query[2])
        else if query[0] == Str("DELETE") then Remove(at, last)
        else Pass
  }

  datatype Outcome = Answer(r: Result<Value>) | Done | Thrown

  /** The query call on the cursor at `c`. */
  method Call(db: Client, c: string, args: seq<Value>, r: string) returns (o: Outcome)
    modifies db
    ensures match Plan(c, Words(args, r))
      case Fetch(p) => o == Answer(Decode(old(db.data), p)) && db.data == old(db.data)
      case Write(at, name, v) => o == Done && db.data == Encode(old(db.data), NodeKey(at, name), v)
      case Remove(at, name) => o == Done && db.data == Deleted(old(db.data), NodeKey(at, name))
      case Pass => o == Done && db.data == old(db.data)
      case Throw => o == Thrown && db.data == old(db.data)
  {
    var query := Collect(args, r);
    if |query| < 2 || !query[1].Str? {
      return Thrown;
    }
    var prop := DotSplit(query[1].s);
    var last := prop[|prop| - 1];
    if query[0] != Str("GET") {
      prop := prop[..|prop| - 1];
    }
    var curr := Walk(c, prop);
    if query[0] == Str("GET") {
      var x := Cursor.Finish(db, curr);
      return Answer(x);
    }
    if query[0] == Str("SET") {
      if |query| < 3 || !Storable(query[2]) {
        return Thrown;
      }
      Cursor.Set(db, curr, last, query[2]);
      return Done;
    }
    if query[0] == Str("DELETE") {
      Cursor.Delete(db, curr, last);
    }
    return Done;
  }

  // ----- what `split(/./g)` does to a query -----

  /** GET reads `:$EMPTY` appended to `c` once per code unit of the path word, plus once. */
  lemma GetPath(c: string, t: string)
    requires OneLine(t)
    ensures Plan(c, [Str("GET"), Str(t)]) == Fetch(c + Sentinels(CodeUnits(t) + 1))
  {
    PlanGet(c, t);
    BlankPath(c, t);
  }

  /** All the segments of a one-line path word lead from `c` to `:$EMPTY`
      appended once per code unit, plus once. */
  lemma BlankPath(c: string, t: string)
    requires OneLine(t)
    ensures Navigate(c, DotSplit(t)) == c + Sentinels(CodeUnits(t) + 1)
  {
    DotSplitBlank(t);
    NavigateBlank(c, CodeUnits(t) + 1);
  }

  /** A GET query fetches the node all the segments of its path word reach. */
  lemma PlanGet(c: string, t: string)
    ensures Plan(c, [Str("GET"), Str(t)]) == Fetch(Navigate(c, DotSplit(t)))
  {
    var q := [Str("GET"), Str(t)];
    assert q[0] == Str("GET") && q[1] == Str(t) && |q| == 2;
  }

  /** Two path words of the same length name the same node. */
  lemma GetIgnoresNames(c: string, t: string, u: string)
    requires OneLine(t)
    requires OneLine(u)
    requires CodeUnits(t) == CodeUnits(u)
    ensures Plan(c, [Str("GET"), Str(t)]) == Plan(c, [Str("GET"), Str(u)])
  {
    var n := CodeUnits(t);
    GetPathOf(c, t, n);
    GetPathOf(c, u, n);
  }

  /** `GetPath` for a path word of `n` code units. */
  lemma GetPathOf(c: string, t: string, n: nat)
    requires OneLine(t) && CodeUnits(t) == n
    ensures Plan(c, [Str("GET"), Str(t)]) == Fetch(c + Sentinels(n + 1))
  {
    GetPath(c, t);
  }

  /** SET and DELETE act on the name "" one level above the node GET reads. */
  lemma {:induction false} ChangePath(c: string, t: string, v: Value)
    requires OneLine(t)
    requires Storable(v)
    ensures Plan(c, [Str("SET"), Str(t), v]) == Write(c + Sentinels(CodeUnits(t)), "", v)
    ensures Plan(c, [Str("DELETE"), Str(t)]) == Remove(c + Sentinels(CodeUnits(t)), "")
  {
    SetPath(c, t, v);
    DeletePath(c, t);
  }

  lemma SetPath(c: string, t: string, v: Value)
    requires OneLine(t)
    requires Storable(v)
    ensures Plan(c, [Str("SET"), Str(t), v]) == Write(c + Sentinels(CodeUnits(t)), "", v)
  {
    var q := [Str("SET"), Str(t), v];
    assert q[0] == Str("SET") && q[1] == Str(t) && q[2] == v && |q| == 3;
    ChangeTarget(c, t);
  }

  lemma DeletePath(c: string, t: string)
    requires OneLine(t)
    ensures Plan(c, [Str("DELETE"), Str(t)]) == Remove(c + Sentinels(CodeUnits(t)), "")
  {
    PlanDelete(c, [Str("DELETE"), Str(t)]);
    ChangeTarget(c, t);
  }

  /** A DELETE query removes the last segment under the cursor the others reach. */
  lemma PlanDelete(c: string, q: seq<Value>)
    requires |q| >= 2 && q[0] == Str("DELETE") && q[1].Str?
    ensures var prop := DotSplit(q[1].s);
      Plan(c, q) == Remove(Navigate(c, prop[..|prop| - 1]), prop[|prop| - 1])
  {
    assert q[0] != Str("GET") && q[0] != Str("SET");
  }

  lemma ChangeTarget(c: string, t: string)
    requires OneLine(t)
    ensures var prop := DotSplit(t);
      Navigate(c, prop[..|prop| - 1]) == c + Sentinels(CodeUnits(t)) && prop[|prop| - 1] == ""
  {
    DotSplitBlank(t);
    assert Blank(CodeUnits(t) + 1)[..CodeUnits(t)] == Blank(CodeUnits(t));
    NavigateBlank(c, CodeUnits(t));
  }

  /** A value SET through a query is not what the same query path GETs:
      the read finds no type tag there and answers null. */
  lemma QuerySetIsLost(m: map<string, string>, c: string, t: string, v: Value)
    requires OneLine(t)
    requires Storable(v)
    requires Lookup(m, TypeKey(c + Sentinels(CodeUnits(t) + 1))) == ""
    ensures Plan(c, [Str("SET"), Str(t), v]) == Write(c + Sentinels(CodeUnits(t)), "", v)
    ensures Plan(c, [Str("GET"), Str(t)]) == Fetch(c + Sentinels(CodeUnits(t) + 1))
    ensures Decode(Encode(m, NodeKey(c + Sentinels(CodeUnits(t)), ""), v), c + Sentinels(CodeUnits(t) + 1)) == Ok(Null)
  {
    ChangePath(c, t, v);
    GetPath(c, t);
    var at := c + Sentinels(CodeUnits(t));
    assert Child(at, "") == c + Sentinels(CodeUnits(t) + 1);
    EmptyNameSetIsLost(m, at, v);
  }

  /** A query DELETE removes the type tag of the node one level up, which
      then reads as null. */
  lemma QueryDeleteDropsParent(m: map<string, string>, c: string, t: string)
    requires OneLine(t)
    ensures Plan(c, [Str("DELETE"), Str(t)]) == Remove(c + Sentinels(CodeUnits(t)), "")
    ensures Decode(Deleted(m, NodeKey(c + Sentinels(CodeUnits(t)), "")), c + Sentinels(CodeUnits(t))) == Ok(Null)
  {
    DeletePath(c, t);
    EmptyNameDeleteDropsParentTag(m, c + Sentinels(CodeUnits(t)));
  }

  /** A text query "GET <word>" tokenizes to the verb and the word. */
  lemma TextGet(c: string, t: string, r: string)
    requires PlainWord(t)
    ensures Words([Str("GET " + t)], r) == [Str("GET"), Str(t)]
    ensures Plan(c, Words([Str("GET " + t)], r)) == Fetch(c + Sentinels(CodeUnits(t) + 1))
  {
    TextWords(t, r);
    GetPath(c, t);
  }

  lemma TextWords(t: string, r: string)
    requires PlainWord(t)
    ensures Words([Str("GET " + t)], r) == [Str("GET"), Str(t)]
  {
    var ws := ["GET", t];
    assert PlainWord("GET");
    assert Unwords(ws) == "GET " + t by {
      assert Unwords(ws[1..]) == t;
    }
    PlainWords(ws, r);
    assert Tokenize("GET " + t, r) == ws;
    assert Strs(ws) == [Str("GET"), Str(t)];
    WordsSnoc([], Str("GET " + t), r);
    assert [] + [Str("GET " + t)] == [Str("GET " + t)];
  }
}
