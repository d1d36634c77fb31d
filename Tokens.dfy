/** The tokenizer of the query command: a string argument is trimmed, the
    spaces inside each double-quoted span are swapped for a placeholder and
    the quotes dropped, the text is split at whitespace runs, and each piece
    gets its placeholders turned back into spaces. */
module Tokens {
  import opened Values

  /** JavaScript's white space and line terminators, the set that both
      `trim` and the regular-expression class `\s` use. */
  predicate IsSpace(c: char)
  {
    var n := c as int;
    n == 0x09 || n == 0x0A || n == 0x0B || n == 0x0C || n == 0x0D || n == 0x20
    || n == 0xA0 || n == 0x1680 || (0x2000 <= n <= 0x200A) || n == 0x2028
    || n == 0x2029 || n == 0x202F || n == 0x205F || n == 0x3000 || n == 0xFEFF
  }

  /** The line terminators, which the regular-expression `.` does not match. */
  predicate IsLineBreak(c: char)
  {
    var n := c as int;
    n == 0x0A || n == 0x0D || n == 0x2028 || n == 0x2029
  }

  predicate SpaceFree(s: string)
  {
    forall i :: 0 <= i < |s| ==> !IsSpace(s[i])
  }

  // ----- trim -----

  /** Drops the leading white space. */
  function TrimStart(s: string): (t: string)
    ensures |t| <= |s|
  {
    if s != [] && IsSpace(s[0]) then TrimStart(s[1..]) else s
  }

  /** Drops the trailing white space. */
  function TrimEnd(s: string): (t: string)
    ensures |t| <= |s|
  {
    if s != [] && IsSpace(s[|s| - 1]) then TrimEnd(s[..|s| - 1]) else s
  }

  /** `trim()`: the text between the leading and the trailing white space. */
  function Trim(s: string): string
  {
    TrimEnd(TrimStart(s))
  }

  /** Leading trim removes white space only, all of it, and keeps the rest. */
  lemma {:induction false} TrimStartShape(s: string)
    ensures var t := TrimStart(s);
      |t| <= |s| && t == s[|s| - |t|..]
      && (forall i :: 0 <= i < |s| - |t| ==> IsSpace(s[i]))
      && (t == [] || !IsSpace(t[0]))
    decreases |s|
  {
    if s != [] && IsSpace(s[0]) {
      TrimStartShape(s[1..]);
      var t := TrimStart(s[1..]);
      assert s[1..][|s| - 1 - |t|..] == s[|s| - |t|..];
    }
  }

  /** Trailing trim removes white space only, all of it, and keeps the rest. */
  lemma {:induction false} TrimEndShape(s: string)
    ensures var t := TrimEnd(s);
      |t| <= |s| && t == s[..|t|]
      && (forall i :: |t| <= i < |s| ==> IsSpace(s[i]))
      && (t == [] || !IsSpace(t[|t| - 1]))
    decreases |s|
  {
    if s != [] && IsSpace(s[|s| - 1]) {
      TrimEndShape(s[..|s| - 1]);
      var t := TrimEnd(s[..|s| - 1]);
      assert s[..|s| - 1][..|t|] == s[..|t|];
    }
  }

  /** A trimmed text keeps the middle of the argument, with white space
      removed only at its ends. */
  lemma TrimShape(s: string)
    ensures var i, t := |s| - |TrimStart(s)|, Trim(s);
      i + |t| <= |s| && t == s[i..i + |t|]
      && (forall k :: 0 <= k < i ==> IsSpace(s[k]))
      && (forall k :: i + |t| <= k < |s| ==> IsSpace(s[k]))
      && (t == [] || (!IsSpace(t[0]) && !IsSpace(t[|t| - 1])))
  {
    var u := TrimStart(s);
    TrimStartShape(s);
    TrimEndShape(u);
    var t := TrimEnd(u);
    var i := |s| - |u|;
    assert t == s[i..i + |t|];
  }

  /** Trim adds no character. */
  lemma TrimDrops(s: string, c: char)
    requires c !in s
    ensures c !in Trim(s)
  {
    TrimShape(s);
    var t := Trim(s);
    var i := |s| - |TrimStart(s)|;
    forall k | 0 <= k < |t| ensures t[k] != c {
      assert t[k] == s[i + k];
    }
  }

  // ----- quote protection -----

  /** Where the quote opened just before `t` closes: the first '"' of `t`,
      provided no line break comes before it. */
  function Closing(t: string): (r: Option<nat>)
    ensures r.Some? ==> r.value < |t| && t[r.value] == '"'
  {
    if t == [] then None
    else if t[0] == '"' then Some(0)
    else if IsLineBreak(t[0]) then None
    else
      match Closing(t[1..])
      case None => None
      case Some(j) => Some(j + 1)
  }

  /** The span closes at the first '"' when no line break comes before it,
      and stays open only when every '"' has a line break before it. */
  lemma {:induction false} ClosingShape(t: string)
    ensures var r := Closing(t);
      (r.Some? ==> forall i :: 0 <= i < r.value ==> t[i] != '"' && !IsLineBreak(t[i]))
      && (r.None? ==> forall k :: 0 <= k < |t| && t[k] == '"' ==> exists i :: 0 <= i < k && IsLineBreak(t[i]))
    decreases |t|
  {
    if t != [] && t[0] != '"' && !IsLineBreak(t[0]) {
      ClosingShape(t[1..]);
      if Closing(t[1..]).None? {
        forall k | 0 <= k < |t| && t[k] == '"'
          ensures exists i :: 0 <= i < k && IsLineBreak(t[i])
        {
          assert t[1..][k - 1] == '"';
          var i :| 0 <= i < k - 1 && IsLineBreak(t[1..][i]);
          assert IsLineBreak(t[i + 1]);
        }
      } else {
        var j := Closing(t[1..]).value;
        forall i | 0 <= i < j + 1 ensures t[i] != '"' && !IsLineBreak(t[i]) {
          if i > 0 {
            assert t[i] == t[1..][i - 1];
          }
        }
      }
    }
  }

  /** `replaceAll(' ', sp)` on the inside of a quoted span. */
  function SpacesTo(t: string, sp: string): (r: string)
    ensures |r| == |t| + (|sp| - 1) * Count(t, ' ')
  {
    if t == [] then []
    else (if t[0] == ' ' then sp else [t[0]]) + SpacesTo(t[1..], sp)
  }

  function Count(t: string, c: char): nat
  {
    if t == [] then 0 else (if t[0] == c then 1 else 0) + Count(t[1..], c)
  }

  /** `replace(/".*?"/g, ...)`: every quoted span, scanned left to right,
      loses its quotes and has its spaces replaced by `sp`. A quote that is
      not closed on its line stays as it is. */
  function Protect(s: string, sp: string): string
    decreases |s|
  {
    if s == [] then []
    else if s[0] == '"' && Closing(s[1..]).Some? then
      var j := Closing(s[1..]).value;
      SpacesTo(s[1..j + 1], sp) + Protect(s[j + 2..], sp)
    else [s[0]] + Protect(s[1..], sp)
  }

  // ----- split at white space -----

  /** Adds `w` at the front of the first piece. */
  function Lead<T>(w: seq<T>, ts: seq<seq<T>>): (r: seq<seq<T>>)
    requires |ts| > 0
    ensures |r| == |ts| && r[0] == w + ts[0] && r[1..] == ts[1..]
  {
    [w + ts[0]] + ts[1..]
  }

  /** `split(/\s+/g)`: the pieces between maximal runs of white space; a
      run at either end gives an empty piece there, and "" gives one empty
      piece. */
  function Split(s: string): (r: seq<string>)
    ensures |r| > 0
  {
    if s == [] then [[]]
    else if IsSpace(s[0]) then
      if |s| > 1 && IsSpace(s[1]) then Split(s[1..]) else [[]] + Split(s[1..])
    else Lead([s[0]], Split(s[1..]))
  }

  /** The pieces hold no white space, and together they hold every other
      character of the text, in order. */
  lemma {:induction false} SplitPieces(s: string)
    ensures forall i :: 0 <= i < |Split(s)| ==> SpaceFree(Split(s)[i])
    ensures Concat(Split(s)) == NonSpace(s)
    decreases |s|
  {
    if s == [] {
    } else if IsSpace(s[0]) {
      SplitPieces(s[1..]);
      if !(|s| > 1 && IsSpace(s[1])) {
        ConcatCons([[]] + Split(s[1..]));
        assert ([[]] + Split(s[1..]))[1..] == Split(s[1..]);
      }
    } else {
      var rest := Split(s[1..]);
      SplitPieces(s[1..]);
      ConcatCons(Lead([s[0]], rest));
      ConcatCons(rest);
    }
  }

  function Concat(ts: seq<string>): string
  {
    if ts == [] then [] else Concat(ts[..|ts| - 1]) + ts[|ts| - 1]
  }

  /** The characters of `s` that are not white space, in order. */
  function NonSpace(s: string): string
  {
    if s == [] then [] else (if IsSpace(s[0]) then [] else [s[0]]) + NonSpace(s[1..])
  }

  lemma {:induction false} ConcatCons(ts: seq<string>)
    requires |ts| > 0
    ensures Concat(ts) == ts[0] + Concat(ts[1..])
    decreases |ts|
  {
    if |ts| > 1 {
      var init := ts[..|ts| - 1];
      ConcatCons(init);
      assert init[1..] == ts[1..][..|ts| - 2];
      assert init[0] == ts[0];
    }
  }

  /** Text added in front of the first piece comes first in the joined text. */
  lemma {:induction false} ConcatLead(w: string, ts: seq<string>)
    requires |ts| > 0
    ensures Concat(Lead(w, ts)) == w + Concat(ts)
    decreases |ts|
  {
    var n := |ts|;
    var l := Lead(w, ts);
    if n == 1 {
      assert l == [w + ts[0]];
      assert l[..0] == [] && ts[..0] == [];
    } else {
      var init := ts[..n - 1];
      assert l[..n - 1] == Lead(w, init);
      ConcatLead(w, init);
      calc {
        Concat(l);
        Concat(Lead(w, init)) + ts[n - 1];
        (w + Concat(init)) + ts[n - 1];
        w + (Concat(init) + ts[n - 1]);
        w + Concat(ts);
      }
    }
  }

  /** An empty piece in front adds nothing to the joined text. */
  lemma ConcatEmptyFront(ts: seq<string>)
    ensures Concat([[]] + ts) == Concat(ts)
  {
    ConcatCons([[]] + ts);
    assert ([[]] + ts)[1..] == ts;
  }

  // ----- restore the placeholders -----

  predicate StartsWith(s: string, p: string)
  {
    |p| <= |s| && s[..|p|] == p
  }

  /** `replaceAll(pat, rep)`: the occurrences of `pat`, found left to
      right without overlap, each replaced by `rep`. */
  function ReplaceAll(s: string, pat: string, rep: string): string
    requires |pat| > 0
    decreases |s|
  {
    if s == [] then []
    else if StartsWith(s, pat) then rep + ReplaceAll(s[|pat|..], pat, rep)
    else [s[0]] + ReplaceAll(s[1..], pat, rep)
  }

  /** The placeholder `$SPACE__<r>`, `r` the printed random number. */
  function Placeholder(r: string): (sp: string)
    ensures |sp| > 0 && sp[0] == '$'
  {
    "$SPACE__" + r
  }

  /** `map(p => p.replaceAll(sp, ' '))` over the pieces. */
  function Restore(pieces: seq<string>, sp: string): (r: seq<string>)
    requires |sp| > 0
    ensures |r| == |pieces|
    ensures forall i :: 0 <= i < |r| ==> r[i] == ReplaceAll(pieces[i], sp, " ")
  {
    if pieces == [] then [] else [ReplaceAll(pieces[0], sp, " ")] + Restore(pieces[1..], sp)
  }

  /** The tokens one string argument contributes to the query. */
  function Tokenize(a: string, r: string): seq<string>
  {
    var sp := Placeholder(r);
    Restore(Split(Protect(Trim(a), sp)), sp)
  }

  // ----- plain words -----

  /** A word that needs no quoting and cannot be read as a placeholder. */
  predicate PlainWord(w: string)
  {
    w != [] && SpaceFree(w) && '"' !in w && '$' !in w
  }

  /** Words joined by single spaces. */
  function Unwords(ws: seq<string>): string
    requires |ws| > 0
  {
    if |ws| == 1 then ws[0] else ws[0] + " " + Unwords(ws[1..])
  }

  lemma {:induction false} UnwordsShape(ws: seq<string>)
    requires |ws| > 0 && forall i :: 0 <= i < |ws| ==> PlainWord(ws[i])
    ensures var u := Unwords(ws);
      |u| > 0 && !IsSpace(u[0]) && !IsSpace(u[|u| - 1]) && '"' !in u
    decreases |ws|
  {
    assert PlainWord(ws[0]);
    if |ws| > 1 {
      UnwordsShape(ws[1..]);
      var u := Unwords(ws);
      var tail := Unwords(ws[1..]);
      assert u == ws[0] + " " + tail;
      assert u[|u| - 1] == tail[|tail| - 1];
    }
  }

  lemma TrimKeeps(s: string)
    requires s != [] && !IsSpace(s[0]) && !IsSpace(s[|s| - 1])
    ensures Trim(s) == s
  {
  }

  lemma {:induction false} ProtectQuoteFree(s: string, sp: string)
    requires '"' !in s
    ensures Protect(s, sp) == s
    decreases |s|
  {
    if s != [] {
      ProtectQuoteFree(s[1..], sp);
    }
  }

  lemma {:induction false} ReplaceAllAbsent(s: string, pat: string, rep: string)
    requires |pat| > 0 && pat[0] !in s
    ensures ReplaceAll(s, pat, rep) == s
    decreases |s|
  {
    if s != [] {
      assert !StartsWith(s, pat) by {
        assert s[0] != pat[0];
      }
      ReplaceAllAbsent(s[1..], pat, rep);
    }
  }

  lemma {:induction false} SplitSpaceFree(s: string)
    requires SpaceFree(s)
    ensures Split(s) == [s]
    decreases |s|
  {
    if s != [] {
      SplitSpaceFree(s[1..]);
      assert [s[0]] + s[1..] == s;
    }
  }

  lemma {:induction false} SplitUnwords(ws: seq<string>)
    requires |ws| > 0 && forall i :: 0 <= i < |ws| ==> PlainWord(ws[i])
    ensures Split(Unwords(ws)) == ws
    decreases |ws|
  {
    if |ws| == 1 {
      SplitSpaceFree(ws[0]);
    } else {
      var tail := Unwords(ws[1..]);
      SplitUnwords(ws[1..]);
      UnwordsShape(ws[1..]);
      var gap := " " + tail;
      assert gap[1..] == tail && gap[1] == tail[0];
      assert Split(gap) == [[]] + ws[1..];
      assert ws[0] + " " + tail == ws[0] + gap;
      SplitWord(ws[0], gap);
      assert ws[0] + [] == ws[0];
    }
  }

  /** A space-free word at the front joins the first piece. */
  lemma {:induction false} SplitWord(w: string, t: string)
    requires SpaceFree(w)
    ensures Split(w + t) == Lead(w, Split(t))
    decreases |w|
  {
    if w == [] {
      assert w + t == t;
      assert w + Split(t)[0] == Split(t)[0];
      assert [Split(t)[0]] + Split(t)[1..] == Split(t);
    } else {
      calc {
        Split(w + t);
        == { assert (w + t)[0] == w[0] && (w + t)[1..] == w[1..] + t; }
        Lead([w[0]], Split(w[1..] + t));
        == { SplitWord(w[1..], t); }
        Lead([w[0]], Lead(w[1..], Split(t)));
        == { LeadLead([w[0]], w[1..], Split(t)); assert [w[0]] + w[1..] == w; }
        Lead(w, Split(t));
      }
    }
  }

  lemma LeadLead(a: string, b: string, ts: seq<string>)
    requires |ts| > 0
    ensures Lead(a, Lead(b, ts)) == Lead(a + b, ts)
  {
    assert a + (b + ts[0]) == (a + b) + ts[0];
  }

  /** Plain words separated by single spaces come back as those words. */
  lemma PlainWords(ws: seq<string>, r: string)
    requires |ws| > 0 && forall i :: 0 <= i < |ws| ==> PlainWord(ws[i])
    ensures Tokenize(Unwords(ws), r) == ws
  {
    var u := Unwords(ws);
    var sp := Placeholder(r);
    UnwordsShape(ws);
    calc {
      Tokenize(u, r);
      Restore(Split(Protect(Trim(u), sp)), sp);
      == { TrimKeeps(u); }
      Restore(Split(Protect(u, sp)), sp);
      == { ProtectQuoteFree(u, sp); }
      Restore(Split(u), sp);
      == { SplitUnwords(ws); }
      Restore(ws, sp);
      == { RestoreAbsent(ws, sp); }
      ws;
    }
  }

  lemma RestoreAbsent(ws: seq<string>, sp: string)
    requires |sp| > 0 && sp[0] == '$'
    requires forall i :: 0 <= i < |ws| ==> PlainWord(ws[i])
    ensures Restore(ws, sp) == ws
  {
    forall i | 0 <= i < |ws| ensures Restore(ws, sp)[i] == ws[i] {
      ReplaceAllAbsent(ws[i], sp, " ");
    }
  }
}
