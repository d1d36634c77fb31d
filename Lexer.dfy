/** A reference lexer for the query command that marks the spaces of a
    quoted span as protected glyphs instead of spelling them with a
    placeholder string, and the proof that the placeholder tokenizer
    agrees with it whenever the placeholder cannot be confused with the
    argument's own text.

    The lexer finds a quoted span's closing quote with `Tokens.Closing`,
    as the tokenizer does, so the agreement proved here does not check the
    lazy `".*?"` span rule itself; `Tokens.ClosingShape` is what pins that
    rule down. */
module Lexer {
  import opened Values
  import opened Tokens

  /** A character of the argument, or a space that a quoted span protects. */
  datatype Glyph = Ch(c: char) | Kept

  predicate Breaks(g: Glyph)
  {
    g.Ch? && IsSpace(g.c)
  }

  /** The inside of a quoted span: its spaces become protected. */
  function Mark(t: string): (r: seq<Glyph>)
    ensures |r| == |t|
    ensures forall i :: 0 <= i < |t| ==> r[i] == (if t[i] == ' ' then Kept else Ch(t[i]))
  {
    if t == [] then [] else [if t[0] == ' ' then Kept else Ch(t[0])] + Mark(t[1..])
  }

  /** Quote protection over glyphs, span for span as `Protect` finds them. */
  function Scan(s: string): seq<Glyph>
    decreases |s|
  {
    if s == [] then []
    else if s[0] == '"' && Closing(s[1..]).Some? then
      var j := Closing(s[1..]).value;
      Mark(s[1..j + 1]) + Scan(s[j + 2..])
    else [Ch(s[0])] + Scan(s[1..])
  }

  /** Cuts the glyphs at runs of unprotected white space. */
  function Cut(gs: seq<Glyph>): (r: seq<seq<Glyph>>)
    ensures |r| > 0
  {
    if gs == [] then [[]]
    else if Breaks(gs[0]) then
      if |gs| > 1 && Breaks(gs[1]) then Cut(gs[1..]) else [[]] + Cut(gs[1..])
    else Lead([gs[0]], Cut(gs[1..]))
  }

  /** A token's text: a protected glyph is a space again. */
  function Show(g: seq<Glyph>): (r: string)
    ensures |r| == |g|
  {
    if g == [] then [] else [if g[0].Kept? then ' ' else g[0].c] + Show(g[1..])
  }

  function ShowAll(ts: seq<seq<Glyph>>): (r: seq<string>)
    ensures |r| == |ts|
    ensures forall i :: 0 <= i < |ts| ==> r[i] == Show(ts[i])
  {
    if ts == [] then [] else [Show(ts[0])] + ShowAll(ts[1..])
  }

  /** The reference tokens of one string argument. */
  function Lex(a: string): seq<string>
  {
    ShowAll(Cut(Scan(Trim(a))))
  }

  // ----- spelling protected glyphs with a placeholder -----

  /** The text the placeholder tokenizer holds for glyphs `gs`. */
  function Spell(gs: seq<Glyph>, sp: string): string
  {
    if gs == [] then [] else (if gs[0].Kept? then sp else [gs[0].c]) + Spell(gs[1..], sp)
  }

  function SpellAll(ts: seq<seq<Glyph>>, sp: string): (r: seq<string>)
    ensures |r| == |ts|
    ensures forall i :: 0 <= i < |ts| ==> r[i] == Spell(ts[i], sp)
  {
    if ts == [] then [] else [Spell(ts[0], sp)] + SpellAll(ts[1..], sp)
  }

  lemma {:induction false} SpellAppend(a: seq<Glyph>, b: seq<Glyph>, sp: string)
    ensures Spell(a + b, sp) == Spell(a, sp) + Spell(b, sp)
    decreases |a|
  {
    if a == [] {
      assert a + b == b;
    } else {
      assert (a + b)[0] == a[0];
      assert (a + b)[1..] == a[1..] + b;
      SpellAppend(a[1..], b, sp);
    }
  }

  lemma {:induction false} SpellMark(t: string, sp: string)
    ensures Spell(Mark(t), sp) == SpacesTo(t, sp)
    decreases |t|
  {
    if t != [] {
      assert Mark(t)[1..] == Mark(t[1..]);
      SpellMark(t[1..], sp);
    }
  }

  /** Protecting with a placeholder spells out the protected glyphs. */
  lemma {:induction false} ProtectIsSpelled(s: string, sp: string)
    ensures Protect(s, sp) == Spell(Scan(s), sp)
    decreases |s|
  {
    if s != [] {
      if s[0] == '"' && Closing(s[1..]).Some? {
        var j := Closing(s[1..]).value;
        ProtectIsSpelled(s[j + 2..], sp);
        QuotedIsSpelled(s, sp, j);
      } else {
        ProtectIsSpelled(s[1..], sp);
        PlainIsSpelled(s, sp);
      }
    }
  }

  lemma QuotedIsSpelled(s: string, sp: string, j: nat)
    requires s != [] && s[0] == '"' && Closing(s[1..]) == Some(j)
    requires Protect(s[j + 2..], sp) == Spell(Scan(s[j + 2..]), sp)
    ensures Protect(s, sp) == Spell(Scan(s), sp)
  {
    ProtectQuoted(s, sp, j);
    ScanQuoted(s, j);
    SpellMark(s[1..j + 1], sp);
    SpellAppend(Mark(s[1..j + 1]), Scan(s[j + 2..]), sp);
  }

  lemma ProtectQuoted(s: string, sp: string, j: nat)
    requires s != [] && s[0] == '"' && Closing(s[1..]) == Some(j)
    ensures Protect(s, sp) == SpacesTo(s[1..j + 1], sp) + Protect(s[j + 2..], sp)
  {
  }

  lemma ScanQuoted(s: string, j: nat)
    requires s != [] && s[0] == '"' && Closing(s[1..]) == Some(j)
    ensures Scan(s) == Mark(s[1..j + 1]) + Scan(s[j + 2..])
  {
  }

  lemma PlainIsSpelled(s: string, sp: string)
    requires s != [] && !(s[0] == '"' && Closing(s[1..]).Some?)
    requires Protect(s[1..], sp) == Spell(Scan(s[1..]), sp)
    ensures Protect(s, sp) == Spell(Scan(s), sp)
  {
    SpellAppend([Ch(s[0])], Scan(s[1..]), sp);
  }

  /** Splitting the spelled glyphs cuts where the glyphs are cut, provided
      the placeholder holds no white space. */
  lemma {:induction false} SplitIsCut(gs: seq<Glyph>, sp: string)
    requires |sp| > 0 && SpaceFree(sp)
    ensures Split(Spell(gs, sp)) == SpellAll(Cut(gs), sp)
    decreases |gs|
  {
    if gs != [] {
      var rest := Spell(gs[1..], sp);
      SplitIsCut(gs[1..], sp);
      if gs[0].Kept? {
        SplitWord(sp, rest);
      } else if Breaks(gs[0]) {
        var s := Spell(gs, sp);
        assert s == [gs[0].c] + rest;
        assert s[1..] == rest;
        if |gs| > 1 {
          SpellHead(gs[1..], sp);
        }
      } else {
        SplitWord([gs[0].c], rest);
      }
    }
  }

  /** The spelled text starts with white space exactly when its first glyph breaks. */
  lemma SpellHead(gs: seq<Glyph>, sp: string)
    requires |gs| > 0 && |sp| > 0 && SpaceFree(sp)
    ensures |Spell(gs, sp)| > 0 && (IsSpace(Spell(gs, sp)[0]) <==> Breaks(gs[0]))
  {
  }

  /** Turning placeholders back into spaces shows a token, provided no
      character of it can start a placeholder. */
  lemma {:induction false} RestoreIsShow(g: seq<Glyph>, sp: string)
    requires |sp| > 0
    requires forall i :: 0 <= i < |g| ==> g[i] != Ch(sp[0])
    ensures ReplaceAll(Spell(g, sp), sp, " ") == Show(g)
    decreases |g|
  {
    if g != [] {
      var rest := Spell(g[1..], sp);
      RestoreIsShow(g[1..], sp);
      if g[0].Kept? {
        assert Spell(g, sp) == sp + rest;
        assert StartsWith(sp + rest, sp);
        assert (sp + rest)[|sp|..] == rest;
      } else {
        assert Spell(g, sp) == [g[0].c] + rest;
        assert !StartsWith([g[0].c] + rest, sp) by {
          assert ([g[0].c] + rest)[0] != sp[0];
        }
        assert ([g[0].c] + rest)[1..] == rest;
      }
    }
  }

  // ----- the two tokenizers agree -----

  /** No glyph is the character that starts a placeholder. */
  predicate DollarFree(gs: seq<Glyph>)
  {
    forall i :: 0 <= i < |gs| ==> gs[i] != Ch('$')
  }

  lemma {:induction false} ScanDollarFree(s: string)
    requires '$' !in s
    ensures DollarFree(Scan(s))
    decreases |s|
  {
    if s != [] {
      if s[0] == '"' && Closing(s[1..]).Some? {
        var j := Closing(s[1..]).value;
        ScanQuoted(s, j);
        SliceDollarFree(s, 1, j + 1);
        SliceDollarFree(s, j + 2, |s|);
        assert s[j + 2..|s|] == s[j + 2..];
        ScanDollarFree(s[j + 2..]);
        MarkDollarFree(s[1..j + 1]);
        DollarFreeAppend(Mark(s[1..j + 1]), Scan(s[j + 2..]));
      } else {
        assert '$' !in s[1..] by { SliceDollarFree(s, 1, |s|); assert s[1..|s|] == s[1..]; }
        ScanDollarFree(s[1..]);
        DollarFreeAppend([Ch(s[0])], Scan(s[1..]));
      }
    }
  }

  lemma SliceDollarFree(s: string, i: nat, j: nat)
    requires '$' !in s && i <= j <= |s|
    ensures '$' !in s[i..j]
  {
    forall k | 0 <= k < j - i ensures s[i..j][k] != '$' {
      assert s[i..j][k] == s[i + k];
    }
  }

  lemma MarkDollarFree(t: string)
    requires '$' !in t
    ensures DollarFree(Mark(t))
  {
    forall i | 0 <= i < |t| ensures Mark(t)[i] != Ch('$') {
      assert t[i] != '$';
    }
  }

  lemma DollarFreeAppend(a: seq<Glyph>, b: seq<Glyph>)
    requires DollarFree(a) && DollarFree(b)
    ensures DollarFree(a + b)
  {
    forall i | 0 <= i < |a + b| ensures (a + b)[i] != Ch('$') {
      if i >= |a| {
        assert (a + b)[i] == b[i - |a|];
      }
    }
  }

  lemma {:induction false} CutDollarFree(gs: seq<Glyph>)
    requires DollarFree(gs)
    ensures forall i :: 0 <= i < |Cut(gs)| ==> DollarFree(Cut(gs)[i])
    decreases |gs|
  {
    if gs != [] {
      CutDollarFree(gs[1..]);
    }
  }

  lemma {:induction false} RestoreAllIsShow(ts: seq<seq<Glyph>>, sp: string)
    requires |sp| > 0 && sp[0] == '$'
    requires forall i :: 0 <= i < |ts| ==> DollarFree(ts[i])
    ensures Restore(SpellAll(ts, sp), sp) == ShowAll(ts)
  {
    var lhs := Restore(SpellAll(ts, sp), sp);
    forall i | 0 <= i < |ts| ensures lhs[i] == Show(ts[i]) {
      RestoreIsShow(ts[i], sp);
    }
  }

  lemma PlaceholderSpaceFree(r: string)
    requires SpaceFree(r)
    ensures SpaceFree(Placeholder(r))
  {
    var sp := Placeholder(r);
    forall i | 0 <= i < |sp| ensures !IsSpace(sp[i]) {
      if i >= 8 {
        assert sp[i] == r[i - 8];
      }
    }
  }

  /** The placeholder tokenizer gives the reference tokens whenever the
      argument has no '$' (so no placeholder can be read into it) and the
      random number is printed without white space. */
  lemma TokenizeIsLex(a: string, r: string)
    requires '$' !in a && SpaceFree(r)
    ensures Tokenize(a, r) == Lex(a)
  {
    var sp := Placeholder(r);
    var t := Trim(a);
    TrimDrops(a, '$');
    PlaceholderSpaceFree(r);
    ProtectIsSpelled(t, sp);
    SplitIsCut(Scan(t), sp);
    ScanDollarFree(t);
    CutDollarFree(Scan(t));
    RestoreAllIsShow(Cut(Scan(t)), sp);
  }

  // ----- what the reference lexer gives -----

  /** Glyphs for text outside any quoted span. */
  function Plain(s: string): (r: seq<Glyph>)
    ensures |r| == |s|
    ensures forall i :: 0 <= i < |s| ==> r[i] == Ch(s[i])
  {
    if s == [] then [] else [Ch(s[0])] + Plain(s[1..])
  }

  lemma {:induction false} ScanQuoteFree(s: string)
    requires '"' !in s
    ensures Scan(s) == Plain(s)
    decreases |s|
  {
    if s != [] {
      ScanQuoteFree(s[1..]);
    }
  }

  lemma {:induction false} CutUnbroken(gs: seq<Glyph>)
    requires forall i :: 0 <= i < |gs| ==> !Breaks(gs[i])
    ensures Cut(gs) == [gs]
    decreases |gs|
  {
    if gs != [] {
      CutUnbroken(gs[1..]);
      assert [gs[0]] + gs[1..] == gs;
    }
  }

  lemma {:induction false} ShowMark(t: string)
    ensures Show(Mark(t)) == t
    decreases |t|
  {
    if t != [] {
      assert Mark(t)[1..] == Mark(t[1..]);
      ShowMark(t[1..]);
    }
  }

  lemma {:induction false} ShowPlain(t: string)
    ensures Show(Plain(t)) == t
    decreases |t|
  {
    if t != [] {
      assert Plain(t)[1..] == Plain(t[1..]);
      ShowPlain(t[1..]);
    }
  }

  /** A span closes at the first quote when no line break comes first. */
  lemma {:induction false} ClosesAtEnd(p: string)
    requires '"' !in p && forall k :: 0 <= k < |p| ==> !IsLineBreak(p[k])
    ensures Closing(p + ['"']) == Some(|p|)
    decreases |p|
  {
    var t := p + ['"'];
    if p != [] {
      assert t[0] == p[0] && t[1..] == p[1..] + ['"'];
      ClosesAtEnd(p[1..]);
    }
  }

  /** A double-quoted phrase on one line is read as one span. */
  lemma QuotedScan(p: string)
    requires '"' !in p && forall k :: 0 <= k < |p| ==> !IsLineBreak(p[k])
    ensures Scan(Trim(['"'] + p + ['"'])) == Mark(p)
  {
    QuotedTrim(p);
    QuotedSpan(p);
  }

  lemma QuotedTrim(p: string)
    ensures Trim(['"'] + p + ['"']) == ['"'] + p + ['"']
  {
    var s := ['"'] + p + ['"'];
    assert s[0] == '"' && s[|s| - 1] == '"';
    TrimKeeps(s);
  }

  lemma QuotedSpan(p: string)
    requires '"' !in p && forall k :: 0 <= k < |p| ==> !IsLineBreak(p[k])
    ensures Scan(['"'] + p + ['"']) == Mark(p)
  {
    var s := ['"'] + p + ['"'];
    assert s[1..] == p + ['"'] && s[1..|p| + 1] == p && s[|p| + 2..] == [];
    ClosesAtEnd(p);
    ScanQuoted(s, |p|);
    assert Mark(p) + [] == Mark(p);
  }

  /** A double-quoted phrase whose only white space is ' ' is one token,
      without its quotes. */
  lemma QuotedPhrase(p: string)
    requires '"' !in p
    requires forall k :: 0 <= k < |p| ==> !IsLineBreak(p[k]) && (IsSpace(p[k]) ==> p[k] == ' ')
    ensures Lex(['"'] + p + ['"']) == [p]
  {
    QuotedScan(p);
    CutUnbroken(Mark(p));
    ShowMark(p);
  }

  /** ... and so is it for the placeholder tokenizer. */
  lemma QuotedPhraseTokens(p: string, r: string)
    requires '"' !in p && '$' !in p && SpaceFree(r)
    requires forall k :: 0 <= k < |p| ==> !IsLineBreak(p[k]) && (IsSpace(p[k]) ==> p[k] == ' ')
    ensures Tokenize(['"'] + p + ['"'], r) == [p]
  {
    QuotedPhrase(p);
    TokenizeIsLex(['"'] + p + ['"'], r);
  }

  /** Only ' ' is protected: a tab inside quotes still separates tokens. */
  lemma QuotedTabSplits()
    ensures Lex(['"'] + "a\tb" + ['"']) == ["a", "b"]
  {
    var p := "a\tb";
    var s := ['"'] + p + ['"'];
    TabLine();
    QuotedScan(p);
    TabMark();
    CutTab();
    ShowTab();
    assert Lex(s) == ShowAll(Cut(Scan(Trim(s))));
  }

  lemma TabLine()
    ensures '"' !in "a\tb" && forall k :: 0 <= k < |"a\tb"| ==> !IsLineBreak("a\tb"[k])
  {
  }

  lemma TabMark()
    ensures Mark("a\tb") == [Ch('a'), Ch('\t'), Ch('b')]
  {
  }

  lemma CutTab()
    ensures Cut([Ch('a'), Ch('\t'), Ch('b')]) == [[Ch('a')], [Ch('b')]]
  {
    var gs := [Ch('a'), Ch('\t'), Ch('b')];
    CutUnbroken([Ch('b')]);
    assert gs[1..] == [Ch('\t'), Ch('b')] && gs[1..][1..] == [Ch('b')];
    assert Cut(gs[1..]) == [[], [Ch('b')]];
    assert [Ch('a')] + [] == [Ch('a')];
  }

  lemma ShowTab()
    ensures ShowAll([[Ch('a')], [Ch('b')]]) == ["a", "b"]
  {
    assert Show([Ch('a')]) == "a" && Show([Ch('b')]) == "b";
  }

  /** The placeholder's own text in an argument reads back as a space,
      where the reference lexer keeps it as written. */
  lemma PlaceholderInArgument(r: string)
    requires SpaceFree(r) && '"' !in r
    ensures var s := "a" + Placeholder(r) + "b";
      Tokenize(s, r) == ["a b"] && Lex(s) == [s]
  {
    PlaceholderTokens(r);
    PlaceholderLex(r);
  }

  /** The argument "a<placeholder>b" is one word without quotes. */
  lemma PlaceholderText(r: string)
    requires SpaceFree(r) && '"' !in r
    ensures var s := "a" + Placeholder(r) + "b";
      SpaceFree(s) && '"' !in s && !IsSpace(s[0]) && !IsSpace(s[|s| - 1])
  {
    var sp := Placeholder(r);
    var s := "a" + sp + "b";
    PlaceholderSpaceFree(r);
    forall i | 0 <= i < |s| ensures !IsSpace(s[i]) {
      if 0 < i < |s| - 1 {
        assert s[i] == sp[i - 1];
      }
    }
    assert s == "a$SPACE__" + r + "b";
    assert forall i :: 0 <= i < |r| ==> s[i + 9] == r[i];
  }

  lemma PlaceholderTokens(r: string)
    requires SpaceFree(r) && '"' !in r
    ensures Tokenize("a" + Placeholder(r) + "b", r) == ["a b"]
  {
    var sp := Placeholder(r);
    var s := "a" + sp + "b";
    PlaceholderText(r);
    calc {
      Tokenize(s, r);
      Restore(Split(Protect(Trim(s), sp)), sp);
      == { TrimKeeps(s); }
      Restore(Split(Protect(s, sp)), sp);
      == { ProtectQuoteFree(s, sp); }
      Restore(Split(s), sp);
      == { SplitSpaceFree(s); }
      Restore([s], sp);
      == { PlaceholderRestored(sp); }
      ["a b"];
    }
  }

  lemma PlaceholderLex(r: string)
    requires SpaceFree(r) && '"' !in r
    ensures Lex("a" + Placeholder(r) + "b") == ["a" + Placeholder(r) + "b"]
  {
    var s := "a" + Placeholder(r) + "b";
    PlaceholderText(r);
    calc {
      Lex(s);
      ShowAll(Cut(Scan(Trim(s))));
      == { TrimKeeps(s); }
      ShowAll(Cut(Scan(s)));
      == { ScanQuoteFree(s); }
      ShowAll(Cut(Plain(s)));
      == { CutUnbroken(Plain(s)); }
      ShowAll([Plain(s)]);
      == { ShowPlain(s); }
      [s];
    }
  }

  lemma PlaceholderRestored(sp: string)
    requires |sp| > 1 && sp[0] == '$'
    ensures ReplaceAll("a" + sp + "b", sp, " ") == "a b"
  {
    var s := "a" + sp + "b";
    ReplaceAllAbsent("b", sp, " ");
    assert (sp + "b")[|sp|..] == "b";
    assert StartsWith(sp + "b", sp);
    assert ReplaceAll(sp + "b", sp, " ") == " b";
    assert s[1..] == sp + "b";
    assert !StartsWith(s, sp) by { assert s[0] != sp[0]; }
  }
}
