/** The reference sets an impact query is scored against: the files that mention a symbol anywhere,
    and those that still mention it once comments and literals are blanked. */
module ImpactOracle {
  import opened Lexis
  import JsStripper
  import PhpStripper
  import PhpMentions
  import JsPieces
  import PhpPieces

  datatype Source = JsSource(text: string) | PhpSource(text: string)

  function CodeText(t: CharTables, source: Source): string {
    match source
    case JsSource(text) => JsStripper.Strip(t, text)
    case PhpSource(text) => PhpStripper.Strip(t, text)
  }

  ghost function RawTruth(t: CharTables, files: map<string, Source>, defs: set<string>, sym: string): set<string> {
    set f | f in files && f !in defs && Mentions(t, files[f].text, sym)
  }

  ghost function CodeTruth(t: CharTables, files: map<string, Source>, defs: set<string>, sym: string): set<string> {
    set f | f in files && f !in defs && Mentions(t, CodeText(t, files[f]), sym)
  }

  // ------------------------------------------------- when the code set is part of the raw set

  /** Leaving out comments and literals only ever removes files from the reference set. */
  lemma CodeTruthIsPartOfRawTruth(t: CharTables, files: map<string, Source>, defs: set<string>, sym: string)
    requires Sane(t) && Tight(sym)
    ensures CodeTruth(t, files, defs, sym) <= RawTruth(t, files, defs, sym)
  {
    forall f | f in CodeTruth(t, files, defs, sym) ensures f in RawTruth(t, files, defs, sym) {
      match files[f]
      case JsSource(text) => JsStripper.StripInventsNoMention(t, text, sym);
      case PhpSource(text) => PhpStripper.StripInventsNoMention(t, text, sym);
    }
  }

  /** A file whose code mentions the symbol, outside of comments and literals, is in the code set. */
  lemma MentionInJsCounts(t: CharTables, files: map<string, Source>, defs: set<string>, sym: string,
                          f: string, pieces: seq<JsPieces.Piece>, text: string)
    requires Sane(t) && f in files && f !in defs && files[f] == JsSource(JsPieces.Source(pieces))
    requires JsPieces.Fits(t, pieces, 0, "", "") && JsPieces.Stretch(pieces, text) && Mentions(t, text, sym)
    ensures f in CodeTruth(t, files, defs, sym)
  {
    hide Mentions;
    JsPieces.CodeMentionsStay(t, pieces, text, sym);
  }

  /** The same for PHP. */
  lemma MentionInPhpCounts(t: CharTables, files: map<string, Source>, defs: set<string>, sym: string,
                           f: string, pieces: seq<PhpPieces.Piece>, i: nat, j: nat)
    requires Sane(t) && f in files && f !in defs && files[f] == PhpSource(PhpPieces.Source(pieces))
    requires PhpPieces.Fits(t, pieces) && i <= j <= |pieces| && PhpPieces.Between(pieces, i, j)
    requires Mentions(t, PhpPieces.Source(pieces[i..j]), sym)
    ensures f in CodeTruth(t, files, defs, sym)
  {
    hide Mentions;
    PhpPieces.CodeMentionsStay(t, pieces, i, j, sym);
  }

  // ------------------------------------------------- what can stand in stripped JavaScript

  /** No literal, comment or regular expression opens in the symbol. */
  ghost predicate StandsInJs(t: CharTables, sym: string) {
    JsStripper.Clean(t, Around(t, sym))
  }

  lemma WordBeforeDivides(t: CharTables)
    requires Sane(t)
    ensures !JsStripper.OpensRegex(JsStripper.PrevSignificant(t, "a"))
  {
    hide JsStripper.OpensRegex, JsStripper.PrevSignificant;
    LookBackOnWord(t);
    WordOpensNothing();
  }

  lemma {:induction false} LookBackOnWord(t: CharTables)
    requires Sane(t)
    ensures JsStripper.PrevSignificant(t, "a") == "a"
  {
    hide JsStripper.OpensRegex;
    assert IsWord(t, 'a') && !t.space('a');
    assert "a"[..0] == "" && "" + ['a'] == "a";
    assert JsStripper.TrailingWord(t, "a") == JsStripper.TrailingWord(t, "a"[..0]) + ['a'];
    assert JsStripper.TrailingWord(t, "a"[..0]) == "";
  }

  lemma WordOpensNothing()
    ensures !JsStripper.OpensRegex("a")
  {
    assert forall w :: w in JsStripper.REGEX_PRECEDER_WORDS ==> |w| > 1;
  }

  /** A slash of the symbol that divides where the symbol was found divides in its own surroundings. */
  lemma SlashKeepsDividing(t: CharTables, code: string, sym: string, p: nat, q: nat)
    requires Sane(t) && HitAt(t, code, sym, p) && q < |sym| && sym[q] == '/'
    requires !JsStripper.OpensRegex(JsStripper.PrevSignificant(t, code[..p] + sym[..q]))
    ensures !JsStripper.OpensRegex(JsStripper.PrevSignificant(t, Before(t, sym) + sym[..q]))
  {
    hide JsStripper.OpensRegex, JsStripper.PrevSignificant;
    assert code[p..p + |sym|][0] == code[p];
    assert q == 0 ==> !IsWord(t, sym[0]);
    if JsStripper.PrevSignificant(t, sym[..q]) == "" {
      JsStripper.LookBackPastSpace(t, Before(t, sym), sym[..q]);
      if q > 0 { SpaceFirst(t, sym[..q]); }
      WordBeforeDivides(t);
    } else {
      JsStripper.LookBackIsLocal(t, code[..p], sym[..q]);
      JsStripper.LookBackIsLocal(t, Before(t, sym), sym[..q]);
    }
  }

  lemma {:induction false} SpaceFirst(t: CharTables, b: string)
    requires Sane(t) && b != "" && JsStripper.PrevSignificant(t, b) == ""
    ensures !IsWord(t, b[0])
  {
    if !t.space(b[|b| - 1]) {
      JsStripper.WordIsNotEmpty(t, b);
    } else if |b| > 1 {
      SpaceFirst(t, b[..|b| - 1]);
    }
  }

  /** Only such symbols are ever mentioned in stripped JavaScript. */
  lemma MentionedSymbolsStand(t: CharTables, src: string, sym: string)
    requires Sane(t) && sym != "" && Mentions(t, JsStripper.Strip(t, src), sym)
    ensures StandsInJs(t, sym)
  {
    hide JsStripper.Strip, JsStripper.OpensRegex, JsStripper.PrevSignificant;
    var code := JsStripper.Strip(t, src);
    JsStripper.StripIsClean(t, src);
    var p :| HitAt(t, code, sym, p);
    var text, n := Around(t, sym), |Before(t, sym)|;
    forall k | 0 <= k < |text|
      ensures text[k] != '\'' && text[k] != '"' && text[k] != '`'
      ensures !At(text, k, "//") && !At(text, k, "/*") && JsStripper.Divides(t, text, k)
    {
      TwoAt(text, k, "//");
      TwoAt(text, k, "/*");
      if n <= k < n + |sym| {
        CharStands(t, code, sym, p, k - n);
        assert text[..k] == Before(t, sym) + sym[..k - n];
      }
    }
  }

  lemma CharStands(t: CharTables, code: string, sym: string, p: nat, q: nat)
    requires Sane(t) && JsStripper.Clean(t, code) && HitAt(t, code, sym, p) && q < |sym|
    ensures sym[q] != '\'' && sym[q] != '"' && sym[q] != '`'
    ensures sym[q] == '/' && q + 1 < |sym| ==> sym[q + 1] != '/' && sym[q + 1] != '*'
    ensures sym[q] == '/' ==> !JsStripper.OpensRegex(JsStripper.PrevSignificant(t, Before(t, sym) + sym[..q]))
  {
    hide JsStripper.OpensRegex, JsStripper.PrevSignificant, JsStripper.Clean;
    var k := p + q;
    assert code[k] == code[p..p + |sym|][q] == sym[q];
    if q + 1 < |sym| { assert code[k + 1] == code[p..p + |sym|][q + 1] == sym[q + 1]; }
    JsStripper.CleanAt(t, code, k);
    TwoAt(code, k, "//");
    TwoAt(code, k, "/*");
    if sym[q] == '/' {
      assert code[..k] == code[..p] + sym[..q] by {
        assert code[p..p + |sym|][..q] == code[p..k] == sym[..q];
      }
      SlashKeepsDividing(t, code, sym, p, q);
    }
  }

  // ------------------------------------------------- gaps that were never in the source

  lemma EmptyStringSteps(t: CharTables, src: string, a: string, c: char)
    requires |a| + 2 <= |src| && src[|a|] == '\'' && src[|a| + 1] == c && (c == '\'' || c == '\n')
    ensures JsStripper.Run(t, src, JsStripper.State(|a|, a, JsStripper.Code, [])) ==
            JsStripper.Run(t, src, JsStripper.State(|a| + 2, a + [' ', Blank(c)], JsStripper.Code, []))
  {
    hide JsStripper.OpensRegex, JsStripper.PrevSignificant, JsStripper.Run;
    var s1 := JsStripper.State(|a|, a, JsStripper.Code, []);
    var s2 := JsStripper.State(|a| + 1, a + " ", JsStripper.Quoted('\''), []);
    TwoAt(src, |a|, "//");
    TwoAt(src, |a|, "/*");
    assert JsStripper.Step(t, src, s1) == s2;
    assert (a + " ") + [Blank(c)] == a + [' ', Blank(c)];
    JsStripper.RunStep(t, src, s1);
    JsStripper.RunStep(t, src, s2);
  }

  /** A gap of clean text could have been an empty string, or a quote that ends its line. */
  lemma GapAppears(t: CharTables, text: string, g: nat, c: char)
    requires JsStripper.Clean(t, text) && g + 1 < |text|
    requires (c == '\'' || c == '\n') && text[g] == ' ' && text[g + 1] == Blank(c)
    ensures JsStripper.Strip(t, text[g := '\''][g + 1 := c]) == text
  {
    hide JsStripper.Run, JsStripper.Clean, JsStripper.Step;
    var src, n := text[g := '\''][g + 1 := c], |text|;
    assert text[..0] == "" && text[..n] == text;
    JsStripper.CleanTextStays(t, src, text, 0, g);
    EmptyStringSteps(t, src, text[..g], c);
    assert text[..g] + [' ', Blank(c)] == text[..g + 2];
    JsStripper.CleanTextStays(t, src, text, g + 2, n - g - 2);
    JsStripper.RunStep(t, src, JsStripper.State(n, text, JsStripper.Code, []));
  }

  /** A loose symbol is mentioned by the blanks alone: its gap is put there by an empty or
      unterminated string. */
  lemma LooseSymbolIsInvented(t: CharTables, sym: string, j: nat) returns (src: string)
    requires Sane(t) && StandsInJs(t, sym) && j < |sym| - 1 && sym[j] == ' ' && Gap(sym[j + 1])
    ensures Mentions(t, JsStripper.Strip(t, src), sym) && !Mentions(t, src, sym)
  {
    hide JsStripper.Strip, JsStripper.Clean, HitAt;
    var text, g := Around(t, sym), |Before(t, sym)| + j;
    var c := if sym[j + 1] == '\n' then '\n' else '\'';
    src := text[g := '\''][g + 1 := c];
    GapAppears(t, text, g, c);
    StandsAsWord(t, sym);
    NoQuoteStands(t, sym);
    NoRoomAnywhere(t, sym, src, j, g);
  }

  lemma NoQuoteStands(t: CharTables, sym: string)
    requires StandsInJs(t, sym)
    ensures '\'' !in sym && '"' !in sym
  {
    forall q | 0 <= q < |sym| ensures sym[q] != '\'' && sym[q] != '"' {
      assert Around(t, sym)[|Before(t, sym)| + q] == sym[q];
    }
  }

  lemma NoRoomAnywhere(t: CharTables, sym: string, src: string, j: nat, quote: nat)
    requires '\'' !in sym && j < |sym| - 1 && sym[j] == ' '
    requires j <= quote <= j + 1 && quote + 1 < |src| <= quote + |sym| - j + 1
    requires src[quote] == '\'' && src[quote + 1] != ' '
    ensures !Mentions(t, src, sym)
  {
    forall q: nat ensures !HitAt(t, src, sym, q) {
      if q + |sym| <= |src| {
        NoRoom(sym, src, j, quote, q);
      }
    }
  }

  /** An occurrence would have to cover the quote, or start right after it. */
  lemma NoRoom(sym: string, src: string, j: nat, quote: nat, q: nat)
    requires '\'' !in sym && j < |sym| - 1 && sym[j] == ' '
    requires j <= quote <= j + 1 && quote + 1 < |src| <= quote + |sym| - j + 1
    requires src[quote] == '\'' && src[quote + 1] != ' '
    requires q + |sym| <= |src|
    ensures src[q..q + |sym|] != sym
  {
    if q <= quote {
      assert src[q..q + |sym|][quote - q] == src[quote];
    } else {
      assert src[q..q + |sym|][0] == src[q];
    }
  }

  // ------------------------------------------------- exactly which symbols are safe

  lemma LooseSpot(sym: string) returns (j: nat)
    requires !Tight(sym)
    ensures j < |sym| - 1 && sym[j] == ' ' && Gap(sym[j + 1])
  {
    j :| j < |sym| - 1 && sym[j] == ' ' && Gap(sym[j + 1]);
  }

  /** Stripping JavaScript never invents a mention of the symbol, in any source, exactly when it has
      no loose gap or cannot stand in stripped code at all. */
  lemma StrippingInventsNoMentionExactly(t: CharTables, sym: string)
    requires Sane(t)
    ensures (forall src :: Mentions(t, JsStripper.Strip(t, src), sym) ==> Mentions(t, src, sym)) <==>
            Tight(sym) || !StandsInJs(t, sym)
  {
    hide JsStripper.Strip, Mentions, StandsInJs, Tight;
    if Tight(sym) {
      forall src | Mentions(t, JsStripper.Strip(t, src), sym) ensures Mentions(t, src, sym) {
        JsStripper.StripInventsNoMention(t, src, sym);
      }
    } else {
      var j := LooseSpot(sym);
      if StandsInJs(t, sym) {
        var src := LooseSymbolIsInvented(t, sym, j);
      } else {
        forall src ensures !Mentions(t, JsStripper.Strip(t, src), sym) {
          if Mentions(t, JsStripper.Strip(t, src), sym) { MentionedSymbolsStand(t, src, sym); }
        }
      }
    }
  }

  /** A symbol with a quote in it is mentioned in no stripped text. */
  lemma QuotedSymbolsAreNeverMentioned(t: CharTables, source: Source, sym: string)
    requires Sane(t) && ('\'' in sym || '"' in sym)
    ensures !Mentions(t, CodeText(t, source), sym)
  {
    hide JsStripper.Strip, PhpStripper.Strip;
    var code := CodeText(t, source);
    forall k | 0 <= k < |code| ensures code[k] != '\'' && code[k] != '"' {
      match source
      case JsSource(text) => JsStripper.StripIsClean(t, text);
      case PhpSource(text) => PhpStripper.OnlyHeredocsOpenInTheOutput(t, text, k);
    }
    forall p: nat ensures !HitAt(t, code, sym, p) {
      if p + |sym| <= |code| {
        var q :| 0 <= q < |sym| && (sym[q] == '\'' || sym[q] == '"');
        assert code[p..p + |sym|][q] == code[p + q];
      }
    }
  }

  /** The code set is part of the raw set, over all sources of both languages, exactly when the
      symbol has no loose gap or can stand in no stripped code. */
  lemma CodeTruthIsSafeExactly(t: CharTables, sym: string)
    requires Sane(t)
    ensures (forall files, defs :: CodeTruth(t, files, defs, sym) <= RawTruth(t, files, defs, sym)) <==>
            Tight(sym) || !(StandsInJs(t, sym) || PhpMentions.StandsInPhp(t, sym))
  {
    hide Mentions, StandsInJs, PhpMentions.StandsInPhp, Tight, JsStripper.Strip, PhpStripper.Strip;
    StrippingInventsNoMentionExactly(t, sym);
    PhpMentions.StrippingInventsNoMentionExactly(t, sym);
    if Tight(sym) || !(StandsInJs(t, sym) || PhpMentions.StandsInPhp(t, sym)) {
      forall files: map<string, Source>, defs: set<string>
        ensures CodeTruth(t, files, defs, sym) <= RawTruth(t, files, defs, sym)
      {
        forall f | f in files && Mentions(t, CodeText(t, files[f]), sym) ensures Mentions(t, files[f].text, sym) {
          SourceIsSafe(t, files[f], sym);
        }
      }
    } else if StandsInJs(t, sym) {
      var text :| Mentions(t, JsStripper.Strip(t, text), sym) && !Mentions(t, text, sym);
      OneFile(t, JsSource(text), sym);
    } else {
      var text :| Mentions(t, PhpStripper.Strip(t, text), sym) && !Mentions(t, text, sym);
      OneFile(t, PhpSource(text), sym);
    }
  }

  lemma SourceIsSafe(t: CharTables, source: Source, sym: string)
    requires forall src :: Mentions(t, JsStripper.Strip(t, src), sym) ==> Mentions(t, src, sym)
    requires forall src :: Mentions(t, PhpStripper.Strip(t, src), sym) ==> Mentions(t, src, sym)
    requires Mentions(t, CodeText(t, source), sym)
    ensures Mentions(t, source.text, sym)
  {
    hide Mentions, JsStripper.Strip, PhpStripper.Strip;
  }

  lemma OneFile(t: CharTables, source: Source, sym: string)
    requires Mentions(t, CodeText(t, source), sym) && !Mentions(t, source.text, sym)
    ensures exists files, defs :: !(CodeTruth(t, files, defs, sym) <= RawTruth(t, files, defs, sym))
  {
    hide Mentions, CodeText;
    var files := map["f" := source];
    assert "f" in CodeTruth(t, files, {}, sym) && "f" !in RawTruth(t, files, {}, sym);
  }

  // ------------------------------------------------- positions

  lemma OpenCommentGrows(t: CharTables)
    requires Sane(t)
    ensures |JsStripper.Strip(t, "/*")| == 4
  {
    var open := "/*";
    var a0 := JsStripper.State(0, "", JsStripper.Code, []);
    var a1 := JsStripper.State(1, " ", JsStripper.Block, []);
    var a2 := JsStripper.State(2, "  ", JsStripper.Block, []);
    assert open[0..2] == open && JsStripper.Step(t, open, a0) == a1;
    assert JsStripper.Step(t, open, a1) == a2;
    assert JsStripper.Run(t, open, a0) == JsStripper.Run(t, open, a1) == JsStripper.Run(t, open, a2);
  }

  lemma EscapedBreakIsBlanked(t: CharTables)
    requires Sane(t)
    ensures JsStripper.Strip(t, "'\\\n'") == "    "
  {
    hide JsStripper.OpensRegex, JsStripper.PrevSignificant;
    var quoted := "'\\\n'";
    var b0 := JsStripper.State(0, "", JsStripper.Code, []);
    var b1 := JsStripper.State(1, " ", JsStripper.Quoted('\''), []);
    var b3 := JsStripper.State(3, "   ", JsStripper.Quoted('\''), []);
    var b4 := JsStripper.State(4, "    ", JsStripper.Code, []);
    TwoAt(quoted, 0, "//");
    TwoAt(quoted, 0, "/*");
    assert JsStripper.Step(t, quoted, b0) == b1;
    assert JsStripper.Step(t, quoted, b1) == b3;
    assert JsStripper.Step(t, quoted, b3) == b4;
    assert JsStripper.Run(t, quoted, b0) == JsStripper.Run(t, quoted, b1) == JsStripper.Run(t, quoted, b3);
    assert JsStripper.Run(t, quoted, b3) == JsStripper.Run(t, quoted, b4);
  }

  /** Length and line breaks are not always preserved for JavaScript, whatever its documentation
      says: an unterminated comment is closed past the end, an escaped line break is blanked. */
  lemma JsPositionsAreNotAlwaysPreserved(t: CharTables)
    requires Sane(t)
    ensures |JsStripper.Strip(t, "/*")| == 4
    ensures |JsStripper.Strip(t, "'\\\n'")| == 4 && JsStripper.Strip(t, "'\\\n'")[2] == ' '
  {
    hide JsStripper.Strip;
    OpenCommentGrows(t);
    EscapedBreakIsBlanked(t);
  }
}
