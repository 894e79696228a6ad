/** Which symbols stripped PHP can mention, and for which of them stripping can invent a mention. */
module PhpMentions {
  import opened Lexis
  import opened PhpStripper
  import opened PhpHeredocs

  // ------------------------------------------------- texts that stripping can give

  /** No string and no comment opens at k. */
  predicate Quiet(text: string, k: nat)
    requires k < |text|
  {
    && !IsQuote(text[k])
    && (text[k] == '/' && k + 1 < |text| ==> text[k + 1] != '/' && text[k + 1] != '*')
    && (text[k] == '#' ==> k + 1 < |text| && text[k + 1] == '[')
  }

  /** No heredoc opens at k, or one whose opener has a loose gap: a literal may have stood there. */
  predicate Covered(text: string, k: nat)
    requires k < |text|
  {
    HeredocOpener(text, k).Opener? ==> !Tight(text[k + 3..HeredocOpener(text, k).body])
  }

  predicate Coverable(text: string) {
    forall k :: 0 <= k < |text| ==> Quiet(text, k) && Covered(text, k)
  }

  /** The symbol can stand in stripped PHP. */
  predicate StandsInPhp(t: CharTables, sym: string) {
    Coverable(Around(t, sym))
  }

  /** An opener of the output has a loose gap, or the source would have opened the heredoc, too. */
  lemma OutputIsCovered(t: CharTables, src: string, k: nat)
    requires Sane(t) && k < |Strip(t, src)|
    ensures Covered(Strip(t, src), k)
  {
    hide HeredocOpener, StripFrom, LiteralEnd, Blanked, GapsAreWide, Tight, Opens;
    var code := Strip(t, src);
    var o := HeredocOpener(code, k);
    if o.Opener? && Tight(code[k + 3..o.body]) {
      var q, from, to, eol := OpenerHasParts(code, k);
      StripOnlyBlanks(t, src);
      OpenerIsKept(src, code, k, q, from, to, eol);
      ThreeAt(code, k);
      OpenerIsLocal(code, k, src, k);
      OpenerIsLiteral(t, src, k);
      OutputReads(t, src, k);
    }
  }

  lemma OpenerIsKept(src: string, code: string, k: nat, q: nat, from: nat, to: nat, eol: nat)
    requires Blanked(src, code) && GapsAreWide(src, code) && Opens(code, k, q, from, to, eol)
    requires k + 3 <= eol < |code| && Tight(code[k + 3..eol + 1])
    ensures eol < |src| && src[k..eol + 1] == code[k..eol + 1]
  {
    hide IdentStart, IdentPart, Blanked, GapsAreWide, Opens, Tight;
    forall x | k <= x <= eol ensures x < |src| && src[x] == code[x] {
      if x >= |src| || src[x] != code[x] {
        BlankedIsLoose(src, code, k, q, from, to, eol, x);
      }
    }
    assert eol < |src| && src[eol] == code[eol];
  }

  lemma BlankedIsLoose(src: string, code: string, k: nat, q: nat, from: nat, to: nat, eol: nat, x: nat)
    requires Blanked(src, code) && GapsAreWide(src, code) && Opens(code, k, q, from, to, eol)
    requires k <= x <= eol < |code| && k + 3 <= eol && (x >= |src| || src[x] != code[x])
    ensures !Tight(code[k + 3..eol + 1])
  {
    hide IdentStart, IdentPart;
    assert code[x] == ' ' && x != eol;
    var m: nat :| WideAt(code, x, m);
    assert k + 3 <= m < eol;
    var region := code[k + 3..eol + 1];
    assert region[m - k - 3] == code[m] && region[m + 1 - k - 3] == code[m + 1];
  }

  lemma OutputIsCoverable(t: CharTables, src: string)
    requires Sane(t)
    ensures Coverable(Strip(t, src))
  {
    hide Strip, HeredocOpener, LiteralEnd, Covered;
    var code := Strip(t, src);
    forall k | 0 <= k < |code| ensures Quiet(code, k) && Covered(code, k) {
      OnlyHeredocsOpenInTheOutput(t, src, k);
      OneAt(code, k, '#');
      TwoAt(code, k, "#[");
      TwoAt(code, k, "//");
      TwoAt(code, k, "/*");
      OutputIsCovered(t, src, k);
    }
  }

  // ------------------------------------------------- what a mentioned symbol looks like

  /** Only such symbols are ever mentioned in stripped PHP. */
  lemma MentionedSymbolsStand(t: CharTables, src: string, sym: string)
    requires Sane(t) && sym != "" && Mentions(t, Strip(t, src), sym)
    ensures StandsInPhp(t, sym)
  {
    hide Strip, Coverable, HitAt, Covered, Quiet;
    var code := Strip(t, src);
    OutputIsCoverable(t, src);
    var p :| HitAt(t, code, sym, p);
    HitStands(t, code, sym, p);
  }

  lemma HitStands(t: CharTables, code: string, sym: string, p: nat)
    requires Sane(t) && sym != "" && Coverable(code) && HitAt(t, code, sym, p)
    ensures Coverable(Around(t, sym))
  {
    hide Covered, Quiet, Boundary;
    var text, n := Around(t, sym), |Before(t, sym)|;
    forall k | 0 <= k < |text| ensures Quiet(text, k) && Covered(text, k) {
      if n <= k < n + |sym| {
        SymbolIsQuiet(t, code, sym, p, k - n);
        SymbolIsCovered(t, code, sym, p, k - n);
      } else {
        PaddingIsQuiet(text, k);
      }
    }
  }

  lemma PaddingIsQuiet(text: string, k: nat)
    requires k < |text| && text[k] == 'a'
    ensures Quiet(text, k) && Covered(text, k)
  {
    hide BlanksEnd, IdentEnd, At;
    ThreeAt(text, k);
  }

  lemma SymbolIsQuiet(t: CharTables, code: string, sym: string, p: nat, q: nat)
    requires Sane(t) && Coverable(code) && HitAt(t, code, sym, p) && q < |sym|
    ensures Quiet(Around(t, sym), |Before(t, sym)| + q)
  {
    hide Covered;
    var k := p + q;
    assert Quiet(code, k);
    assert code[p..p + |sym|][q] == code[k];
    if q + 1 < |sym| { assert code[p..p + |sym|][q + 1] == code[k + 1]; }
  }

  lemma SymbolIsCovered(t: CharTables, code: string, sym: string, p: nat, q: nat)
    requires Coverable(code) && q < |sym| && p + |sym| <= |code| && code[p..p + |sym|] == sym
    ensures Covered(Around(t, sym), |Before(t, sym)| + q)
  {
    hide HeredocOpener, Quiet, Tight;
    var text, k, c := Around(t, sym), |Before(t, sym)| + q, p + q;
    if HeredocOpener(text, k).Opener? {
      var n := HeredocOpener(text, k).body - k;
      OpenerEndsInside(t, sym, q);
      assert code[c..c + n] == text[k..k + n] by {
        assert text[k..k + n] == sym[q..q + n];
        PartOfPart(code, p, |sym|, q, n);
      }
      OpenerIsLocal(text, k, code, c);
      assert Covered(code, c);
      assert text[k + 3..k + n] == text[k..k + n][3..] == code[c + 3..c + n];
    }
  }

  lemma PartOfPart(s: string, p: nat, m: nat, q: nat, n: nat)
    requires p + m <= |s| && q + n <= m
    ensures s[p..p + m][q..q + n] == s[p + q..p + q + n]
  {
    var part := s[p..p + m];
    assert forall k :: q <= k < q + n ==> part[k] == s[p + k];
  }

  lemma OpenerEndsInside(t: CharTables, sym: string, q: nat)
    requires q < |sym| && HeredocOpener(Around(t, sym), |Before(t, sym)| + q).Opener?
    ensures HeredocOpener(Around(t, sym), |Before(t, sym)| + q).body <= |Before(t, sym)| + |sym|
  {
    hide HeredocOpener, IdentStart, IdentPart;
    var a, b, c, eol := OpenerHasParts(Around(t, sym), |Before(t, sym)| + q);
  }

  // ------------------------------------------------- gaps that were never in the source

  /** What the text at i could have been: an empty string, an empty comment, or what it is. */
  function Former(text: string, i: nat): (s: string)
    requires i < |text|
    ensures 1 <= |s| <= |text| - i
  {
    if text[i] == ' ' && i + 1 < |text| && text[i + 1] == ' ' then "''"
    else if text[i] == ' ' && i + 1 < |text| && text[i + 1] == '\n' then "#"
    else [text[i]]
  }

  /** The text from i on, with something put back into every loose gap. */
  function Uncover(text: string, i: nat): string
    decreases |text| - i
  {
    if i >= |text| then "" else Former(text, i) + Uncover(text, i + |Former(text, i)|)
  }

  /** Put back at k: a bare `#`, or one of two quotes. */
  predicate Put(u: string, k: nat)
    requires k < |u|
  {
    u[k] == '#' || (u[k] == '\'' && ((k > 0 && u[k - 1] == '\'') || (k + 1 < |u| && u[k + 1] == '\'')))
  }

  predicate KeptOrPut(u: string, text: string, i: nat, k: nat)
    requires k < |u| && i + k < |text|
  {
    u[k] == text[i + k] || (text[i + k] == ' ' && Put(u, k))
  }

  lemma {:induction false} UncoverAgrees(text: string, i: nat)
    requires i <= |text|
    ensures var u := Uncover(text, i);
            |u| == |text| - i && forall k :: 0 <= k < |u| ==> KeptOrPut(u, text, i, k)
    decreases |text| - i
  {
    hide KeptOrPut, Former;
    if i < |text| {
      var n, u := |Former(text, i)|, Uncover(text, i);
      UncoverAgrees(text, i + n);
      assert u[n..] == Uncover(text, i + n);
      forall k | 0 <= k < |u| ensures KeptOrPut(u, text, i, k) {
        if k < n { FormerAgrees(text, i, u, k); } else { PutStays(u, text, i, n, k); }
      }
    }
  }

  lemma FormerAgrees(text: string, i: nat, u: string, k: nat)
    requires i < |text| && k < |Former(text, i)| && |u| == |text| - i && Former(text, i) <= u
    ensures KeptOrPut(u, text, i, k)
  {
  }

  lemma PutStays(u: string, text: string, i: nat, n: nat, k: nat)
    requires n <= k < |u| && i + |u| == |text| && KeptOrPut(u[n..], text, i + n, k - n)
    ensures KeptOrPut(u, text, i, k)
  {
  }

  lemma {:induction false} UncoverIsTight(text: string, i: nat)
    requires i <= |text|
    ensures Tight(Uncover(text, i))
    decreases |text| - i
  {
    if i < |text| {
      hide Uncover, Tight;
      var n := |Former(text, i)|;
      UncoverStep(text, i);
      UncoverIsTight(text, i + n);
      if i + n < |text| {
        UncoverAgrees(text, i + n);
        assert KeptOrPut(Uncover(text, i + n), text, i + n, 0);
      }
      FormerStaysTight(text, i, Uncover(text, i + n));
    }
  }

  lemma UncoverStep(text: string, i: nat)
    requires i < |text|
    ensures Uncover(text, i) == Former(text, i) + Uncover(text, i + |Former(text, i)|)
  {
    hide Former;
  }

  lemma FormerStaysTight(text: string, i: nat, rest: string)
    requires i < |text| && Tight(rest)
    requires var n := |Former(text, i)|; rest != "" ==> i + n < |text| && (Gap(rest[0]) ==> rest[0] == text[i + n])
    ensures Tight(Former(text, i) + rest)
  {
    var first, n := Former(text, i), |Former(text, i)|;
    forall j | 0 <= j < |first + rest| - 1 && (first + rest)[j] == ' ' ensures !Gap((first + rest)[j + 1]) {
      if j >= n { assert rest[j - n] == ' ' && (first + rest)[j + 1] == rest[j - n + 1]; }
    }
  }

  // ------------------------------------------------- what strips to a given text

  /** No heredoc opens in the text with its gaps put back. */
  lemma NothingOpensUncovered(text: string, i: nat)
    requires Coverable(text) && i <= |text|
    ensures !HeredocOpener(Uncover(text, i), 0).Opener?
  {
    hide HeredocOpener, Uncover, Tight, Opens, Quiet;
    var u := Uncover(text, i);
    UncoverAgrees(text, i);
    UncoverIsTight(text, i);
    if HeredocOpener(u, 0).Opener? {
      var q, from, to, eol := OpenerHasParts(u, 0);
      NoneIsPut(text, i, q, from, to, eol);
      assert text[i..i + eol + 1] == u[..eol + 1];
      OpenerIsLocal(u, 0, text, i);
      assert Covered(text, i);
      assert text[i + 3..i + eol + 1] == u[3..eol + 1];
      PartIsTight(u, 3, eol + 1);
    }
  }

  lemma PartIsTight(u: string, from: nat, to: nat)
    requires Tight(u) && from <= to <= |u|
    ensures Tight(u[from..to])
  {
  }

  lemma NoneIsPut(text: string, i: nat, q: nat, from: nat, to: nat, eol: nat)
    requires Coverable(text) && i <= |text| && Opens(Uncover(text, i), 0, q, from, to, eol)
    ensures i + eol < |text| && forall k :: 0 <= k <= eol ==> Uncover(text, i)[k] == text[i + k]
  {
    hide Uncover, Covered;
    var u := Uncover(text, i);
    UncoverAgrees(text, i);
    forall k | 0 <= k < |u| ensures !IsQuote(u[k]) || (u[k] == '\'' && Put(u, k)) {
      assert Quiet(text, i + k) && KeptOrPut(u, text, i, k);
    }
    assert !IsQuote(u[q]) by { hide IdentPart; }
    forall k | 0 <= k <= eol ensures u[k] == text[i + k] {
      assert KeptOrPut(u, text, i, k) && u[k] != '#' && u[k] != '\'';
    }
  }

  lemma {:induction false} StripUncovers(t: CharTables, src: string, text: string, i: nat)
    requires Coverable(text) && i <= |text| && |src| == |text| && src[i..] == Uncover(text, i)
    ensures StripFrom(t, src, i, text[..i]) == text
    decreases |text| - i
  {
    hide StripFrom, LiteralEnd, Coverable, Uncover, Former;
    if i == |text| {
      StripFromEnds(t, src, i, text[..i]);
      assert text[..i] == text;
    } else {
      var n := |Former(text, i)|;
      UncoverStep(text, i);
      assert src[i..][..n] == src[i..i + n] && src[i..][n..] == src[i + n..];
      UncoversOne(t, src, text, i);
      StripUncovers(t, src, text, i + n);
    }
  }

  lemma UncoversOne(t: CharTables, src: string, text: string, i: nat)
    requires Coverable(text) && i < |text| && |src| == |text| && src[i..] == Uncover(text, i)
    requires var n := |Former(text, i)|; src[i..i + n] == Former(text, i) && src[i + n..] == Uncover(text, i + n)
    ensures var n := |Former(text, i)|; StripFrom(t, src, i, text[..i]) == StripFrom(t, src, i + n, text[..i + n])
  {
    hide StripFrom, LiteralEnd, Coverable, Uncover;
    var n := |Former(text, i)|;
    StripFromStep(t, src, i, text[..i]);
    assert src[i] == src[i..i + n][0];
    if n == 2 {
      assert src[i + 1] == src[i..i + n][1];
      EmptyStringEnds(t, src, i);
      assert text[..i] + Blanks(src, i, i + 2) == text[..i + 2];
    } else {
      if i + 1 < |text| {
        UncoverAgrees(text, i + 1);
        assert src[i + 1] == Uncover(text, i + 1)[0] && KeptOrPut(Uncover(text, i + 1), text, i + 1, 0);
      }
      if src[i] != text[i] {
        EmptyCommentEnds(t, src, i);
        assert text[..i] + Blanks(src, i, i + 1) == text[..i + 1];
      } else {
        KeptStays(t, src, text, i);
        assert text[..i] + [src[i]] == text[..i + 1];
      }
    }
  }

  lemma EmptyStringEnds(t: CharTables, src: string, i: nat)
    requires i + 2 <= |src| && src[i] == src[i + 1] == '\''
    ensures LiteralEnd(t, src, i) == i + 2
  {
    hide HeredocOpener, HeredocEnd;
    OneAt(src, i, '#');
    TwoAt(src, i, "//");
    TwoAt(src, i, "/*");
  }

  lemma EmptyCommentEnds(t: CharTables, src: string, i: nat)
    requires i + 2 <= |src| && src[i] == '#' && src[i + 1] == '\n'
    ensures LiteralEnd(t, src, i) == i + 1
  {
    hide HeredocOpener, HeredocEnd;
    OneAt(src, i, '#');
    TwoAt(src, i, "#[");
    assert StartsLineComment(src, i);
    assert LineEnd(src, i + 1) == i + 1;
  }

  lemma KeptStays(t: CharTables, src: string, text: string, i: nat)
    requires Coverable(text) && i < |text| && |src| == |text| && src[i..] == Uncover(text, i) && src[i] == text[i]
    requires i + 1 < |text| ==> src[i + 1] == text[i + 1] || src[i + 1] == '#' || src[i + 1] == '\''
    requires i + 1 < |text| && text[i + 1] == '[' ==> src[i + 1] == '['
    ensures LiteralEnd(t, src, i) == i
  {
    hide HeredocOpener, HeredocEnd, Uncover, Covered;
    NothingOpensUncovered(text, i);
    if HeredocOpener(src, i).Opener? {
      assert src[i..HeredocOpener(src, i).body] == Uncover(text, i)[..HeredocOpener(src, i).body - i];
      OpenerIsLocal(src, i, Uncover(text, i), 0);
    }
    assert Quiet(text, i);
    OneAt(src, i, '#');
    TwoAt(src, i, "#[");
    TwoAt(src, i, "//");
    TwoAt(src, i, "/*");
  }

  /** Every such text is the stripped form of a source without loose gaps. */
  lemma CoverableIsStripped(t: CharTables, text: string)
    requires Coverable(text)
    ensures Strip(t, Uncover(text, 0)) == text && Tight(Uncover(text, 0))
  {
    hide StripFrom, Uncover, Tight, Coverable;
    UncoverAgrees(text, 0);
    UncoverIsTight(text, 0);
    assert text[..0] == "" && Uncover(text, 0)[0..] == Uncover(text, 0);
    StripUncovers(t, Uncover(text, 0), text, 0);
  }

  // ------------------------------------------------- exactly which symbols are safe

  lemma EmptyIsTight()
    ensures Tight("")
  {
  }

  lemma HitIsTight(t: CharTables, src: string, sym: string, p: nat)
    requires Tight(src) && HitAt(t, src, sym, p)
    ensures Tight(sym)
  {
    PartIsTight(src, p, p + |sym|);
  }

  /** A loose symbol is mentioned by the blanks alone. */
  lemma LooseSymbolIsInvented(t: CharTables, sym: string) returns (src: string)
    requires Sane(t) && StandsInPhp(t, sym) && !Tight(sym)
    ensures Mentions(t, Strip(t, src), sym) && !Mentions(t, src, sym)
  {
    hide Strip, Coverable, Uncover, Tight, HitAt;
    EmptyIsTight();
    src := Uncover(Around(t, sym), 0);
    CoverableIsStripped(t, Around(t, sym));
    StandsAsWord(t, sym);
    forall p: nat ensures !HitAt(t, src, sym, p) {
      if HitAt(t, src, sym, p) {
        HitIsTight(t, src, sym, p);
      }
    }
  }

  /** Stripping PHP never invents a mention of the symbol, in any source, exactly when it has no
      loose gap or cannot stand in stripped code at all. */
  lemma StrippingInventsNoMentionExactly(t: CharTables, sym: string)
    requires Sane(t)
    ensures (forall src :: Mentions(t, Strip(t, src), sym) ==> Mentions(t, src, sym)) <==>
            Tight(sym) || !StandsInPhp(t, sym)
  {
    hide Strip, Mentions, StandsInPhp, Tight;
    if Tight(sym) {
      forall src | Mentions(t, Strip(t, src), sym) ensures Mentions(t, src, sym) {
        StripInventsNoMention(t, src, sym);
      }
    } else if StandsInPhp(t, sym) {
      var src := LooseSymbolIsInvented(t, sym);
    } else {
      EmptyIsTight();
      forall src ensures !Mentions(t, Strip(t, src), sym) {
        if Mentions(t, Strip(t, src), sym) { MentionedSymbolsStand(t, src, sym); }
      }
    }
  }
}
