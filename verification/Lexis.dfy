/** Characters and whole-word mentions, shared by the literal strippers.  Which characters are
    letters, digits or white space is a parameter, so that every Unicode table is covered. */
module Lexis {

  datatype CharTables = CharTables(alnum: char -> bool, space: char -> bool)

  predicate IsWord(t: CharTables, c: char) {
    t.alnum(c) || c == '_'
  }

  predicate At(text: string, i: nat, s: string) {
    i + |s| <= |text| && text[i..i + |s|] == s
  }

  lemma OneAt(text: string, i: nat, c: char)
    requires i < |text|
    ensures At(text, i, [c]) <==> text[i] == c
  {
    assert text[i..i + 1] == [text[i]];
  }

  lemma TwoAt(text: string, i: nat, two: string)
    requires |two| == 2
    ensures At(text, i, two) <==> i + 2 <= |text| && text[i] == two[0] && text[i + 1] == two[1]
  {
    if i + 2 <= |text| {
      assert text[i..i + 2] == [text[i], text[i + 1]];
    }
  }

  /** Blanking keeps line breaks. */
  function Blank(c: char): char {
    if c == '\n' then '\n' else ' '
  }

  /** What the strippers rely on: the white space and punctuation they handle is not alphanumeric. */
  ghost predicate Sane(t: CharTables) {
    && t.space(' ') && t.space('\n')
    && (forall c :: t.space(c) ==> !IsWord(t, c))
    && (forall c :: c in {'\'', '"', '`', '/', '*', '$', '{', '}', '\\', '#', '<', '['} ==> !IsWord(t, c))
    && (forall c :: 'a' <= c <= 'z' || 'A' <= c <= 'Z' || '0' <= c <= '9' ==> t.alnum(c))
  }

  /** A word boundary between positions k - 1 and k. */
  predicate Boundary(t: CharTables, text: string, k: nat)
    requires k <= |text|
  {
    (k > 0 && IsWord(t, text[k - 1])) != (k < |text| && IsWord(t, text[k]))
  }

  /** `sym` occurs at position p as a whole word. */
  predicate HitAt(t: CharTables, text: string, sym: string, p: nat) {
    p + |sym| <= |text| && text[p..p + |sym|] == sym && Boundary(t, text, p) && Boundary(t, text, p + |sym|)
  }

  ghost predicate Mentions(t: CharTables, text: string, sym: string) {
    exists p :: HitAt(t, text, sym, p)
  }

  /** The words put around a symbol so that it stands at word boundaries. */
  function Before(t: CharTables, sym: string): string {
    if sym != "" && IsWord(t, sym[0]) then "" else "a"
  }

  function After(t: CharTables, sym: string): string {
    if sym != "" && IsWord(t, sym[|sym| - 1]) then "" else "a"
  }

  function Around(t: CharTables, sym: string): string {
    Before(t, sym) + sym + After(t, sym)
  }

  lemma StandsAsWord(t: CharTables, sym: string)
    requires Sane(t) && sym != ""
    ensures HitAt(t, Around(t, sym), sym, |Before(t, sym)|)
  {
    var text, p := Around(t, sym), |Before(t, sym)|;
    assert text[p..p + |sym|] == sym;
    assert IsWord(t, 'a');
  }

  /** Every character of `code` is the one of `raw` at the same position, or a space. */
  ghost predicate Blanked(raw: string, code: string) {
    && |raw| <= |code|
    && forall k :: 0 <= k < |code| ==> code[k] == ' ' || (k < |raw| && code[k] == raw[k])
  }

  /** Of two neighbours, a kept word character is not cut off from a word character that was blanked. */
  ghost predicate Seam(t: CharTables, raw: string, code: string, k: nat)
    requires 0 < k < |raw| && k < |code|
  {
    && (IsWord(t, code[k]) && code[k - 1] != raw[k - 1] ==> !IsWord(t, raw[k - 1]))
    && (IsWord(t, code[k - 1]) && code[k] != raw[k] ==> !IsWord(t, raw[k]))
  }

  ghost predicate CutAtBoundaries(t: CharTables, raw: string, code: string) {
    forall k :: 0 < k < |raw| && k < |code| ==> Seam(t, raw, code, k)
  }

  predicate Gap(c: char) {
    c == ' ' || c == '\n'
  }

  /** From m to k there are only gaps, and at m a space with another gap after it. */
  ghost predicate WideAt(code: string, k: nat, m: nat) {
    && m <= k < |code| && m + 1 < |code|
    && code[m] == ' ' && Gap(code[m + 1])
    && forall i :: m <= i <= k ==> Gap(code[i])
  }

  /** A blanked position never stands alone, unless it ends the text. */
  ghost predicate GapsAreWide(raw: string, code: string) {
    forall k :: 0 <= k < |code| && (k >= |raw| || code[k] != raw[k]) ==>
      k + 1 == |code| || exists m :: WideAt(code, k, m)
  }

  /** No space in the symbol is followed by another space or a line break. */
  predicate Tight(sym: string) {
    forall j :: 0 <= j < |sym| - 1 && sym[j] == ' ' ==> !Gap(sym[j + 1])
  }

  /** A whole-word hit over a gap that is wide, or ends the text, is not of a tight symbol. */
  lemma GapBreaksHit(t: CharTables, code: string, sym: string, p: nat, k: nat, m: nat)
    requires Sane(t) && HitAt(t, code, sym, p) && p <= k < p + |sym| && Gap(code[k])
    requires k + 1 == |code| || WideAt(code, k, m)
    ensures !Tight(sym)
  {
    assert forall i :: 0 <= i < |sym| ==> code[p + i] == code[p..p + |sym|][i] == sym[i];
    assert p <= m && m + 1 < p + |sym|;
    assert sym[m - p] == ' ' && Gap(sym[m - p + 1]);
  }

  /** A whole-word hit of a tight symbol lies clear of everything that was blanked. */
  lemma HitIsKept(t: CharTables, raw: string, code: string, sym: string, p: nat, j: nat)
    requires Sane(t) && Blanked(raw, code) && GapsAreWide(raw, code)
    requires Tight(sym) && HitAt(t, code, sym, p) && j < |sym|
    ensures p + j < |raw| && raw[p + j] == sym[j]
  {
    hide Tight, WideAt;
    var k := p + j;
    assert code[k] == code[p..p + |sym|][j] == sym[j];
    if k >= |raw| || code[k] != raw[k] {
      var m: nat :| k + 1 == |code| || WideAt(code, k, m);
      GapBreaksHit(t, code, sym, p, k, m);
    }
  }

  lemma BoundaryCarriesOver(t: CharTables, raw: string, code: string, k: nat)
    requires Sane(t) && Blanked(raw, code) && CutAtBoundaries(t, raw, code)
    requires k <= |raw| && Boundary(t, code, k)
    ensures Boundary(t, raw, k)
  {
    if 0 < k < |raw| {
      assert Seam(t, raw, code, k);
      assert code[k] == ' ' || code[k] == raw[k];
      assert code[k - 1] == ' ' || code[k - 1] == raw[k - 1];
    }
  }

  /** A whole-word hit in the stripped text is one in the raw text, at the same position. */
  lemma HitCarriesOver(t: CharTables, raw: string, code: string, sym: string, p: nat)
    requires Sane(t) && Blanked(raw, code) && CutAtBoundaries(t, raw, code)
    requires GapsAreWide(raw, code) && Tight(sym) && HitAt(t, code, sym, p)
    ensures HitAt(t, raw, sym, p)
  {
    hide Tight, GapsAreWide, CutAtBoundaries;
    forall j | 0 <= j < |sym| ensures p + j < |raw| && raw[p + j] == sym[j] {
      HitIsKept(t, raw, code, sym, p, j);
    }
    if sym != "" {
      assert p + (|sym| - 1) < |raw|;
    }
    HitWithin(t, raw, code, sym, p);
    BoundaryCarriesOver(t, raw, code, p);
    BoundaryCarriesOver(t, raw, code, p + |sym|);
    assert raw[p..p + |sym|] == sym;
  }

  lemma HitWithin(t: CharTables, raw: string, code: string, sym: string, p: nat)
    requires Sane(t) && Blanked(raw, code) && HitAt(t, code, sym, p)
    requires sym != "" ==> p + |sym| <= |raw|
    ensures p + |sym| <= |raw|
  {
  }
}
