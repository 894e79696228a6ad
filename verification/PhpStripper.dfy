/** Blanking comments, strings and heredocs of PHP sources. */
module PhpStripper {
  import opened Lexis

  // ------------------------------------------------- where literals end

  function LineEnd(src: string, i: nat): (j: nat)
    ensures i <= |src| ==> i <= j <= |src| && (j < |src| ==> src[j] == '\n')
    decreases |src| - i
  {
    if i >= |src| || src[i] == '\n' then i else LineEnd(src, i + 1)
  }

  /** An unterminated comment ends two positions past the text. */
  function BlockEnd(src: string, i: nat): (j: nat)
    ensures i <= |src| ==> i + 2 <= j <= |src| + 2
    ensures j <= |src| ==> j >= 1 && src[j - 1] == '/'
    decreases |src| - i
  {
    if i >= |src| then i + 2
    else if At(src, i, "*/") then
      assert src[i + 1] == src[i..i + 2][1];
      i + 2
    else BlockEnd(src, i + 1)
  }

  function QuotedEnd(src: string, i: nat, quote: char): (j: nat)
    ensures i <= |src| ==> i <= j <= |src| && (j < |src| ==> j > i && src[j - 1] == quote)
    decreases |src| - i
  {
    if i >= |src| then i
    else if src[i] == quote then i + 1
    else if src[i] == '\\' && i + 2 <= |src| then QuotedEnd(src, i + 2, quote)
    else QuotedEnd(src, i + 1, quote)
  }

  function BlanksEnd(src: string, i: nat): (j: nat)
    ensures i <= |src| ==> i <= j <= |src|
    decreases |src| - i
  {
    if i < |src| && (src[i] == ' ' || src[i] == '\t') then BlanksEnd(src, i + 1) else i
  }

  predicate IdentStart(c: char) {
    'a' <= c <= 'z' || 'A' <= c <= 'Z' || c == '_'
  }

  predicate IdentPart(c: char) {
    IdentStart(c) || '0' <= c <= '9'
  }

  function IdentEnd(src: string, i: nat): (j: nat)
    ensures i <= |src| ==> i <= j <= |src| && forall k :: i <= k < j ==> IdentPart(src[k])
    decreases |src| - i
  {
    if i < |src| && IdentPart(src[i]) then IdentEnd(src, i + 1) else i
  }

  datatype Opener = NoOpener | Opener(tag: string, body: nat)

  /** The heredoc or nowdoc opened at `i`: its tag, and where its first line starts. */
  function HeredocOpener(src: string, i: nat): (o: Opener)
    ensures o.Opener? ==> i + 3 < o.body <= |src| && o.tag != "" && forall c :: c in o.tag ==> IdentPart(c)
  {
    if !At(src, i, "<<<") then NoOpener
    else
      var q := BlanksEnd(src, i + 3);
      var quoted := q < |src| && (src[q] == '\'' || src[q] == '"');
      var from := if quoted then q + 1 else q;
      if from >= |src| || !IdentStart(src[from]) then NoOpener
      else
        var to := IdentEnd(src, from);
        if quoted && (to >= |src| || src[to] != src[q]) then NoOpener
        else
          var eol := BlanksEnd(src, if quoted then to + 1 else to);
          if eol < |src| && src[eol] == '\n' then Opener(src[from..to], eol + 1) else NoOpener
  }

  /** The label closes the heredoc on this line when nothing but blanks precedes it and no word character follows. */
  predicate ClosesAt(t: CharTables, src: string, tag: string, p: nat) {
    At(src, p, tag) && (p + |tag| == |src| || !IsWord(t, src[p + |tag|]))
  }

  function HeredocEnd(t: CharTables, src: string, tag: string, line: nat): (j: nat)
    ensures line <= |src| ==> line <= j <= |src|
    ensures j < |src| && line <= |src| ==> !IsWord(t, src[j])
    decreases |src| - line
  {
    if line >= |src| then line
    else
      var p := BlanksEnd(src, line);
      if ClosesAt(t, src, tag, p) then p + |tag|
      else
        var eol := LineEnd(src, line);
        if eol >= |src| then |src| else HeredocEnd(t, src, tag, eol + 1)
  }

  predicate StartsLineComment(src: string, i: nat) {
    At(src, i, "//") || (At(src, i, "#") && !At(src, i, "#["))
  }

  /** Where the comment or literal starting at `i` ends; `i` itself when none starts there. */
  function LiteralEnd(t: CharTables, src: string, i: nat): (j: nat)
    requires i < |src|
    ensures i <= j <= |src| + 2
  {
    var c := src[i];
    if StartsLineComment(src, i) then LineEnd(src, i)
    else if At(src, i, "/*") then BlockEnd(src, i)
    else if c == '\'' || c == '"' then QuotedEnd(src, i + 1, c)
    else
      var o := HeredocOpener(src, i);
      if o.Opener? then HeredocEnd(t, src, o.tag, o.body) else i
  }

  // ------------------------------------------------- the specification

  function Blanks(src: string, i: nat, j: nat): (out: string)
    requires i <= j
    ensures |out| == j - i
    ensures forall k :: i <= k < j ==> out[k - i] == if k < |src| then Blank(src[k]) else ' '
  {
    seq(j - i, k requires 0 <= k < j - i => if i + k < |src| then Blank(src[i + k]) else ' ')
  }

  function StripFrom(t: CharTables, src: string, i: nat, out: string): string
    decreases |src| - i
  {
    if i >= |src| then out
    else
      var j := LiteralEnd(t, src, i);
      if j > i then StripFrom(t, src, j, out + Blanks(src, i, j))
      else StripFrom(t, src, i + 1, out + [src[i]])
  }

  function Strip(t: CharTables, src: string): string {
    StripFrom(t, src, 0, "")
  }

  // ------------------------------------------------- what stripping keeps

  ghost predicate Sound(src: string, i: nat, out: string) {
    && |out| == i <= |src| + 2
    && forall k :: 0 <= k < i ==>
         if k < |src| then out[k] == src[k] || (out[k] == ' ' && src[k] != '\n') else out[k] == ' '
  }

  ghost predicate Seamless(t: CharTables, src: string, i: nat, out: string) {
    && |out| == i && CutAtBoundaries(t, src, out)
    && (0 < i < |src| && out[i - 1] != src[i - 1] ==> !IsWord(t, src[i - 1]) || !IsWord(t, src[i]))
  }

  /** A literal's blanks are a wide gap, save that a bare `#` may stand alone before a line break. */
  ghost predicate Wide(src: string, i: nat, out: string)
    requires |out| == i
  {
    forall k :: 0 <= k < i && (k >= |src| || out[k] != src[k]) ==> NotAlone(src, out, k)
  }

  ghost predicate NotAlone(src: string, out: string, k: nat) {
    (k + 1 == |out| && (k + 1 >= |src| || src[k + 1] == '\n')) || exists m :: WideAt(out, k, m)
  }

  /** Only a bare `#`, or an opener at the end of the text, is a literal of one character. */
  lemma LiteralsAreLong(t: CharTables, src: string, i: nat)
    requires i < |src| && LiteralEnd(t, src, i) > i
    ensures src[i] != '\n'
    ensures var j := LiteralEnd(t, src, i); j >= i + 2 || j >= |src| || src[j] == '\n'
  {
    var c := src[i];
    if At(src, i, "//") || At(src, i, "/*") {
      assert c == src[i..i + 2][0] == '/';
    } else if At(src, i, "#") {
      assert c == src[i..i + 1][0] == '#';
    } else if c != '\'' && c != '"' {
      assert c == src[i..i + 3][0] == '<';
    }
  }

  lemma LiteralStaysWide(t: CharTables, src: string, i: nat, out: string)
    requires i < |src| && LiteralEnd(t, src, i) > i && |out| == i && Wide(src, i, out)
    ensures var j := LiteralEnd(t, src, i); Wide(src, j, out + Blanks(src, i, j))
  {
    hide LiteralEnd;
    LiteralsAreLong(t, src, i);
    var j := LiteralEnd(t, src, i);
    var all := out + Blanks(src, i, j);
    forall k | i <= k < j ensures all[k] == if k < |src| then Blank(src[k]) else ' ' {}
    forall k | 0 <= k < j && (k >= |src| || all[k] != src[k])
      ensures NotAlone(src, all, k)
    {
      if k < i {
        assert NotAlone(src, out, k);
        assert all[k] == out[k];
        var m :| WideAt(out, k, m);
        assert WideAt(all, k, m);
      } else if j >= i + 2 {
        assert WideAt(all, k, i);
      }
    }
  }

  lemma CodeStaysWide(src: string, i: nat, out: string)
    requires i < |src| && Sound(src, i, out) && Wide(src, i, out)
    ensures Wide(src, i + 1, out + [src[i]])
  {
    var all := out + [src[i]];
    forall k | 0 <= k < i + 1 && (k >= |src| || all[k] != src[k])
      ensures NotAlone(src, all, k)
    {
      assert all[k] == out[k] && NotAlone(src, out, k);
      if m :| WideAt(out, k, m) {
        assert WideAt(all, k, m);
      } else {
        assert WideAt(all, k, k);
      }
    }
  }

  /** Literals start on a character that is no part of a word, and end at a word boundary. */
  lemma LiteralCutsAtBoundaries(t: CharTables, src: string, i: nat)
    requires Sane(t) && i < |src| && LiteralEnd(t, src, i) > i
    ensures !IsWord(t, src[i])
    ensures var j := LiteralEnd(t, src, i); j < |src| ==> !IsWord(t, src[j - 1]) || !IsWord(t, src[j])
  {
    var c := src[i];
    if At(src, i, "//") || At(src, i, "/*") {
      assert c == src[i..i + 2][0] == '/';
    } else if At(src, i, "#") {
      assert c == src[i..i + 1][0] == '#';
    } else if c != '\'' && c != '"' {
      assert c == src[i..i + 3][0] == '<';
    }
  }

  lemma LiteralKeeps(t: CharTables, src: string, i: nat, out: string)
    requires Sane(t) && i < |src| && LiteralEnd(t, src, i) > i
    requires Sound(src, i, out) && Seamless(t, src, i, out)
    ensures var j := LiteralEnd(t, src, i);
            Sound(src, j, out + Blanks(src, i, j)) && Seamless(t, src, j, out + Blanks(src, i, j))
  {
    hide LiteralEnd;
    LiteralCutsAtBoundaries(t, src, i);
    var j := LiteralEnd(t, src, i);
    var all := out + Blanks(src, i, j);
    forall k | i <= k < j ensures all[k] == if k < |src| then Blank(src[k]) else ' ' {}
    forall k | 0 <= k < i ensures all[k] == out[k] {}
    forall k | 0 < k < |src| && k < j ensures Seam(t, src, all, k) {
      if k < i { assert Seam(t, src, out, k); }
    }
  }

  lemma CodeKeeps(t: CharTables, src: string, i: nat, out: string)
    requires i < |src| && Sound(src, i, out) && Seamless(t, src, i, out)
    ensures Sound(src, i + 1, out + [src[i]]) && Seamless(t, src, i + 1, out + [src[i]])
  {
    var all := out + [src[i]];
    forall k | 0 < k < |src| && k < i + 1 ensures Seam(t, src, all, k) {
      if k < i { assert Seam(t, src, out, k); }
    }
  }

  lemma {:induction false} StripFromKeeps(t: CharTables, src: string, i: nat, out: string)
    requires Sane(t) && Sound(src, i, out) && Seamless(t, src, i, out) && Wide(src, i, out)
    ensures var code := StripFrom(t, src, i, out);
            |src| <= |code| && Sound(src, |code|, code) && CutAtBoundaries(t, src, code) && GapsAreWide(src, code)
    decreases |src| - i
  {
    if i < |src| {
      var j := LiteralEnd(t, src, i);
      if j > i {
        LiteralKeeps(t, src, i, out);
        LiteralStaysWide(t, src, i, out);
        StripFromKeeps(t, src, j, out + Blanks(src, i, j));
      } else {
        CodeKeeps(t, src, i, out);
        CodeStaysWide(src, i, out);
        StripFromKeeps(t, src, i + 1, out + [src[i]]);
      }
    }
  }

  /** Stripping only blanks, never moves a position, keeps every line break where it was, may add two
      spaces at the end, cuts no word in two and leaves no blank alone. */
  lemma StripOnlyBlanks(t: CharTables, src: string)
    requires Sane(t)
    ensures var code := Strip(t, src);
            && Blanked(src, code) && |code| <= |src| + 2
            && CutAtBoundaries(t, src, code) && GapsAreWide(src, code)
            && forall k :: 0 <= k < |src| ==> (code[k] == '\n' <==> src[k] == '\n')
  {
    StripFromKeeps(t, src, 0, "");
  }

  /** Stripping never invents a mention. */
  lemma StripInventsNoMention(t: CharTables, src: string, sym: string)
    requires Sane(t) && Tight(sym)
    ensures Mentions(t, Strip(t, src), sym) ==> Mentions(t, src, sym)
  {
    if Mentions(t, Strip(t, src), sym) {
      StripOnlyBlanks(t, src);
      var p :| HitAt(t, Strip(t, src), sym, p);
      HitCarriesOver(t, src, Strip(t, src), sym, p);
    }
  }

  // ------------------------------------------------- what stripping leaves alone

  /** Nothing opens at `k`. */
  predicate Plain(t: CharTables, src: string, k: nat)
    requires k < |src|
  {
    LiteralEnd(t, src, k) == k
  }

  lemma {:induction false} StripFromExtends(t: CharTables, src: string, i: nat, out: string)
    ensures out <= StripFrom(t, src, i, out)
    decreases |src| - i
  {
    hide LiteralEnd;
    if i < |src| {
      var j := LiteralEnd(t, src, i);
      if j > i {
        StripFromExtends(t, src, j, out + Blanks(src, i, j));
      } else {
        StripFromExtends(t, src, i + 1, out + [src[i]]);
      }
    }
  }

  lemma LiteralChangesItsFirst(t: CharTables, src: string, i: nat, out: string)
    requires i < |src| && |out| == i && LiteralEnd(t, src, i) > i
    ensures var code := StripFrom(t, src, i, out); i < |code| && code[i] == ' ' && src[i] != ' '
  {
    hide LiteralEnd, StripFrom;
    var j := LiteralEnd(t, src, i);
    LiteralOpeners(t, src, i);
    StripFromStep(t, src, i, out);
    StripFromExtends(t, src, j, out + Blanks(src, i, j));
    assert (out + Blanks(src, i, j))[i] == ' ';
  }

  lemma StripFromStep(t: CharTables, src: string, i: nat, out: string)
    requires i < |src|
    ensures var j := LiteralEnd(t, src, i);
            StripFrom(t, src, i, out) ==
              if j > i then StripFrom(t, src, j, out + Blanks(src, i, j))
              else StripFrom(t, src, i + 1, out + [src[i]])
  {
    hide LiteralEnd;
  }

  lemma LiteralOpeners(t: CharTables, src: string, i: nat)
    requires i < |src| && LiteralEnd(t, src, i) > i
    ensures src[i] in {'/', '#', '\'', '"', '<'}
  {
    hide LineEnd, BlockEnd, QuotedEnd, HeredocEnd;
    TwoAt(src, i, "//");
    TwoAt(src, i, "/*");
    if At(src, i, "#") { assert src[i] == src[i..i + 1][0]; }
    if At(src, i, "<<<") { assert src[i] == src[i..i + 3][0]; }
  }

  lemma {:induction false} PlainFromKeepsAll(t: CharTables, src: string, i: nat)
    requires i <= |src|
    ensures StripFrom(t, src, i, src[..i]) == src <==> forall k :: i <= k < |src| ==> Plain(t, src, k)
    decreases |src| - i
  {
    hide LiteralEnd, StripFrom;
    if i == |src| {
      StripFromEnds(t, src, i, src[..i]);
      assert src[..i] == src;
    } else {
      StripFromStep(t, src, i, src[..i]);
      if Plain(t, src, i) {
        assert src[..i] + [src[i]] == src[..i + 1];
        PlainFromKeepsAll(t, src, i + 1);
      } else {
        LiteralChangesItsFirst(t, src, i, src[..i]);
      }
    }
  }

  lemma StripFromEnds(t: CharTables, src: string, i: nat, out: string)
    requires i >= |src|
    ensures StripFrom(t, src, i, out) == out
  {
  }

  /** Text is left alone exactly when no comment, string or heredoc opens anywhere in it. */
  lemma PlainIsUnchanged(t: CharTables, src: string)
    ensures Strip(t, src) == src <==> forall k :: 0 <= k < |src| ==> Plain(t, src, k)
  {
    PlainFromKeepsAll(t, src, 0);
    assert src[..0] == "";
  }

  // ------------------------------------------------- what the output holds

  /** What is kept at k opens neither a string nor a comment, whatever is blanked after it. */
  ghost predicate Harmless(src: string, out: string, k: nat)
    requires k < |out|
  {
    && out[k] != '\'' && out[k] != '"'
    && (out[k] == '/' ==> k < |src| && src[k] == '/' && !At(src, k, "//") && !At(src, k, "/*"))
    && (out[k] == '#' && k + 1 < |out| ==> out[k + 1] == '[')
    && (out[k] == '#' && k + 1 == |out| ==> k + 1 < |src| && src[k + 1] == '[')
  }

  ghost predicate Tidy(src: string, i: nat, out: string) {
    |out| == i && forall k :: 0 <= k < i ==> Harmless(src, out, k)
  }

  lemma CodeStaysTidy(t: CharTables, src: string, i: nat, out: string)
    requires i < |src| && LiteralEnd(t, src, i) == i && Tidy(src, i, out)
    ensures Tidy(src, i + 1, out + [src[i]])
  {
    hide BlockEnd, QuotedEnd, HeredocEnd, HeredocOpener;
    var c := src[i];
    TwoAt(src, i, "#[");
    TwoAt(src, i, "//");
    assert At(src, i, "#") <==> c == '#' by {
      assert src[i..i + 1] == [c];
    }
    var all := out + [c];
    forall k | 0 <= k < i + 1 ensures Harmless(src, all, k) {
      if k < i {
        assert Harmless(src, out, k);
        assert all[k + 1] == if k + 1 < i then out[k + 1] else c;
      }
    }
  }

  lemma LiteralStaysTidy(t: CharTables, src: string, i: nat, out: string)
    requires i < |src| && LiteralEnd(t, src, i) > i && Tidy(src, i, out)
    ensures var j := LiteralEnd(t, src, i); Tidy(src, j, out + Blanks(src, i, j))
  {
    hide LiteralEnd;
    LiteralOpeners(t, src, i);
    var j := LiteralEnd(t, src, i);
    var all := out + Blanks(src, i, j);
    forall k | 0 <= k < j ensures Harmless(src, all, k) {
      if k < i {
        assert Harmless(src, out, k);
        assert k + 1 < i ==> all[k + 1] == out[k + 1];
      } else {
        assert all[k] == ' ' || all[k] == '\n';
      }
    }
  }

  lemma {:induction false} StripFromStaysTidy(t: CharTables, src: string, i: nat, out: string)
    requires Tidy(src, i, out)
    ensures var code := StripFrom(t, src, i, out); |src| <= |code| && Tidy(src, |code|, code)
    decreases |src| - i
  {
    hide LiteralEnd, Tidy, StripFrom;
    TidyLength(src, i, out);
    if i < |src| {
      StripFromStep(t, src, i, out);
      var j := LiteralEnd(t, src, i);
      if j > i {
        LiteralStaysTidy(t, src, i, out);
        StripFromStaysTidy(t, src, j, out + Blanks(src, i, j));
      } else {
        CodeStaysTidy(t, src, i, out);
        StripFromStaysTidy(t, src, i + 1, out + [src[i]]);
      }
    } else {
      StripFromEnds(t, src, i, out);
    }
  }

  lemma TidyLength(src: string, i: nat, out: string)
    requires Tidy(src, i, out)
    ensures |out| == i
  {
  }

  /** In stripped text no string and no comment opens; only a heredoc can. */
  lemma OnlyHeredocsOpenInTheOutput(t: CharTables, src: string, k: nat)
    requires Sane(t) && k < |Strip(t, src)|
    ensures var code := Strip(t, src);
            && code[k] != '\'' && code[k] != '"' && !StartsLineComment(code, k) && !At(code, k, "/*")
            && (Plain(t, code, k) <==> HeredocOpener(code, k).NoOpener?)
  {
    hide LineEnd, BlockEnd, QuotedEnd, HeredocOpener, StripFrom;
    var code := Strip(t, src);
    StripFromStaysTidy(t, src, 0, "");
    StripOnlyBlanks(t, src);
    TwoAt(code, k, "//");
    TwoAt(code, k, "/*");
    TwoAt(code, k, "#[");
    assert Harmless(src, code, k);
    TwoAt(src, k, "//");
    TwoAt(src, k, "/*");
    assert At(code, k, "#") <==> code[k] == '#' by {
      assert code[k..k + 1] == [code[k]];
    }
  }

  /** Stripping again changes nothing exactly when blanking has not left a heredoc opener behind. */
  lemma StripIsIdempotentExactlyWithoutHeredocs(t: CharTables, src: string)
    requires Sane(t)
    ensures var code := Strip(t, src);
            Strip(t, code) == code <==> forall k :: 0 <= k < |code| ==> HeredocOpener(code, k).NoOpener?
  {
    hide LiteralEnd, Strip, HeredocOpener;
    var code := Strip(t, src);
    PlainIsUnchanged(t, code);
    forall k | 0 <= k < |code| ensures Plain(t, code, k) <==> HeredocOpener(code, k).NoOpener? {
      OnlyHeredocsOpenInTheOutput(t, src, k);
    }
  }

  // ------------------------------------------------- a text that stripping changes twice

  lemma OpensNothing(t: CharTables, src: string, k: nat)
    requires k < |src| && src[k] !in {'/', '#', '\'', '"'}
    requires src[k] == '<' ==> HeredocOpener(src, k).NoOpener?
    ensures LiteralEnd(t, src, k) == k
  {
    hide LineEnd, BlockEnd, QuotedEnd, HeredocEnd;
    OneAt(src, k, '#');
    TwoAt(src, k, "//");
    TwoAt(src, k, "/*");
    if src[k] != '<' { NoAngle(src, k); }
  }

  lemma NoAngle(src: string, k: nat)
    requires k < |src| && src[k] != '<'
    ensures HeredocOpener(src, k).NoOpener?
  {
    if k + 3 <= |src| { assert src[k..k + 3][0] == src[k]; }
  }

  const COMMENTED := "<<<E//\nx"
  const UNCOVERED := "<<<E  \nx"

  lemma NoHeredocYet()
    ensures forall k :: 0 <= k < 3 ==> HeredocOpener(COMMENTED, k).NoOpener?
  {
    var src := COMMENTED;
    assert BlanksEnd(src, 3) == 3 && IdentEnd(src, 3) == IdentEnd(src, 4) == 4 && BlanksEnd(src, 4) == 4;
    assert !At(src, 1, "<<<") by { assert src[1..4][2] == 'E'; }
    assert !At(src, 2, "<<<") by { assert src[2..5][1] == 'E'; }
  }

  lemma CommentEnds(t: CharTables)
    ensures LiteralEnd(t, COMMENTED, 4) == 6
  {
    TwoAt(COMMENTED, 4, "//");
    assert LineEnd(COMMENTED, 4) == LineEnd(COMMENTED, 5) == LineEnd(COMMENTED, 6) == 6;
  }

  lemma KeptStep(t: CharTables, src: string, i: nat)
    requires i < |src| && src[i] !in {'/', '#', '\'', '"'} && (src[i] == '<' ==> HeredocOpener(src, i).NoOpener?)
    ensures forall out :: StripFrom(t, src, i, out) == StripFrom(t, src, i + 1, out + [src[i]])
  {
    hide LiteralEnd, StripFrom;
    OpensNothing(t, src, i);
    forall out ensures StripFrom(t, src, i, out) == StripFrom(t, src, i + 1, out + [src[i]]) {
      StripFromStep(t, src, i, out);
    }
  }

  lemma CommentIsBlanked(t: CharTables)
    ensures Strip(t, COMMENTED) == UNCOVERED
  {
    hide StripFrom, LiteralEnd, HeredocOpener;
    var src := COMMENTED;
    NoHeredocYet();
    KeptStep(t, src, 0);
    KeptStep(t, src, 1);
    KeptStep(t, src, 2);
    KeptStep(t, src, 3);
    assert "" + [src[0]] + [src[1]] + [src[2]] + [src[3]] == "<<<E";
    assert Strip(t, src) == StripFrom(t, src, 4, "<<<E");
    CommentEnds(t);
    StripFromStep(t, src, 4, "<<<E");
    assert "<<<E" + Blanks(src, 4, 6) == "<<<E  ";
    KeptStep(t, src, 6);
    KeptStep(t, src, 7);
    assert "<<<E  " + [src[6]] + [src[7]] == UNCOVERED;
    StripFromEnds(t, src, 8, UNCOVERED);
  }

  lemma HeredocUncovered()
    ensures HeredocOpener(UNCOVERED, 0).Opener?
  {
    assert UNCOVERED[0..3] == "<<<";
    assert BlanksEnd(UNCOVERED, 3) == 3;
    assert BlanksEnd(UNCOVERED, 4) == BlanksEnd(UNCOVERED, 5) == BlanksEnd(UNCOVERED, 6) == 6;
    assert IdentEnd(UNCOVERED, 3) == IdentEnd(UNCOVERED, 4) == 4;
  }

  /** A comment behind a heredoc's tag keeps it from opening; blanked, it no longer does, and the
      second pass takes the rest of the text for the heredoc's body. */
  lemma StripIsNotAlwaysIdempotent(t: CharTables)
    requires Sane(t)
    ensures Strip(t, Strip(t, COMMENTED)) != Strip(t, COMMENTED)
  {
    hide Strip, HeredocOpener;
    CommentIsBlanked(t);
    StripIsIdempotentExactlyWithoutHeredocs(t, COMMENTED);
    HeredocUncovered();
  }

  // ------------------------------------------------- the scanning loop

  /** The closing line of a heredoc, found by trying one line after another. */
  method FindHeredocEnd(t: CharTables, src: string, tag: string, body: nat) returns (stop: nat)
    requires body <= |src|
    ensures stop == HeredocEnd(t, src, tag, body)
  {
    var line := body;
    while line < |src|
      invariant line <= |src| && HeredocEnd(t, src, tag, line) == HeredocEnd(t, src, tag, body)
    {
      var p := BlanksEnd(src, line);
      if ClosesAt(t, src, tag, p) {
        return p + |tag|;
      }
      var eol := LineEnd(src, line);
      if eol >= |src| {
        return |src|;
      }
      line := eol + 1;
    }
    stop := line;
  }

  lemma BlanksGrow(src: string, i: nat, j: nat, k: nat)
    requires i <= j <= k
    ensures Blanks(src, i, j) + Blanks(src, j, k) == Blanks(src, i, k)
  {
  }

  method SkipLine(src: string, start: nat) returns (blank: string, i: nat)
    requires start < |src|
    ensures i == LineEnd(src, start) && blank == Blanks(src, start, i)
  {
    blank, i := "", start;
    while i < |src| && src[i] != '\n'
      invariant start <= i <= |src| && LineEnd(src, i) == LineEnd(src, start) && blank == Blanks(src, start, i)
    {
      BlanksGrow(src, start, i, i + 1);
      blank, i := blank + " ", i + 1;
    }
  }

  lemma BlockStep(src: string, i: nat)
    ensures BlockEnd(src, i) == if i >= |src| || At(src, i, "*/") then i + 2 else BlockEnd(src, i + 1)
  {
    hide At;
  }

  lemma BlankOneMore(src: string, i: nat, j: nat)
    requires i <= j < |src|
    ensures Blanks(src, i, j) + [Blank(src[j])] == Blanks(src, i, j + 1)
  {
    BlanksGrow(src, i, j, j + 1);
    assert Blanks(src, j, j + 1) == [Blank(src[j])];
  }

  lemma BlankTheEnd(src: string, i: nat, j: nat)
    requires i <= j && (j >= |src| || At(src, j, "*/"))
    ensures Blanks(src, i, j) + "  " == Blanks(src, i, j + 2)
  {
    TwoAt(src, j, "*/");
    BlanksGrow(src, i, j, j + 2);
    assert Blanks(src, j, j + 2) == "  ";
  }

  method SkipBlock(src: string, start: nat) returns (blank: string, i: nat)
    requires start < |src|
    ensures i == BlockEnd(src, start) && blank == Blanks(src, start, i)
  {
    hide BlockEnd, Blanks, At;
    blank, i := "", start;
    while i < |src| && !At(src, i, "*/")
      invariant start <= i <= |src| && BlockEnd(src, i) == BlockEnd(src, start) && blank == Blanks(src, start, i)
    {
      BlockStep(src, i);
      BlankOneMore(src, start, i);
      blank, i := blank + [Blank(src[i])], i + 1;
    }
    BlockStep(src, i);
    BlankTheEnd(src, start, i);
    blank, i := blank + "  ", i + 2;
  }

  lemma QuotedStep(src: string, i: nat, quote: char)
    ensures QuotedEnd(src, i, quote) ==
            if i >= |src| then i
            else if src[i] == quote then i + 1
            else QuotedEnd(src, if src[i] == '\\' && i + 1 < |src| then i + 2 else i + 1, quote)
  {
  }

  method SkipQuoted(src: string, start: nat) returns (blank: string, i: nat)
    requires start < |src| && (src[start] == '\'' || src[start] == '"')
    ensures i == QuotedEnd(src, start + 1, src[start]) && blank == Blanks(src, start, i)
  {
    hide QuotedEnd;
    var quote := src[start];
    blank, i := " ", start + 1;
    while i < |src| && src[i] != quote
      invariant start < i <= |src| && QuotedEnd(src, i, quote) == QuotedEnd(src, start + 1, quote)
      invariant blank == Blanks(src, start, i)
    {
      ghost var from, was := i, blank;
      QuotedStep(src, i, quote);
      if src[i] == '\\' {
        blank, i := blank + " ", i + 1;
      }
      if i < |src| {
        blank, i := blank + [Blank(src[i])], i + 1;
      }
      assert blank == was + Blanks(src, from, i);
      BlanksGrow(src, start, from, i);
    }
    QuotedStep(src, i, quote);
    if i < |src| {
      BlanksGrow(src, start, i, i + 1);
      blank, i := blank + " ", i + 1;
    }
  }

  /** Skip the comment or literal at `start`, if there is one. */
  method SkipLiteral(t: CharTables, src: string, start: nat) returns (blank: string, i: nat)
    requires start < |src|
    ensures i == LiteralEnd(t, src, start) && blank == Blanks(src, start, i)
  {
    hide LineEnd, BlockEnd, QuotedEnd, HeredocEnd, HeredocOpener, At;
    blank, i := "", start;
    if StartsLineComment(src, start) {
      blank, i := SkipLine(src, start);
    } else if At(src, start, "/*") {
      blank, i := SkipBlock(src, start);
    } else if src[start] == '\'' || src[start] == '"' {
      blank, i := SkipQuoted(src, start);
    } else {
      var o := HeredocOpener(src, start);
      if o.Opener? {
        i := FindHeredocEnd(t, src, o.tag, o.body);
        blank := Blanks(src, start, i);
      }
    }
  }

  method StripPhp(t: CharTables, src: string) returns (out: string)
    ensures out == Strip(t, src)
  {
    hide LiteralEnd;
    out := "";
    var i: nat := 0;
    while i < |src|
      invariant StripFrom(t, src, i, out) == Strip(t, src)
      decreases |src| - i
    {
      var blank, j := SkipLiteral(t, src, i);
      if j > i {
        out, i := out + blank, j;
      } else {
        out, i := out + [src[i]], i + 1;
      }
    }
  }
}
