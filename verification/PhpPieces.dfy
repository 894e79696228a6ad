/** PHP written as code and closed literals, and what stripping makes of it: the code stays, the
    literals are blanked.  Neither the grammar nor the result mentions the scan. */
module PhpPieces {
  import opened Lexis
  import opened TextPieces
  import opened PhpStripper
  import opened PhpHeredocs

  /** A character of code, a comment, or a literal, by its text without the delimiters.  A heredoc has
      blanks, an optional quote, its tag and blanks behind `<<<`, its lines, and its label behind an
      indentation. */
  datatype Piece =
    | Kept(c: char)
    | SlashComment(text: string)
    | HashComment(text: string)
    | BlockComment(text: string)
    | Literal(quote: char, text: string)
    | Heredoc(gap: string, around: string, tag: string, trail: string, lines: seq<string>, indent: string)

  // ------------------------------------------------- how it is written, and what is left of it

  function Source(pieces: seq<Piece>): string {
    if pieces == [] then "" else PieceSource(pieces[0]) + Source(pieces[1..])
  }

  function PieceSource(piece: Piece): (s: string)
    ensures s != ""
  {
    match piece
    case Kept(c) => [c]
    case SlashComment(text) => "//" + text
    case HashComment(text) => "#" + text
    case BlockComment(text) => "/" + text + "*/"
    case Literal(quote, text) => [quote] + text + [quote]
    case Heredoc(gap, quote, tag, trail, lines, indent) =>
      HeredocHead(gap, quote, tag, trail) + (LinesSource(lines) + (indent + tag))
  }

  function HeredocHead(gap: string, quote: string, tag: string, trail: string): string {
    "<<<" + (gap + (quote + (tag + (quote + (trail + "\n")))))
  }

  function LinesSource(lines: seq<string>): string {
    if lines == [] then "" else lines[0] + "\n" + LinesSource(lines[1..])
  }

  function Shown(pieces: seq<Piece>): (s: string)
    ensures |s| == |Source(pieces)|
  {
    if pieces == [] then "" else PieceShown(pieces[0]) + Shown(pieces[1..])
  }

  /** Literals leave blanks and their own line breaks. */
  function PieceShown(piece: Piece): (s: string)
    ensures |s| == |PieceSource(piece)| > 0
  {
    if piece.Kept? then [piece.c] else Blanking(PieceSource(piece))
  }

  // ------------------------------------------------- which texts close where they should

  /** No closing quote, save behind a backslash. */
  predicate InString(quote: char, text: string) {
    text == "" ||
    if text[0] == '\\' then |text| >= 2 && InString(quote, text[2..])
    else text[0] != quote && InString(quote, text[1..])
  }

  predicate AllBlank(text: string) {
    forall k :: 0 <= k < |text| ==> IsBlank(text[k])
  }

  predicate IsTag(tag: string) {
    tag != "" && IdentStart(tag[0]) && forall k :: 0 <= k < |tag| ==> IdentPart(tag[k])
  }

  /** This line closes the heredoc: blanks, the label, and no word character behind it. */
  predicate ClosingLine(t: CharTables, tag: string, line: string, p: nat) {
    && p + |tag| <= |line| && AllBlank(line[..p]) && line[p..p + |tag|] == tag
    && (p + |tag| < |line| ==> !IsWord(t, line[p + |tag|]))
  }

  ghost predicate PieceFits(t: CharTables, piece: Piece, next: string) {
    match piece
    case Kept(c) =>
      && c != '\'' && c != '"'
      && (c == '/' && next != "" ==> next[0] != '/' && next[0] != '*')
      && (c == '#' ==> next != "" && next[0] == '[')
      && (c == '<' ==> forall q, from, to, eol :: !Opens([c] + next, 0, q, from, to, eol))
    case SlashComment(text) => '\n' !in text && (next != "" ==> next[0] == '\n')
    case HashComment(text) => '\n' !in text && (text != "" ==> text[0] != '[') && (next != "" ==> next[0] == '\n')
    case BlockComment(text) => InBlock(text)
    case Literal(quote, text) => (quote == '\'' || quote == '"') && InString(quote, text)
    case Heredoc(gap, quote, tag, trail, lines, indent) =>
      && AllBlank(gap) && quote in {"", "'", "\""} && IsTag(tag) && AllBlank(trail) && AllBlank(indent)
      && (forall k :: 0 <= k < |lines| ==> '\n' !in lines[k] && forall p: nat :: !ClosingLine(t, tag, lines[k], p))
      && (next != "" ==> !IsWord(t, next[0]))
  }

  ghost predicate Fits(t: CharTables, pieces: seq<Piece>) {
    pieces != [] ==> PieceFits(t, pieces[0], Source(pieces[1..])) && Fits(t, pieces[1..])
  }

  // ------------------------------------------------- where the scan ends each literal

  lemma {:induction false} LineEndIs(src: string, i: nat, n: nat)
    requires i + n <= |src| && (forall k :: i <= k < i + n ==> src[k] != '\n')
    requires i + n < |src| ==> src[i + n] == '\n'
    ensures LineEnd(src, i) == i + n
    decreases n
  {
    if n > 0 { LineEndIs(src, i + 1, n - 1); }
  }

  lemma {:induction false} BlockEndIs(src: string, i: nat, text: string)
    requires Stands(src, i, text + "*/") && ClosesNowhere(text)
    ensures BlockEnd(src, i) == i + |text| + 2
    decreases |text|
  {
    hide Stands;
    StandsHead(src, i, text + "*/");
    StandsHead(src, i + 1, (text + "*/")[1..]);
    TwoAt(src, i, "*/");
    if text != "" {
      assert (text + "*/")[1..] == text[1..] + "*/";
      ClosesNowhereBehind(text);
      BlockEndIs(src, i + 1, text[1..]);
    }
  }

  lemma {:induction false} QuotedEndIs(src: string, i: nat, quote: char, text: string)
    requires Stands(src, i, text + [quote]) && InString(quote, text) && quote != '\\'
    ensures QuotedEnd(src, i, quote) == i + |text| + 1
    decreases |text|
  {
    hide Stands;
    StandsHead(src, i, text + [quote]);
    if text != "" {
      var n := if text[0] == '\\' then 2 else 1;
      StandsBehind(src, i, text + [quote], n);
      assert (text + [quote])[n..] == text[n..] + [quote];
      QuotedEndIs(src, i + n, quote, text[n..]);
    }
  }

  lemma HeadOpens(src: string, i: nat, gap: string, quote: string, tag: string, trail: string)
    requires Stands(src, i, HeredocHead(gap, quote, tag, trail))
    requires AllBlank(gap) && quote in {"", "'", "\""} && IsTag(tag) && AllBlank(trail)
    ensures var o := HeredocOpener(src, i); o.Opener? && o.tag == tag && o.body == i + |HeredocHead(gap, quote, tag, trail)|
  {
    var q := i + 3 + |gap|;
    var from := q + |quote|;
    var to := from + |tag|;
    var eol := to + |quote| + |trail|;
    HeadStands(src, i, gap, quote, tag, trail);
    HeadParts(src, i, gap, quote, tag, trail, q, from, to, eol);
    PartsOpen(src, i, q, from, to, eol);
    assert src[from..to] == tag;
  }

  lemma HeadStands(src: string, i: nat, gap: string, quote: string, tag: string, trail: string)
    requires Stands(src, i, HeredocHead(gap, quote, tag, trail))
    ensures Stands(src, i, "<<<") && Stands(src, i + 3, gap) && Stands(src, i + 3 + |gap|, quote)
    ensures Stands(src, i + 3 + |gap| + |quote|, tag) && Stands(src, i + 3 + |gap| + |quote| + |tag|, quote)
    ensures Stands(src, i + 3 + |gap| + |quote| + |tag| + |quote|, trail)
    ensures Stands(src, i + 3 + |gap| + |quote| + |tag| + |quote| + |trail|, "\n")
  {
    hide Stands;
    var j := i + 3 + |gap|;
    StandsConcat(src, i, "<<<", gap + (quote + (tag + (quote + (trail + "\n")))));
    StandsConcat(src, i + 3, gap, quote + (tag + (quote + (trail + "\n"))));
    StandsConcat(src, j, quote, tag + (quote + (trail + "\n")));
    StandsConcat(src, j + |quote|, tag, quote + (trail + "\n"));
    StandsConcat(src, j + |quote| + |tag|, quote, trail + "\n");
    StandsConcat(src, j + |quote| + |tag| + |quote|, trail, "\n");
  }

  lemma HeadParts(src: string, i: nat, gap: string, quote: string, tag: string, trail: string,
                  q: nat, from: nat, to: nat, eol: nat)
    requires Stands(src, i, "<<<") && Stands(src, i + 3, gap) && Stands(src, q, quote) && Stands(src, from, tag)
    requires Stands(src, to, quote) && Stands(src, to + |quote|, trail) && Stands(src, eol, "\n")
    requires q == i + 3 + |gap| && from == q + |quote| && to == from + |tag| && eol == to + |quote| + |trail|
    requires AllBlank(gap) && quote in {"", "'", "\""} && IsTag(tag) && AllBlank(trail)
    ensures Opens(src, i, q, from, to, eol)
  {
    hide IdentStart, IdentPart;
    StandsHead(src, i, "<<<");
    StandsHead(src, i + 1, "<<<"[1..]);
    StandsHead(src, i + 2, "<<<"[1..][1..]);
    StandsHead(src, eol, "\n");
    StandsHead(src, from, tag);
    assert forall k :: i + 3 <= k < q ==> src[k] == gap[k - i - 3];
    assert forall k :: from <= k < to ==> src[k] == tag[k - from];
    assert forall k :: to + |quote| <= k < eol ==> src[k] == trail[k - to - |quote|];
    if quote != "" {
      StandsHead(src, q, quote);
      StandsHead(src, to, quote);
    } else if trail != "" {
      StandsHead(src, to, trail);
    }
    StartsTag(tag[0]);
    NoPart(src[to]);
  }

  lemma NoPart(c: char)
    ensures IsBlank(c) || IsQuote(c) || c == '\n' ==> !IdentPart(c)
  {
  }

  lemma NoBreakInTag(tag: string)
    requires IsTag(tag)
    ensures forall k :: 0 <= k < |tag| ==> tag[k] != '\n' && !IsBlank(tag[k])
  {
  }

  lemma TagStaysInLine(src: string, p: nat, tag: string, n: nat)
    requires At(src, p, tag) && IsTag(tag) && p <= n < |src| && src[n] == '\n'
    ensures p + |tag| <= n
  {
    hide IsTag, IdentStart, IdentPart;
    if p + |tag| > n {
      assert src[p..p + |tag|][n - p] == tag[n - p];
      NoBreakInTag(tag);
    }
  }

  /** A line closes the heredoc only if it is a closing line. */
  lemma LineCloses(t: CharTables, src: string, i: nat, tag: string, line: string)
    requires Stands(src, i, line + "\n") && IsTag(tag) && ClosesAt(t, src, tag, BlanksEnd(src, i))
    ensures BlanksEnd(src, i) >= i && ClosingLine(t, tag, line, BlanksEnd(src, i) - i)
  {
    hide IdentStart, IdentPart, BlanksEnd;
    var p, n := BlanksEnd(src, i), i + |line|;
    StandsConcat(src, i, line, "\n");
    StandsHead(src, n, "\n");
    BlanksEndMeans(src, i);
    assert p <= n;
    TagStaysInLine(src, p, tag, n);
    var m: nat := p - i;
    assert forall k :: 0 <= k < |line| ==> src[i + k] == line[k];
    forall k | 0 <= k < |tag| ensures line[m..m + |tag|][k] == tag[k] {
      assert src[p..p + |tag|][k] == src[i + (m + k)];
    }
  }

  /** This line does not close the heredoc. */
  lemma LineStaysOpen(t: CharTables, src: string, i: nat, tag: string, line: string)
    requires Stands(src, i, line + "\n") && IsTag(tag) && forall p: nat :: !ClosingLine(t, tag, line, p)
    ensures !ClosesAt(t, src, tag, BlanksEnd(src, i))
  {
    hide Stands, ClosesAt, BlanksEnd, ClosingLine, IsTag;
    if ClosesAt(t, src, tag, BlanksEnd(src, i)) {
      LineCloses(t, src, i, tag, line);
    }
  }

  lemma {:induction false} HeredocEndIs(t: CharTables, src: string, tag: string, i: nat, lines: seq<string>, indent: string)
    requires Stands(src, i, LinesSource(lines) + (indent + tag)) && IsTag(tag) && AllBlank(indent)
    requires forall k :: 0 <= k < |lines| ==> '\n' !in lines[k] && forall p: nat :: !ClosingLine(t, tag, lines[k], p)
    requires var j := i + |LinesSource(lines)| + |indent + tag|; j < |src| ==> !IsWord(t, src[j])
    ensures HeredocEnd(t, src, tag, i) == i + |LinesSource(lines)| + |indent + tag|
    decreases |lines|
  {
    if lines == [] {
      hide BlanksEnd;
      assert "" + (indent + tag) == indent + tag;
      LabelCloses(src, i, tag, indent);
    } else {
      hide Stands, BlanksEnd, LineEnd, IsTag, AllBlank, ClosingLine, ClosesAt;
      var line, rest := lines[0], LinesSource(lines[1..]) + (indent + tag);
      assert LinesSource(lines) + (indent + tag) == line + "\n" + rest;
      StandsConcat(src, i, line + "\n", rest);
      LineStaysOpen(t, src, i, tag, line);
      StandsInLine(src, i, line);
      LineEndIs(src, i, |line|);
      HeredocEndIs(t, src, tag, i + |line| + 1, lines[1..], indent);
    }
  }

  lemma StandsInLine(src: string, i: nat, line: string)
    requires Stands(src, i, line + "\n") && '\n' !in line
    ensures i + |line| < |src| && src[i + |line|] == '\n' && forall k :: i <= k < i + |line| ==> src[k] != '\n'
  {
    StandsConcat(src, i, line, "\n");
    StandsHead(src, i + |line|, "\n");
    forall k | i <= k < i + |line| ensures src[k] != '\n' {
      assert src[i + (k - i)] == line[k - i];
    }
  }

  lemma LabelCloses(src: string, i: nat, tag: string, indent: string)
    requires Stands(src, i, indent + tag) && IsTag(tag) && AllBlank(indent)
    ensures BlanksEnd(src, i) == i + |indent| && At(src, i + |indent|, tag)
  {
    StandsConcat(src, i, indent, tag);
    NoBreakInTag(tag);
    forall k | i <= k < i + |indent| ensures IsBlank(src[k]) {
      assert src[i + (k - i)] == indent[k - i];
    }
    StandsHead(src, i + |indent|, tag);
    BlanksEndIs(src, i, i + |indent|);
    assert src[i + |indent|..i + |indent| + |tag|] == tag;
  }

  /** How the first characters choose where the scan goes on. */
  lemma OpenersChoose(t: CharTables, src: string, i: nat)
    requires i < |src|
    ensures i + 1 < |src| && src[i] == src[i + 1] == '/' ==> LiteralEnd(t, src, i) == LineEnd(src, i)
    ensures src[i] == '#' && (i + 1 < |src| ==> src[i + 1] != '[') ==> LiteralEnd(t, src, i) == LineEnd(src, i)
    ensures i + 1 < |src| && src[i] == '/' && src[i + 1] == '*' ==> LiteralEnd(t, src, i) == BlockEnd(src, i)
    ensures src[i] == '\'' || src[i] == '"' ==> LiteralEnd(t, src, i) == QuotedEnd(src, i + 1, src[i])
    ensures src[i] == '<' && HeredocOpener(src, i).Opener? ==>
              LiteralEnd(t, src, i) == HeredocEnd(t, src, HeredocOpener(src, i).tag, HeredocOpener(src, i).body)
  {
    hide LineEnd, BlockEnd, QuotedEnd, HeredocEnd, HeredocOpener;
    OneAt(src, i, '#');
    TwoAt(src, i, "#[");
    TwoAt(src, i, "//");
    TwoAt(src, i, "/*");
  }

  /** The scan ends each literal where its text ends, and none begins at a character of code. */
  lemma PieceEndIs(t: CharTables, src: string, i: nat, piece: Piece, next: string)
    requires Stands(src, i, PieceSource(piece) + next) && |src| == i + |PieceSource(piece) + next|
    requires PieceFits(t, piece, next)
    ensures i < |src| && LiteralEnd(t, src, i) == if piece.Kept? then i else i + |PieceSource(piece)|
  {
    hide Stands, LineEnd, BlockEnd, QuotedEnd, HeredocEnd, HeredocOpener, InString, ClosesNowhere, Opens, LiteralEnd;
    hide AllBlank, IsTag, ClosingLine, HeredocHead, LinesSource, IsWord;
    var lit := PieceSource(piece);
    StandsConcat(src, i, lit, next);
    StandsHead(src, i, lit);
    OpenersChoose(t, src, i);
    if |lit| > 1 { StandsHead(src, i + 1, lit[1..]); }
    if next != "" { StandsHead(src, i + |lit|, next); }
    match piece
    case Kept(c) => KeptOpensNothing(t, src, i, c, next);
    case SlashComment(text) => CommentEnds(src, i, lit, next);
    case HashComment(text) => CommentEnds(src, i, lit, next);
    case BlockComment(text) => BlockCommentEnds(src, i, text);
    case Literal(quote, text) =>
      assert lit[1..] == text + [quote];
      QuotedEndIs(src, i + 1, quote, text);
    case Heredoc(gap, quote, tag, trail, lines, indent) =>
      HeredocEndsAt(t, src, i, gap, quote, tag, trail, lines, indent);
  }

  lemma BlockCommentEnds(src: string, i: nat, text: string)
    requires Stands(src, i, "/" + text + "*/") && InBlock(text)
    ensures BlockEnd(src, i) == i + |text| + 3
  {
    hide Stands, BlockEnd, ClosesNowhere;
    var lit := "/" + text + "*/";
    StandsHead(src, i, lit);
    assert lit[1..] == text + "*/";
    BlockEndIs(src, i + 1, text);
    TwoAt(src, i, "*/");
    BlockEndStep(src, i);
  }

  lemma HeredocEndsAt(t: CharTables, src: string, i: nat, gap: string, quote: string, tag: string, trail: string,
                      lines: seq<string>, indent: string)
    requires var lit := HeredocHead(gap, quote, tag, trail) + (LinesSource(lines) + (indent + tag));
             Stands(src, i, lit) && (i + |lit| < |src| ==> !IsWord(t, src[i + |lit|]))
    requires AllBlank(gap) && quote in {"", "'", "\""} && IsTag(tag) && AllBlank(trail) && AllBlank(indent)
    requires forall k :: 0 <= k < |lines| ==> '\n' !in lines[k] && forall p: nat :: !ClosingLine(t, tag, lines[k], p)
    ensures i < |src| && src[i] == '<'
    ensures var o := HeredocOpener(src, i);
            o.Opener? && HeredocEnd(t, src, o.tag, o.body) ==
                         i + |HeredocHead(gap, quote, tag, trail) + (LinesSource(lines) + (indent + tag))|
  {
    hide Stands, HeredocEnd, HeredocOpener, AllBlank, IsTag, ClosingLine, HeredocHead, LinesSource, IsWord;
    var head := HeredocHead(gap, quote, tag, trail);
    StandsConcat(src, i, head, LinesSource(lines) + (indent + tag));
    HeadOpens(src, i, gap, quote, tag, trail);
    HeadStands(src, i, gap, quote, tag, trail);
    StandsHead(src, i, "<<<");
    HeredocEndIs(t, src, tag, i + |head|, lines, indent);
  }

  lemma BlockEndStep(src: string, i: nat)
    requires i < |src| && !At(src, i, "*/")
    ensures BlockEnd(src, i) == BlockEnd(src, i + 1)
  {
  }

  lemma CommentEnds(src: string, i: nat, lit: string, next: string)
    requires Stands(src, i, lit) && '\n' !in lit && |src| == i + |lit| + |next|
    requires next != "" ==> src[i + |lit|] == '\n'
    ensures LineEnd(src, i) == i + |lit|
  {
    forall k | i <= k < i + |lit| ensures src[k] != '\n' {
      assert src[i + (k - i)] == lit[k - i];
    }
    LineEndIs(src, i, |lit|);
  }

  lemma KeptOpensNothing(t: CharTables, src: string, i: nat, c: char, next: string)
    requires Stands(src, i, [c] + next) && |src| == i + 1 + |next| && PieceFits(t, Kept(c), next)
    ensures LiteralEnd(t, src, i) == i
  {
    hide LineEnd, BlockEnd, QuotedEnd, HeredocEnd, HeredocOpener, Opens;
    StandsHead(src, i, [c] + next);
    if next != "" { StandsHead(src, i + 1, next); }
    OneAt(src, i, '#');
    TwoAt(src, i, "#[");
    TwoAt(src, i, "//");
    TwoAt(src, i, "/*");
    if HeredocOpener(src, i).Opener? {
      var o, rest := HeredocOpener(src, i), [c] + next;
      assert src[i..] == rest;
      assert rest[0..o.body - i] == src[i..o.body];
      OpenerIsLocal(src, i, rest, 0);
      var q, from, to, eol := OpenerHasParts(rest, 0);
    }
  }

  // ------------------------------------------------- main results

  lemma {:induction false} PiecesStrip(t: CharTables, src: string, i: nat, out: string, pieces: seq<Piece>)
    requires |out| == i && Stands(src, i, Source(pieces)) && |src| == i + |Source(pieces)| && Fits(t, pieces)
    ensures StripFrom(t, src, i, out) == out + Shown(pieces)
    decreases |pieces|
  {
    hide StripFrom, Stands, PieceFits, PieceSource, PieceShown, LiteralEnd;
    if pieces == [] {
      StripFromEnds(t, src, i, out);
      assert out + "" == out;
    } else {
      var first, rest := pieces[0], Source(pieces[1..]);
      PieceEndIs(t, src, i, first, rest);
      StandsConcat(src, i, PieceSource(first), rest);
      PieceStrips(t, src, i, out, first);
      Regroup(out, PieceShown(first), Shown(pieces[1..]));
      PiecesStrip(t, src, i + |PieceSource(first)|, out + PieceShown(first), pieces[1..]);
    }
  }

  lemma PieceStrips(t: CharTables, src: string, i: nat, out: string, piece: Piece)
    requires |out| == i < |src| && Stands(src, i, PieceSource(piece))
    requires LiteralEnd(t, src, i) == if piece.Kept? then i else i + |PieceSource(piece)|
    requires PieceSource(piece) != ""
    ensures StripFrom(t, src, i, out) == StripFrom(t, src, i + |PieceSource(piece)|, out + PieceShown(piece))
  {
    hide StripFrom, LiteralEnd;
    StripFromStep(t, src, i, out);
    var lit := PieceSource(piece);
    StandsHead(src, i, lit);
    if !piece.Kept? {
      BlanksAreBlanking(src, i, lit);
    }
  }

  lemma BlanksAreBlanking(src: string, i: nat, lit: string)
    requires Stands(src, i, lit)
    ensures Blanks(src, i, i + |lit|) == Blanking(lit)
  {
    forall k | 0 <= k < |lit| ensures Blanks(src, i, i + |lit|)[k] == Blank(lit[k]) {
      assert src[i + k] == lit[k];
    }
  }

  /** Code is kept and closed literals are blanked, whatever they hold. */
  lemma CodeIsKept(t: CharTables, pieces: seq<Piece>)
    requires Fits(t, pieces)
    ensures Strip(t, Source(pieces)) == Shown(pieces)
  {
    hide StripFrom, Source, Shown, Fits;
    PiecesStrip(t, Source(pieces), 0, "", pieces);
    assert "" + Shown(pieces) == Shown(pieces);
  }

  // ------------------------------------------------- what code mentions is still mentioned

  lemma {:induction false} SourceConcat(p: seq<Piece>, q: seq<Piece>)
    ensures Source(p + q) == Source(p) + Source(q) && Shown(p + q) == Shown(p) + Shown(q)
  {
    hide PieceSource, PieceShown;
    if p == [] {
      assert p + q == q;
    } else {
      assert (p + q)[0] == p[0] && (p + q)[1..] == p[1..] + q;
      SourceConcat(p[1..], q);
    }
  }

  /** The stretch of code from one literal, or end, to the next. */
  predicate Between(pieces: seq<Piece>, i: nat, j: nat)
    requires i <= j <= |pieces|
  {
    && (forall k :: i <= k < j ==> pieces[k].Kept?)
    && (i > 0 ==> !pieces[i - 1].Kept?) && (j < |pieces| ==> !pieces[j].Kept?)
  }

  lemma {:induction false} KeptIsShown(pieces: seq<Piece>)
    requires forall k :: 0 <= k < |pieces| ==> pieces[k].Kept?
    ensures Shown(pieces) == Source(pieces)
  {
    if pieces != [] { KeptIsShown(pieces[1..]); }
  }

  lemma LiteralShowsNoWord(t: CharTables, literal: Piece)
    requires Sane(t) && !literal.Kept?
    ensures PieceShown(literal) != "" && forall k :: 0 <= k < |PieceShown(literal)| ==> !IsWord(t, PieceShown(literal)[k])
  {
    hide PieceSource;
  }

  /** What is left of a literal is no word, at either end. */
  lemma {:induction false} ShownEdges(t: CharTables, pieces: seq<Piece>)
    requires Sane(t) && pieces != []
    ensures Shown(pieces) != ""
    ensures !pieces[0].Kept? ==> !IsWord(t, Shown(pieces)[0])
    ensures !pieces[|pieces| - 1].Kept? ==> !IsWord(t, Shown(pieces)[|Shown(pieces)| - 1])
  {
    hide PieceSource, PieceShown, IsWord;
    var rest := pieces[1..];
    if !pieces[0].Kept? { LiteralShowsNoWord(t, pieces[0]); }
    if rest != [] {
      ShownEdges(t, rest);
      assert rest[|rest| - 1] == pieces[|pieces| - 1];
    } else {
      assert Shown(pieces) == PieceShown(pieces[0]);
    }
  }

  /** Whatever code mentions between its literals is mentioned in the stripped text. */
  lemma CodeMentionsStay(t: CharTables, pieces: seq<Piece>, i: nat, j: nat, sym: string)
    requires Sane(t) && Fits(t, pieces) && i <= j <= |pieces| && Between(pieces, i, j)
    requires Mentions(t, Source(pieces[i..j]), sym)
    ensures Mentions(t, Strip(t, Source(pieces)), sym)
  {
    hide Mentions, PieceShown, PieceSource, Shown, Source, Strip, Fits, IsWord;
    CodeIsKept(t, pieces);
    KeptIsShown(pieces[i..j]);
    CutAt(pieces, i, j);
    SourceConcat(pieces[..i], pieces[i..j] + pieces[j..]);
    SourceConcat(pieces[i..j], pieces[j..]);
    var x, y := Shown(pieces[..i]), Shown(pieces[j..]);
    NothingShown();
    if i > 0 { ShownEdges(t, pieces[..i]); }
    if j < |pieces| { ShownEdges(t, pieces[j..]); }
    Regroup(x, Shown(pieces[i..j]), y);
    MentionsInside(t, x, Shown(pieces[i..j]), y, sym);
  }

  lemma NothingShown()
    ensures Shown([]) == ""
  {
  }

  // ------------------------------------------------- a literal between two texts

  /** A text, character by character. */
  function Chars(text: string): (pieces: seq<Piece>)
    ensures |pieces| == |text| && forall k :: 0 <= k < |text| ==> pieces[k] == Kept(text[k])
    ensures Source(pieces) == text && Shown(pieces) == text
  {
    if text == "" then []
    else
      assert ([Kept(text[0])] + Chars(text[1..]))[1..] == Chars(text[1..]);
      [Kept(text[0])] + Chars(text[1..])
  }

  /** Nothing in it can open a literal. */
  predicate Simple(text: string) {
    forall k :: 0 <= k < |text| ==> text[k] !in {'\'', '"', '/', '#', '<'}
  }

  lemma FitsStep(t: CharTables, first: Piece, rest: seq<Piece>)
    ensures Fits(t, [first] + rest) <==> PieceFits(t, first, Source(rest)) && Fits(t, rest)
  {
    hide PieceFits, PieceSource;
    assert ([first] + rest)[1..] == rest;
  }

  lemma SimpleCharacterFits(t: CharTables, c: char, next: string)
    requires c !in {'\'', '"', '/', '#', '<'}
    ensures PieceFits(t, Kept(c), next)
  {
    hide Opens;
  }

  lemma {:induction false} SimpleFits(t: CharTables, text: string, rest: seq<Piece>)
    requires Simple(text) && Fits(t, rest)
    ensures Fits(t, Chars(text) + rest)
    decreases |text|
  {
    hide Fits, PieceFits, Source, PieceSource;
    if text == "" {
      assert [] + rest == rest;
    } else {
      SimpleFits(t, text[1..], rest);
      FitsStep(t, Kept(text[0]), Chars(text[1..]) + rest);
      SimpleCharacterFits(t, text[0], Source(Chars(text[1..]) + rest));
      assert Chars(text) + rest == [Kept(text[0])] + (Chars(text[1..]) + rest);
    }
  }

  /** One closed literal between two simple texts: the texts stay and the literal is blanked. */
  lemma LiteralBetween(t: CharTables, a: string, literal: Piece, b: string)
    requires Simple(a) && Simple(b) && !literal.Kept? && PieceFits(t, literal, b)
    ensures Strip(t, a + PieceSource(literal) + b) == a + Blanking(PieceSource(literal)) + b
  {
    hide PieceFits, PieceSource, Strip, Simple, Chars;
    var pieces := [literal] + Chars(b);
    assert pieces[1..] == Chars(b);
    SimpleFits(t, b, []);
    assert Chars(b) + [] == Chars(b);
    SimpleFits(t, a, pieces);
    SourceConcat(Chars(a), pieces);
    CodeIsKept(t, Chars(a) + pieces);
    Regroup(a, PieceSource(literal), b);
    Regroup(a, Blanking(PieceSource(literal)), b);
  }
}
