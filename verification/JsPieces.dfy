/** JavaScript written as code and closed literals, and what stripping makes of it: the code stays,
    the literals are blanked.  Neither the grammar nor the result mentions the lexer. */
module JsPieces {
  import opened Lexis
  import opened JsStripper
  import opened TextPieces

  /** A character of code, a comment, or a literal, by its text without the delimiters.  Strings and
      regular expressions that are not closed end with their line. */
  datatype Piece =
    | Kept(c: char)
    | LineComment(text: string)
    | BlockComment(text: string)
    | Literal(quote: char, text: string)
    | RegexLiteral(text: string)
    | OpenLiteral(quote: char, text: string)
    | OpenRegex(text: string)
    | TemplateLiteral(parts: seq<Part>)

  /** A character of a template literal, an escaped one, or an expression. */
  datatype Part = Plain(c: char) | Escaped(c: char) | Expression(code: seq<Piece>)

  // ------------------------------------------------- how it is written

  function Source(pieces: seq<Piece>): string
    decreases pieces, 0
  {
    if pieces == [] then "" else PieceSource(pieces[0]) + Source(pieces[1..])
  }

  function PieceSource(piece: Piece): string
    decreases piece, 0
  {
    match piece
    case Kept(c) => [c]
    case LineComment(text) => "//" + text
    case BlockComment(text) => "/" + text + "*/"
    case Literal(quote, text) => [quote] + text + [quote]
    case RegexLiteral(text) => "/" + text + "/"
    case OpenLiteral(quote, text) => [quote] + text
    case OpenRegex(text) => "/" + text
    case TemplateLiteral(parts) => "`" + PartsSource(parts) + "`"
  }

  function PartsSource(parts: seq<Part>): string
    decreases parts, 0
  {
    if parts == [] then "" else PartSource(parts[0]) + PartsSource(parts[1..])
  }

  function PartSource(part: Part): string
    decreases part, 0
  {
    match part
    case Plain(c) => [c]
    case Escaped(c) => ['\\', c]
    case Expression(code) => "${" + Source(code) + "}"
  }

  // ------------------------------------------------- what is left of it

  function Spaces(n: nat): (s: string)
    ensures |s| == n && forall k :: 0 <= k < n ==> s[k] == ' '
  {
    seq(n, k => ' ')
  }

  function Shown(pieces: seq<Piece>): (s: string)
    ensures |s| == |Source(pieces)|
    decreases pieces, 0
  {
    if pieces == [] then "" else PieceShown(pieces[0]) + Shown(pieces[1..])
  }

  function PieceShown(piece: Piece): (s: string)
    ensures |s| == |PieceSource(piece)|
    decreases piece, 0
  {
    match piece
    case Kept(c) => [c]
    case LineComment(text) => Spaces(2 + |text|)
    case BlockComment(text) => " " + Blanking(text) + "  "
    case Literal(_, text) => Spaces(2 + |text|)
    case RegexLiteral(text) => Spaces(2 + |text|)
    case OpenLiteral(_, text) => Spaces(1 + |text|)
    case OpenRegex(text) => Spaces(1 + |text|)
    case TemplateLiteral(parts) => " " + PartsShown(parts) + " "
  }

  function PartsShown(parts: seq<Part>): (s: string)
    ensures |s| == |PartsSource(parts)|
    decreases parts, 0
  {
    if parts == [] then "" else PartShown(parts[0]) + PartsShown(parts[1..])
  }

  function PartShown(part: Part): (s: string)
    ensures |s| == |PartSource(part)|
    decreases part, 0
  {
    match part
    case Plain(c) => [Blank(c)]
    case Escaped(c) => [' ', Blank(c)]
    case Expression(code) => "  " + Shown(code) + " "
  }

  // ------------------------------------------------- which texts close where they should

  /** No line break and no closing quote, save behind a backslash. */
  predicate InString(quote: char, text: string) {
    text == "" ||
    if text[0] == '\\' then |text| >= 2 && InString(quote, text[2..])
    else text[0] != quote && text[0] != '\n' && InString(quote, text[1..])
  }

  /** No line break, and no slash outside of a class, save behind a backslash. */
  predicate InRegex(text: string, inClass: bool, closed: bool) {
    if text == "" then closed ==> !inClass
    else if text[0] == '\\' then |text| >= 2 && InRegex(text[2..], inClass, closed)
    else
      && text[0] != '\n' && (text[0] == '/' ==> inClass)
      && InRegex(text[1..], if text[0] == '[' then true else if text[0] == ']' then false else inClass, closed)
  }

  /** Behind the first slash this is a regular expression and no comment. */
  predicate OpensOne(text: string) {
    text != "" && text[0] != '/' && text[0] != '*'
  }

  predicate LineOver(next: string) {
    next == "" || next[0] == '\n'
  }

  /** The brace level of an expression behind a character; outside of expressions it is not counted. */
  function LevelAfter(level: nat, c: char): nat {
    if level == 0 then 0
    else if c == '{' then level + 1
    else if c == '}' && level > 1 then level - 1
    else level
  }

  function Levels(pieces: seq<Piece>, level: nat): nat {
    if pieces == [] then level
    else Levels(pieces[1..], if pieces[0].Kept? then LevelAfter(level, pieces[0].c) else level)
  }

  /** `out` is what is left of the code before, back to the innermost open expression; `next` is the
      source behind. */
  ghost predicate Fits(t: CharTables, pieces: seq<Piece>, level: nat, out: string, next: string)
    decreases pieces, 0
  {
    pieces != [] ==>
      && PieceFits(t, pieces[0], level, out, Source(pieces[1..]) + next)
      && Fits(t, pieces[1..], if pieces[0].Kept? then LevelAfter(level, pieces[0].c) else level,
              out + PieceShown(pieces[0]), next)
  }

  ghost predicate PieceFits(t: CharTables, piece: Piece, level: nat, out: string, next: string)
    decreases piece, 0
  {
    match piece
    case Kept(c) =>
      && c != '\'' && c != '"' && c != '`' && (level == 1 ==> c != '}')
      && (c == '/' ==> (next != "" ==> next[0] != '/' && next[0] != '*') && !OpensRegex(PrevSignificant(t, out)))
    case LineComment(text) => '\n' !in text && LineOver(next)
    case BlockComment(text) => InBlock(text)
    case Literal(quote, text) => (quote == '\'' || quote == '"') && InString(quote, text)
    case RegexLiteral(text) => OpensOne(text) && InRegex(text, false, true) && OpensRegex(PrevSignificant(t, out))
    case OpenLiteral(quote, text) => (quote == '\'' || quote == '"') && InString(quote, text) && LineOver(next)
    case OpenRegex(text) =>
      OpensOne(text) && InRegex(text, false, false) && OpensRegex(PrevSignificant(t, out)) && LineOver(next)
    case TemplateLiteral(parts) => PartsFit(t, parts)
  }

  ghost predicate PartsFit(t: CharTables, parts: seq<Part>)
    decreases parts, 0
  {
    parts != [] ==> PartFits(t, parts[0], PartsSource(parts[1..]) + "`") && PartsFit(t, parts[1..])
  }

  ghost predicate PartFits(t: CharTables, part: Part, next: string)
    decreases part, 0
  {
    match part
    case Plain(c) => c != '`' && c != '\\' && (c == '$' ==> next != "" && next[0] != '{')
    case Escaped(_) => true
    case Expression(code) => Fits(t, code, 1, "", "}") && Levels(code, 1) == 1
  }

  lemma EmitTwice(s: State, a: string, b: string, m: Mode, n: Mode)
    ensures Emit(Emit(s, a, m), b, n) == Emit(s, a + b, n)
  {
    assert s.out + a + b == s.out + (a + b);
  }

  lemma MoreSpaces(n: nat, m: nat)
    ensures Spaces(n) + Spaces(m) == Spaces(n + m) && Spaces(1) == " " && Spaces(2) == "  "
  {
  }

  // ------------------------------------------------- the lexer on each kind of literal

  lemma {:induction false} LineRuns(t: CharTables, src: string, s: State, text: string)
    requires s.mode == Line && Stands(src, s.i, text) && '\n' !in text
    ensures Run(t, src, s) == Run(t, src, Emit(s, Spaces(|text|), Line))
    decreases |text|
  {
    hide Run, Stands;
    if text == "" {
      assert s.out + Spaces(0) == s.out;
    } else {
      StandsHead(src, s.i, text);
      assert text[0] in text && forall c :: c in text[1..] ==> c in text;
      RunStep(t, src, s);
      LineRuns(t, src, Emit(s, " ", Line), text[1..]);
      EmitTwice(s, " ", Spaces(|text| - 1), Line, Line);
      MoreSpaces(1, |text| - 1);
    }
  }

  /** At a line break, or at the end, a line comment, string or regular expression is over. */
  lemma LineEnds(t: CharTables, src: string, s: State)
    requires s.mode == Line || s.mode.Regex? || (s.mode.Quoted? && s.mode.quote != '\n')
    requires s.i < |src| ==> src[s.i] == '\n'
    ensures Run(t, src, s) == Run(t, src, s.(mode := Code))
  {
    hide OpensRegex, PrevSignificant;
    if s.i < |src| {
      TwoAt(src, s.i, "//");
      TwoAt(src, s.i, "/*");
      assert Step(t, src, s) == Step(t, src, s.(mode := Code));
    }
  }

  lemma {:induction false} BlockRuns(t: CharTables, src: string, s: State, text: string)
    requires s.mode == Block && Stands(src, s.i, text + "*/")
    requires ClosesNowhere(text)
    ensures Run(t, src, s) == Run(t, src, Emit(s, Blanking(text) + "  ", Code))
    decreases |text|
  {
    hide Run, Stands;
    StandsHead(src, s.i, text + "*/");
    StandsHead(src, s.i + 1, (text + "*/")[1..]);
    TwoAt(src, s.i, "*/");
    RunStep(t, src, s);
    if text == "" {
      assert Blanking("") + "  " == "  ";
    } else {
      assert (text + "*/")[1..] == text[1..] + "*/";
      ClosesNowhereBehind(text);
      BlockRuns(t, src, Emit(s, [Blank(text[0])], Block), text[1..]);
      EmitTwice(s, [Blank(text[0])], Blanking(text[1..]) + "  ", Block, Code);
      assert [Blank(text[0])] + (Blanking(text[1..]) + "  ") == Blanking(text) + "  ";
    }
  }

  /** One character of a string, or two behind a backslash. */
  lemma StringStep(t: CharTables, src: string, s: State, c: char)
    requires s.mode.Quoted? && s.mode.quote != '\\' && s.i < |src| && src[s.i] == c && c != '\n' && c != s.mode.quote
    requires c == '\\' ==> s.i + 1 < |src|
    ensures Run(t, src, s) == Run(t, src, Emit(s, Spaces(if c == '\\' then 2 else 1), s.mode))
  {
    hide Run;
    RunStep(t, src, s);
    MoreSpaces(1, 1);
  }

  /** Up to the closing quote, or the end of the line. */
  lemma {:induction false} StringRuns(t: CharTables, src: string, s: State, quote: char, text: string)
    requires s.mode == Quoted(quote) && (quote == '\'' || quote == '"')
    requires Stands(src, s.i, text) && InString(quote, text)
    ensures Run(t, src, s) == Run(t, src, Emit(s, Spaces(|text|), s.mode))
    decreases |text|
  {
    hide Run, Stands, Step;
    if text == "" {
      assert s.out + Spaces(0) == s.out;
    } else {
      var n := if text[0] == '\\' then 2 else 1;
      StandsHead(src, s.i, text);
      StandsBehind(src, s.i, text, n);
      StringStep(t, src, s, text[0]);
      MoreSpaces(n, |text| - n);
      StringRuns(t, src, Emit(s, Spaces(n), s.mode), quote, text[n..]);
      EmitTwice(s, Spaces(n), Spaces(|text| - n), s.mode, s.mode);
    }
  }

  /** One character of a regular expression, or two behind a backslash. */
  lemma RegexStep(t: CharTables, src: string, s: State, c: char)
    requires s.mode.Regex? && s.i < |src| && src[s.i] == c && c != '\n' && (c == '/' ==> s.mode.inClass)
    ensures Run(t, src, s) ==
            Run(t, src, if c == '\\' then Emit(s, Spaces(2), s.mode)
                        else Emit(s, Spaces(1), Regex(if c == '[' then true else if c == ']' then false else s.mode.inClass)))
  {
    hide Run;
    RunStep(t, src, s);
    MoreSpaces(1, 1);
  }

  /** Up to the closing slash, or the end of the line. */
  lemma {:induction false} RegexRuns(t: CharTables, src: string, s: State, text: string, inClass: bool, closed: bool)
    returns (last: bool)
    requires s.mode == Regex(inClass) && Stands(src, s.i, text) && InRegex(text, inClass, closed)
    ensures closed ==> !last
    ensures Run(t, src, s) == Run(t, src, Emit(s, Spaces(|text|), Regex(last)))
    decreases |text|
  {
    hide Run, Stands, Step;
    if text == "" {
      last := inClass;
      assert s.out + Spaces(0) == s.out;
    } else {
      var n := if text[0] == '\\' then 2 else 1;
      var next := if n == 2 then inClass else if text[0] == '[' then true else if text[0] == ']' then false else inClass;
      StandsHead(src, s.i, text);
      StandsBehind(src, s.i, text, n);
      RegexStep(t, src, s, text[0]);
      MoreSpaces(n, |text| - n);
      last := RegexRuns(t, src, Emit(s, Spaces(n), Regex(next)), text[n..], next, closed);
      EmitTwice(s, Spaces(n), Spaces(|text| - n), Regex(next), Regex(last));
    }
  }

  /** The closing quote. */
  lemma StringCloses(t: CharTables, src: string, s: State)
    requires s.mode.Quoted? && s.i < |src| && src[s.i] == s.mode.quote
    ensures Run(t, src, s) == Run(t, src, Emit(s, Spaces(1), Code))
  {
    hide Run;
    RunStep(t, src, s);
    MoreSpaces(1, 0);
  }

  /** The closing slash. */
  lemma RegexCloses(t: CharTables, src: string, s: State)
    requires s.mode == Regex(false) && s.i < |src| && src[s.i] == '/'
    ensures Run(t, src, s) == Run(t, src, Emit(s, Spaces(1), Code))
  {
    hide Run;
    RunStep(t, src, s);
    MoreSpaces(1, 0);
  }

  // ------------------------------------------------- the lexer on code and literals

  /** The lexer is in code, at this brace level of the innermost open expression. */
  predicate InCode(s: State, level: nat) {
    && s.mode == Code && |s.out| == s.i && Base(s.frames) <= s.i
    && if s.frames == [] then level == 0 else level == s.frames[|s.frames| - 1].depth && level >= 1
  }

  function Moved(s: State, text: string, level: nat): State {
    State(s.i + |text|, s.out + text, Code, SetDepth(s.frames, level))
  }

  lemma MovedInCode(s: State, text: string, level: nat, after: nat)
    requires InCode(s, level) && (after == 0 <==> level == 0)
    ensures InCode(Moved(s, text, after), after) && Local(Moved(s, text, after)) == Local(s) + text
    ensures Moved(s, text, level) == Emit(s, text, Code)
  {
    var next := Moved(s, text, after);
    assert Base(next.frames) == Base(s.frames);
    assert next.out[Base(s.frames)..] == s.out[Base(s.frames)..] + text;
    if s.frames != [] {
      assert SetDepth(s.frames, level) == s.frames;
    }
  }

  lemma MovedTwice(s: State, a: string, b: string, m: nat, n: nat)
    ensures Moved(Moved(s, a, m), b, n) == Moved(s, a + b, n)
  {
    assert s.out + a + b == s.out + (a + b);
    if s.frames != [] {
      assert Pop(SetDepth(s.frames, m)) == Pop(s.frames);
    }
  }

  lemma KeptRuns(t: CharTables, src: string, s: State, c: char, level: nat, next: string)
    requires InCode(s, level) && s.i < |src| && src[s.i] == c && Begins(src, s.i + 1, next)
    requires PieceFits(t, Kept(c), level, Local(s), next)
    ensures Run(t, src, s) == Run(t, src, Moved(s, [c], LevelAfter(level, c)))
  {
    hide Run, Step, OpensRegex, PrevSignificant, Local, At;
    TwoAt(src, s.i, "//");
    TwoAt(src, s.i, "/*");
    RunStep(t, src, s);
    CodeStep(t, src, s, Local(s));
    MovedInCode(s, [c], level, level);
  }

  /** A character that opens a literal. */
  lemma LiteralOpens(t: CharTables, src: string, s: State, mode: Mode)
    requires s.mode == Code && s.i < |src| && (src[s.i] == '/' ==> s.i + 1 < |src|)
    requires mode.Quoted? ==> (mode.quote == '\'' || mode.quote == '"') && src[s.i] == mode.quote
    requires mode == Template ==> src[s.i] == '`'
    requires mode == Line ==> src[s.i] == '/' && src[s.i + 1] == '/'
    requires mode == Block ==> src[s.i] == '/' && src[s.i + 1] == '*'
    requires mode.Regex? ==>
               src[s.i] == '/' && src[s.i + 1] != '/' && src[s.i + 1] != '*' && !mode.inClass &&
               OpensRegex(PrevSignificant(t, Local(s)))
    requires mode != Code
    ensures Run(t, src, s) == Run(t, src, Emit(s, " ", mode))
  {
    hide Run, OpensRegex, PrevSignificant, Local, At;
    TwoAt(src, s.i, "//");
    TwoAt(src, s.i, "/*");
    RunStep(t, src, s);
  }

  lemma LineCommentRuns(t: CharTables, src: string, s: State, text: string)
    requires s.mode == Code && Stands(src, s.i, "//" + text) && '\n' !in text
    requires s.i + 2 + |text| < |src| ==> src[s.i + 2 + |text|] == '\n'
    ensures Run(t, src, s) == Run(t, src, Emit(s, Spaces(2 + |text|), Code))
  {
    hide Run, Stands, OpensRegex, PrevSignificant;
    StandsHead(src, s.i, "//" + text);
    StandsHead(src, s.i + 1, ("//" + text)[1..]);
    assert ("//" + text)[1..] == "/" + text;
    LiteralOpens(t, src, s, Line);

    LineRuns(t, src, Emit(s, " ", Line), "/" + text);
    EmitTwice(s, " ", Spaces(1 + |text|), Line, Line);
    MoreSpaces(1, 1 + |text|);
    LineEnds(t, src, Emit(s, Spaces(2 + |text|), Line));
  }

  lemma BlockCommentRuns(t: CharTables, src: string, s: State, text: string)
    requires s.mode == Code && Stands(src, s.i, "/" + text + "*/") && InBlock(text)
    ensures Run(t, src, s) == Run(t, src, Emit(s, " " + Blanking(text) + "  ", Code))
  {
    hide Run, Stands, OpensRegex, PrevSignificant, ClosesNowhere, Blanking;
    var lit := "/" + text + "*/";
    assert lit[1..] == text + "*/";
    StandsHead(src, s.i, lit);
    StandsHead(src, s.i + 1, text + "*/");
    LiteralOpens(t, src, s, Block);
    BlockRuns(t, src, Emit(s, " ", Block), text);
    EmitTwice(s, " ", Blanking(text) + "  ", Block, Code);
    Regroup(" ", Blanking(text), "  ");
  }

  lemma OpenLiteralRuns(t: CharTables, src: string, s: State, quote: char, text: string)
    requires s.mode == Code && Stands(src, s.i, [quote] + text) && (quote == '\'' || quote == '"')
    requires InString(quote, text)
    ensures Run(t, src, s) == Run(t, src, Emit(s, Spaces(1 + |text|), Quoted(quote)))
  {
    hide Run, Stands, OpensRegex, PrevSignificant, InString;
    StandsHead(src, s.i, [quote] + text);
    assert ([quote] + text)[1..] == text;
    LiteralOpens(t, src, s, Quoted(quote));
    StringRuns(t, src, Emit(s, " ", Quoted(quote)), quote, text);
    EmitTwice(s, " ", Spaces(|text|), Quoted(quote), Quoted(quote));
    MoreSpaces(1, |text|);
  }

  lemma OpenRegexRuns(t: CharTables, src: string, s: State, text: string, closed: bool) returns (last: bool)
    requires s.mode == Code && Stands(src, s.i, "/" + text) && InRegex(text, false, closed)
    requires OpensOne(text) && OpensRegex(PrevSignificant(t, Local(s)))
    ensures closed ==> !last
    ensures Run(t, src, s) == Run(t, src, Emit(s, Spaces(1 + |text|), Regex(last)))
  {
    hide Run, Stands, OpensRegex, PrevSignificant, Local, InRegex;
    StandsHead(src, s.i, "/" + text);
    assert ("/" + text)[1..] == text;
    StandsHead(src, s.i + 1, text);
    LiteralOpens(t, src, s, Regex(false));
    last := RegexRuns(t, src, Emit(s, " ", Regex(false)), text, false, closed);
    EmitTwice(s, " ", Spaces(|text|), Regex(false), Regex(last));
    MoreSpaces(1, |text|);
  }

  lemma LiteralRuns(t: CharTables, src: string, s: State, quote: char, text: string)
    requires s.mode == Code && Stands(src, s.i, [quote] + text + [quote]) && (quote == '\'' || quote == '"')
    requires InString(quote, text)
    ensures Run(t, src, s) == Run(t, src, Emit(s, Spaces(2 + |text|), Code))
  {
    hide Run, Stands, InString;
    StandsConcat(src, s.i, [quote] + text, [quote]);
    StandsHead(src, s.i + |[quote] + text|, [quote]);
    OpenLiteralRuns(t, src, s, quote, text);
    StringCloses(t, src, Emit(s, Spaces(1 + |text|), Quoted(quote)));
    EmitTwice(s, Spaces(1 + |text|), Spaces(1), Quoted(quote), Code);
    MoreSpaces(1 + |text|, 1);
  }

  lemma RegexLiteralRuns(t: CharTables, src: string, s: State, text: string)
    requires s.mode == Code && Stands(src, s.i, "/" + text + "/") && InRegex(text, false, true)
    requires OpensOne(text) && OpensRegex(PrevSignificant(t, Local(s)))
    ensures Run(t, src, s) == Run(t, src, Emit(s, Spaces(2 + |text|), Code))
  {
    hide Run, Stands, OpensRegex, PrevSignificant, Local, InRegex;
    StandsConcat(src, s.i, "/" + text, "/");
    StandsHead(src, s.i + |"/" + text|, "/");
    var last := OpenRegexRuns(t, src, s, text, true);
    RegexCloses(t, src, Emit(s, Spaces(1 + |text|), Regex(false)));
    EmitTwice(s, Spaces(1 + |text|), Spaces(1), Regex(false), Code);
    MoreSpaces(1 + |text|, 1);
  }

  lemma {:induction false} PiecesRun(t: CharTables, src: string, s: State, pieces: seq<Piece>, level: nat, next: string)
    requires InCode(s, level) && Stands(src, s.i, Source(pieces)) && Begins(src, s.i + |Source(pieces)|, next)
    requires Fits(t, pieces, level, Local(s), next)
    ensures Run(t, src, s) == Run(t, src, Moved(s, Shown(pieces), Levels(pieces, level)))
    decreases pieces, 1
  {
    hide Run, Stands, Local, PieceFits, PieceSource, PieceShown, Begins;
    if pieces == [] {
      assert s.out + "" == s.out;
      MovedInCode(s, "", level, level);
    } else {
      var first, rest := pieces[0], pieces[1..];
      StandsConcat(src, s.i, PieceSource(first), Source(rest));
      NextConcat(src, s.i + |PieceSource(first)|, Source(rest), next);
      PieceRuns(t, src, s, first, level, Source(rest) + next);
      var after := if first.Kept? then LevelAfter(level, first.c) else level;
      var moved := Moved(s, PieceShown(first), after);
      MovedInCode(s, PieceShown(first), level, after);
      PiecesRun(t, src, moved, rest, after, next);
      MovedTwice(s, PieceShown(first), Shown(rest), after, Levels(rest, after));
    }
  }

  lemma {:induction false} PieceRuns(t: CharTables, src: string, s: State, piece: Piece, level: nat, next: string)
    requires InCode(s, level) && Stands(src, s.i, PieceSource(piece)) && Begins(src, s.i + |PieceSource(piece)|, next)
    requires PieceFits(t, piece, level, Local(s), next)
    ensures Run(t, src, s) ==
            Run(t, src, Moved(s, PieceShown(piece), if piece.Kept? then LevelAfter(level, piece.c) else level))
    decreases piece, 0
  {
    hide Run, Stands, OpensRegex, PrevSignificant, Local, InString, InRegex, InBlock, PartsFit, PartsSource, PartsShown;
    MovedInCode(s, PieceShown(piece), level, level);
    match piece
    case Kept(c) =>
      StandsHead(src, s.i, [c]);
      KeptRuns(t, src, s, c, level, next);
    case LineComment(text) => LineCommentRuns(t, src, s, text);
    case BlockComment(text) => BlockCommentRuns(t, src, s, text);
    case Literal(quote, text) => LiteralRuns(t, src, s, quote, text);
    case RegexLiteral(text) => RegexLiteralRuns(t, src, s, text);
    case OpenLiteral(quote, text) =>
      OpenLiteralRuns(t, src, s, quote, text);
      LineEnds(t, src, Emit(s, Spaces(1 + |text|), Quoted(quote)));
    case OpenRegex(text) =>
      var last := OpenRegexRuns(t, src, s, text, false);
      LineEnds(t, src, Emit(s, Spaces(1 + |text|), Regex(last)));
    case TemplateLiteral(parts) =>
      var lit := "`" + PartsSource(parts) + "`";
      assert lit[1..] == PartsSource(parts) + "`";
      StandsHead(src, s.i, lit);
      StandsHead(src, s.i + 1, lit[1..]);
      LiteralOpens(t, src, s, Template);
      PartsRun(t, src, Emit(s, " ", Template), parts);
      EmitTwice(s, " ", PartsShown(parts) + " ", Template, Code);
      assert " " + (PartsShown(parts) + " ") == " " + PartsShown(parts) + " ";
  }

  lemma {:induction false} PartsRun(t: CharTables, src: string, s: State, parts: seq<Part>)
    requires s.mode == Template && |s.out| == s.i && Stands(src, s.i, PartsSource(parts) + "`") && PartsFit(t, parts)
    ensures Run(t, src, s) == Run(t, src, Emit(s, PartsShown(parts) + " ", Code))
    decreases parts, 1
  {
    hide Run, Stands, PartFits, PartSource, PartShown, Begins;
    if parts == [] {
      assert PartsSource(parts) + "`" == "`";
      StandsHead(src, s.i, "`");
      RunStep(t, src, s);
      assert "" + " " == " ";
    } else {
      var first, rest := parts[0], PartsSource(parts[1..]) + "`";
      assert PartsSource(parts) + "`" == PartSource(first) + rest;
      StandsConcat(src, s.i, PartSource(first), rest);
      StandsBegins(src, s.i + |PartSource(first)|, rest);
      PartRuns(t, src, s, first, rest);
      PartsRun(t, src, Emit(s, PartShown(first), Template), parts[1..]);
      EmitTwice(s, PartShown(first), PartsShown(parts[1..]) + " ", Template, Code);
      assert PartShown(first) + (PartsShown(parts[1..]) + " ") == PartsShown(parts) + " ";
    }
  }

  lemma {:induction false} PartRuns(t: CharTables, src: string, s: State, part: Part, next: string)
    requires s.mode == Template && |s.out| == s.i && Stands(src, s.i, PartSource(part))
    requires Begins(src, s.i + |PartSource(part)|, next) && PartFits(t, part, next)
    ensures Run(t, src, s) == Run(t, src, Emit(s, PartShown(part), Template))
    decreases part, 0
  {
    hide Run, Stands, Source, Shown, Fits;
    match part
    case Plain(c) =>
      StandsHead(src, s.i, [c]);
      TwoAt(src, s.i, "${");
      RunStep(t, src, s);
    case Escaped(c) =>
      StandsHead(src, s.i, ['\\', c]);
      StandsHead(src, s.i + 1, [c]);
      RunStep(t, src, s);
    case Expression(code) =>
      ExpressionOpens(t, src, s, Source(code));
      var inner := State(s.i + 2, s.out + "  ", Code, s.frames + [Frame(s.i + 2, 1)]);
      PiecesRun(t, src, inner, code, 1, "}");
      ExpressionCloses(t, src, s, inner, Shown(code));
  }

  lemma ExpressionOpens(t: CharTables, src: string, s: State, code: string)
    requires s.mode == Template && |s.out| == s.i && Stands(src, s.i, "${" + code + "}")
    ensures var inner := State(s.i + 2, s.out + "  ", Code, s.frames + [Frame(s.i + 2, 1)]);
            && Run(t, src, s) == Run(t, src, inner) && InCode(inner, 1) && Local(inner) == ""
            && Stands(src, inner.i, code) && Begins(src, inner.i + |code|, "}")
            && inner.i + |code| < |src| && src[inner.i + |code|] == '}'
  {
    hide Run, Stands;
    var close := "${" + code + "}";
    StandsHead(src, s.i, close);
    StandsHead(src, s.i + 1, close[1..]);
    assert close[1..][1..] == code + "}";
    StandsConcat(src, s.i + 2, code, "}");
    StandsHead(src, s.i + 2 + |code|, "}");
    TwoAt(src, s.i, "${");
    RunStep(t, src, s);
  }

  lemma ExpressionCloses(t: CharTables, src: string, s: State, inner: State, shown: string)
    requires s.mode == Template && inner == State(s.i + 2, s.out + "  ", Code, s.frames + [Frame(s.i + 2, 1)])
    requires inner.i + |shown| < |src| && src[inner.i + |shown|] == '}'
    ensures Run(t, src, Moved(inner, shown, 1)) == Run(t, src, Emit(s, "  " + shown + " ", Template))
  {
    hide Run, OpensRegex, PrevSignificant, Local;
    var end := Moved(inner, shown, 1);
    TwoAt(src, end.i, "//");
    TwoAt(src, end.i, "/*");
    assert end.frames == s.frames + [Frame(s.i + 2, 1)];
    RunStep(t, src, end);
    assert Pop(end.frames) == s.frames;
    assert s.out + "  " + shown + " " == s.out + ("  " + shown + " ");
  }

  // ------------------------------------------------- main results

  /** Code is kept and closed literals are blanked, whatever they hold and however they nest. */
  lemma CodeIsKept(t: CharTables, pieces: seq<Piece>)
    requires Fits(t, pieces, 0, "", "")
    ensures Strip(t, Source(pieces)) == Shown(pieces)
  {
    hide Run, Source, Shown, Fits;
    var src, start := Source(pieces), State(0, "", Code, []);
    PiecesRun(t, src, start, pieces, 0, "");
    NoLevels(pieces);
    RunStep(t, src, State(|src|, Shown(pieces), Code, []));
    assert "" + Shown(pieces) == Shown(pieces);
  }

  lemma {:induction false} NoLevels(pieces: seq<Piece>)
    ensures Levels(pieces, 0) == 0
  {
    if pieces != [] { NoLevels(pieces[1..]); }
  }

  // ------------------------------------------------- a literal between two texts

  /** A text, character by character. */
  function Chars(text: string): (pieces: seq<Piece>)
    ensures |pieces| == |text| && forall k :: 0 <= k < |text| ==> pieces[k] == Kept(text[k])
    ensures Source(pieces) == text && Shown(pieces) == text
  {
    if text == "" then []
    else
      assert [Kept(text[0])] + Chars(text[1..]) != [] && ([Kept(text[0])] + Chars(text[1..]))[1..] == Chars(text[1..]);
      [Kept(text[0])] + Chars(text[1..])
  }

  lemma {:induction false} SourceConcat(p: seq<Piece>, q: seq<Piece>)
    ensures Source(p + q) == Source(p) + Source(q) && Shown(p + q) == Shown(p) + Shown(q)
  {
    hide PieceSource, PieceShown;
    if p == [] {
      assert p + q == q;
    } else {
      assert (p + q)[0] == p[0] && (p + q)[1..] == p[1..] + q;
      SourceConcat(p[1..], q);
    }
  }

  function After(piece: Piece, level: nat): nat {
    if piece.Kept? then LevelAfter(level, piece.c) else level
  }

  lemma FitsStep(t: CharTables, first: Piece, rest: seq<Piece>, level: nat, out: string, next: string)
    ensures Fits(t, [first] + rest, level, out, next) <==>
            && PieceFits(t, first, level, out, Source(rest) + next)
            && Fits(t, rest, After(first, level), out + PieceShown(first), next)
    ensures Levels([first] + rest, level) == Levels(rest, After(first, level))
  {
    hide PieceFits, PieceShown, PieceSource, LevelAfter;
    assert ([first] + rest)[1..] == rest;
  }

  lemma {:induction false} FitsConcat(t: CharTables, p: seq<Piece>, q: seq<Piece>, level: nat, out: string, next: string)
    requires Fits(t, p, level, out, Source(q) + next) && Fits(t, q, Levels(p, level), out + Shown(p), next)
    ensures Fits(t, p + q, level, out, next)
  {
    if p == [] {
      assert p + q == q && out + Shown(p) == out;
    } else {
      hide Fits, Levels, After, PieceSource, PieceShown, PieceFits, Source, Shown;
      var first, rest := p[0], p[1..];
      assert p == [first] + rest && p + q == [first] + (rest + q);
      FitsStep(t, first, rest, level, out, Source(q) + next);
      FitsStep(t, first, rest + q, level, out, next);
      SourceConcat(rest, q);
      LiteralSource(first, rest);
      Regroup(Source(rest), Source(q), next);
      Regroup(out, PieceShown(first), Shown(rest));
      FitsConcat(t, rest, q, After(first, level), out + PieceShown(first), next);
    }
  }

  /** In clean text no character opens anything. */
  lemma CleanCharacter(t: CharTables, out: string, text: string, behind: string)
    requires Clean(t, out + text + behind) && text != ""
    ensures text[0] != '\'' && text[0] != '"' && text[0] != '`'
    ensures text[0] == '/' ==> !OpensRegex(PrevSignificant(t, out))
    ensures text[0] == '/' && |text| > 1 ==> text[1] != '/' && text[1] != '*'
  {
    hide OpensRegex, PrevSignificant, Clean, At;
    var whole, k := out + text + behind, |out|;
    CleanAt(t, whole, k);
    assert whole[k] == text[0] && whole[..k] == out;
    TwoAt(whole, k, "//");
    TwoAt(whole, k, "/*");
    if |text| > 1 { assert whole[k + 1] == text[1]; }
  }

  /** Clean text fits as code. */
  lemma {:induction false} CleanTextFits(t: CharTables, out: string, text: string, behind: string, next: string)
    requires Clean(t, out + text + behind)
    requires text != "" && text[|text| - 1] == '/' ==> next == "" || (next[0] != '/' && next[0] != '*')
    ensures Fits(t, Chars(text), 0, out, next)
    decreases |text|
  {
    if text != "" {
      hide OpensRegex, PrevSignificant, Clean, Fits, Levels, Source;
      var first, rest := [text[0]], text[1..];
      CleanCharacter(t, out, text, behind);
      assert text == first + rest;
      Regroup(out, first, rest);
      CleanTextFits(t, out + first, rest, behind, next);
      FitsStep(t, Kept(text[0]), Chars(rest), 0, out, next);
    }
  }

  /** The literal closes where its text ends, and stands where it is one. */
  ghost predicate Closed(t: CharTables, a: string, literal: Piece, b: string) {
    && !literal.Kept? && PieceFits(t, literal, 0, a, b)
    && (a != "" ==> a[|a| - 1] != '/')
  }

  /** One closed literal between two texts: the texts stay and the literal is blanked. */
  lemma LiteralBetween(t: CharTables, a: string, literal: Piece, b: string)
    requires Clean(t, a + PieceShown(literal) + b) && Closed(t, a, literal, b)
    ensures Strip(t, a + PieceSource(literal) + b) == a + PieceShown(literal) + b
  {
    hide Clean, PieceSource, PieceShown, Strip, Fits, Source, Shown, Chars;
    var pieces := [literal] + Chars(b);
    LiteralSource(literal, Chars(b));
    LiteralThenTextFits(t, a, literal, b);
    Regroup(a, PieceShown(literal), b);
    Regroup(a, PieceSource(literal), b);
    Regroup(Source(pieces), "", "");
    CleanTextFits(t, "", a, PieceShown(literal) + b, Source(pieces));
    NoLevels(Chars(a));
    Regroup(a, "", "");
    FitsConcat(t, Chars(a), pieces, 0, "", "");
    SourceConcat(Chars(a), pieces);
    CodeIsKept(t, Chars(a) + pieces);
  }

  lemma LiteralThenTextFits(t: CharTables, a: string, literal: Piece, b: string)
    requires Clean(t, a + PieceShown(literal) + b) && Closed(t, a, literal, b)
    ensures Fits(t, [literal] + Chars(b), 0, a, "")
  {
    hide Clean, PieceShown, PieceFits, Fits, Chars;
    Regroup(a + PieceShown(literal) + b, "", "");
    CleanTextFits(t, a + PieceShown(literal), b, "", "");
    Regroup(b, "", "");
    FitsStep(t, literal, Chars(b), 0, a, "");
  }

  lemma LiteralSource(literal: Piece, rest: seq<Piece>)
    ensures Source([literal] + rest) == PieceSource(literal) + Source(rest)
    ensures Shown([literal] + rest) == PieceShown(literal) + Shown(rest)
  {
    hide PieceSource, PieceShown;
    assert ([literal] + rest)[1..] == rest;
  }

  // ------------------------------------------------- what code mentions is still mentioned

  /** A stretch of code from one literal, or end, to the next, here or in a nested expression. */
  ghost predicate Stretch(pieces: seq<Piece>, text: string)
    decreases pieces
  {
    || (exists i, j :: 0 <= i <= j <= |pieces| && Between(pieces, i, j) && text == Source(pieces[i..j]))
    || (exists k, m :: 0 <= k < |pieces| && IsExpression(pieces[k], m) && Stretch(pieces[k].parts[m].code, text))
  }

  predicate Between(pieces: seq<Piece>, i: nat, j: nat)
    requires i <= j <= |pieces|
  {
    && (forall k :: i <= k < j ==> pieces[k].Kept?)
    && (i > 0 ==> !pieces[i - 1].Kept?) && (j < |pieces| ==> !pieces[j].Kept?)
  }

  predicate IsExpression(piece: Piece, m: int) {
    piece.TemplateLiteral? && 0 <= m < |piece.parts| && piece.parts[m].Expression?
  }

  lemma {:induction false} KeptIsShown(pieces: seq<Piece>)
    requires forall k :: 0 <= k < |pieces| ==> pieces[k].Kept?
    ensures Shown(pieces) == Source(pieces)
  {
    if pieces != [] { KeptIsShown(pieces[1..]); }
  }

  /** What is left of a literal begins and ends in a space. */
  lemma LiteralShowsSpace(literal: Piece)
    requires !literal.Kept?
    ensures var s := PieceShown(literal); s != "" && s[0] == ' ' && s[|s| - 1] == ' '
  {
  }

  lemma {:induction false} ShownEdges(pieces: seq<Piece>)
    requires pieces != []
    ensures Shown(pieces) != ""
    ensures !pieces[0].Kept? ==> Shown(pieces)[0] == ' '
    ensures !pieces[|pieces| - 1].Kept? ==> Shown(pieces)[|Shown(pieces)| - 1] == ' '
  {
    hide PieceShown;
    var rest := pieces[1..];
    if pieces[0].Kept? { KeptShowsItself(pieces[0]); } else { LiteralShowsSpace(pieces[0]); }
    if rest != [] {
      ShownEdges(rest);
      assert rest[|rest| - 1] == pieces[|pieces| - 1];
    } else {
      assert Shown(pieces) == PieceShown(pieces[0]);
    }
  }

  lemma KeptShowsItself(piece: Piece)
    requires piece.Kept?
    ensures PieceShown(piece) == [piece.c]
  {
  }

  lemma {:induction false} PartsConcat(p: seq<Part>, q: seq<Part>)
    ensures PartsShown(p + q) == PartsShown(p) + PartsShown(q)
  {
    hide PartShown;
    if p == [] {
      assert p + q == q;
    } else {
      assert (p + q)[0] == p[0] && (p + q)[1..] == p[1..] + q;
      PartsConcat(p[1..], q);
    }
  }

  /** What is left of a template literal holds, between blanks, what is left of its expressions. */
  lemma ExpressionIsInside(piece: Piece, m: nat) returns (x: string, y: string)
    requires IsExpression(piece, m)
    ensures PieceShown(piece) == x + Shown(piece.parts[m].code) + y
    ensures x != "" && x[|x| - 1] == ' ' && y != "" && y[0] == ' '
  {
    hide Shown, PartsShown;
    var parts, inner := piece.parts, Shown(piece.parts[m].code);
    var before, behind := PartsShown(parts[..m]), PartsShown(parts[m + 1..]);
    PartIsInside(parts, m);
    x, y := " " + before + "  ", " " + behind + " ";
    Surrounded(before, inner, behind);
  }

  lemma Surrounded(before: string, inner: string, behind: string)
    ensures " " + (before + ("  " + inner + " ") + behind) + " " ==
            (" " + before + "  ") + inner + (" " + behind + " ")
  {
  }

  lemma PartIsInside(parts: seq<Part>, m: nat)
    requires m < |parts|
    ensures PartsShown(parts) == PartsShown(parts[..m]) + PartShown(parts[m]) + PartsShown(parts[m + 1..])
  {
    hide PartShown, PartsShown;
    var one, behind := [parts[m]], parts[m + 1..];
    SplitAt(parts, m);
    PartsConcat(parts[..m], one + behind);
    PartsConcat(one, behind);
    OnePart(parts[m]);
    Regroup(PartsShown(parts[..m]), PartShown(parts[m]), PartsShown(behind));
  }

  lemma OnePart(part: Part)
    ensures PartsShown([part]) == PartShown(part)
  {
    hide PartShown;
    assert [part][1..] == [] && PartsShown([]) == "";
  }

  lemma {:induction false} StretchIsMentioned(t: CharTables, pieces: seq<Piece>, text: string, sym: string)
    requires Sane(t) && Stretch(pieces, text) && Mentions(t, text, sym)
    ensures Mentions(t, Shown(pieces), sym)
    decreases pieces
  {
    hide Mentions, PieceShown, PieceSource, Shown, Source, Between;
    if i, j :| 0 <= i <= j <= |pieces| && Between(pieces, i, j) && text == Source(pieces[i..j]) {
      CodeIsMentioned(t, pieces, i, j, sym);
    } else {
      var k, m :| 0 <= k < |pieces| && IsExpression(pieces[k], m) && Stretch(pieces[k].parts[m].code, text);
      StretchIsMentioned(t, pieces[k].parts[m].code, text, sym);
      ExpressionIsMentioned(t, pieces, k, m, sym);
    }
  }

  lemma CodeIsMentioned(t: CharTables, pieces: seq<Piece>, i: nat, j: nat, sym: string)
    requires Sane(t) && i <= j <= |pieces| && Between(pieces, i, j) && Mentions(t, Source(pieces[i..j]), sym)
    ensures Mentions(t, Shown(pieces), sym)
  {
    hide Mentions, PieceShown, PieceSource, Shown, Source;
    KeptIsShown(pieces[i..j]);
    CutAt(pieces, i, j);
    SourceConcat(pieces[..i], pieces[i..j] + pieces[j..]);
    SourceConcat(pieces[i..j], pieces[j..]);
    var x, y := Shown(pieces[..i]), Shown(pieces[j..]);
    NothingShown();
    if i > 0 { ShownEdges(pieces[..i]); }
    if j < |pieces| { ShownEdges(pieces[j..]); }
    Regroup(x, Shown(pieces[i..j]), y);
    MentionsInside(t, x, Shown(pieces[i..j]), y, sym);
  }

  lemma ExpressionIsMentioned(t: CharTables, pieces: seq<Piece>, k: nat, m: nat, sym: string)
    requires Sane(t) && k < |pieces| && IsExpression(pieces[k], m)
    requires Mentions(t, Shown(pieces[k].parts[m].code), sym)
    ensures Mentions(t, Shown(pieces), sym)
  {
    hide Mentions, PieceShown, Shown;
    var inner := Shown(pieces[k].parts[m].code);
    var x, y := ExpressionIsInside(pieces[k], m);
    PieceIsInside(pieces, k);
    var before, behind := Shown(pieces[..k]) + x, y + Shown(pieces[k + 1..]);
    Nested(Shown(pieces[..k]), x, inner, y, Shown(pieces[k + 1..]));
    MentionsInside(t, before, inner, behind, sym);
  }

  lemma Nested(a: string, x: string, inner: string, y: string, b: string)
    ensures a + (x + inner + y) + b == (a + x) + inner + (y + b)
  {
  }

  lemma NothingShown()
    ensures Shown([]) == ""
  {
  }

  lemma PieceIsInside(pieces: seq<Piece>, k: nat)
    requires k < |pieces|
    ensures Shown(pieces) == Shown(pieces[..k]) + PieceShown(pieces[k]) + Shown(pieces[k + 1..])
  {
    hide PieceShown, PieceSource, Shown, Source;
    var behind := pieces[k + 1..];
    SplitAt(pieces, k);
    SourceConcat(pieces[..k], [pieces[k]] + behind);
    LiteralSource(pieces[k], behind);
    Regroup(Shown(pieces[..k]), PieceShown(pieces[k]), Shown(behind));
  }

  /** Whatever code mentions between its literals, or inside a template's expressions, is mentioned in
      the stripped text. */
  lemma CodeMentionsStay(t: CharTables, pieces: seq<Piece>, text: string, sym: string)
    requires Sane(t) && Fits(t, pieces, 0, "", "") && Stretch(pieces, text) && Mentions(t, text, sym)
    ensures Mentions(t, Strip(t, Source(pieces)), sym)
  {
    hide Strip, Mentions, Stretch, Fits;
    CodeIsKept(t, pieces);
    StretchIsMentioned(t, pieces, text, sym);
  }
}
