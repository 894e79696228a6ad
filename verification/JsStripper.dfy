/** Blanking comments, strings, template literals and regular expressions of JavaScript sources. */
module JsStripper {
  import opened Lexis

  const REGEX_PRECEDERS: set<char> :=
    {'(', ',', '=', ':', '[', '!', '&', '|', '?', '{', '}', ';', '+', '-', '*', '%', '>', '~', '^'}
  const REGEX_PRECEDER_WORDS: set<string> :=
    {"return", "typeof", "case", "in", "of", "delete", "void", "throw", "new"}

  function TrailingWord(t: CharTables, out: string): string {
    if out != "" && IsWord(t, out[|out| - 1]) then TrailingWord(t, out[..|out| - 1]) + [out[|out| - 1]] else ""
  }

  /** The last token emitted so far that is not white space: one character, or a whole word. */
  function PrevSignificant(t: CharTables, out: string): string {
    if out == "" then ""
    else if t.space(out[|out| - 1]) then PrevSignificant(t, out[..|out| - 1])
    else if IsWord(t, out[|out| - 1]) then TrailingWord(t, out)
    else [out[|out| - 1]]
  }

  /** A slash after this token opens a regular expression instead of dividing. */
  predicate OpensRegex(prev: string) {
    prev == "" || (|prev| == 1 && prev[0] in REGEX_PRECEDERS) || prev in REGEX_PRECEDER_WORDS
  }

  // ------------------------------------------------- a flat reference lexer

  datatype Mode = Code | Line | Block | Quoted(quote: char) | Template | Regex(inClass: bool)

  /** An open template expression: where its code starts, and how many braces are open in it. */
  datatype Frame = Frame(base: nat, depth: nat)

  datatype State = State(i: nat, out: string, mode: Mode, frames: seq<Frame>)

  function Base(frames: seq<Frame>): nat {
    if frames == [] then 0 else frames[|frames| - 1].base
  }

  function Pop(frames: seq<Frame>): seq<Frame> {
    if frames == [] then [] else frames[..|frames| - 1]
  }

  function SetDepth(frames: seq<Frame>, depth: nat): seq<Frame> {
    if frames == [] then [] else Pop(frames) + [Frame(Base(frames), depth)]
  }

  function Emit(s: State, text: string, mode: Mode): State {
    State(s.i + |text|, s.out + text, mode, s.frames)
  }

  /** Consume one character, or two that belong together. */
  function Step(t: CharTables, src: string, s: State): State
    requires s.i < |src|
  {
    var c := src[s.i];
    match s.mode
    case Code => StepCode(t, src, s)
    case Line => if c == '\n' then Emit(s, "\n", Code) else Emit(s, " ", Line)
    case Block => if At(src, s.i, "*/") then Emit(s, "  ", Code) else Emit(s, [Blank(c)], Block)
    case Quoted(quote) =>
      if c == quote then Emit(s, " ", Code)
      else if c == '\n' then Emit(s, "\n", Code)
      else if c == '\\' && s.i + 1 < |src| then Emit(s, "  ", s.mode)
      else Emit(s, " ", s.mode)
    case Template =>
      if c == '`' then Emit(s, " ", Code)
      else if c == '\\' && s.i + 1 < |src| then Emit(s, [' ', Blank(src[s.i + 1])], Template)
      else if At(src, s.i, "${") then
        State(s.i + 2, s.out + "  ", Code, s.frames + [Frame(s.i + 2, 1)])
      else Emit(s, [Blank(c)], Template)
    case Regex(inClass) =>
      if c == '\n' then Emit(s, "\n", Code)
      else if c == '\\' then Emit(s, "  ", s.mode)
      else if c == '/' && !inClass then Emit(s, " ", Code)
      else Emit(s, " ", Regex(if c == '[' then true else if c == ']' then false else inClass))
  }

  function StepCode(t: CharTables, src: string, s: State): State
    requires s.i < |src|
  {
    var c := src[s.i];
    if At(src, s.i, "//") then Emit(s, " ", Line)
    else if At(src, s.i, "/*") then Emit(s, " ", Block)
    else if c == '\'' || c == '"' then Emit(s, " ", Quoted(c))
    else if c == '`' then Emit(s, " ", Template)
    else if c == '/' && OpensRegex(PrevSignificant(t, Local(s))) then Emit(s, " ", Regex(false))
    else if s.frames != [] && c == '{' then
      Emit(s, [c], Code).(frames := SetDepth(s.frames, s.frames[|s.frames| - 1].depth + 1))
    else if s.frames != [] && c == '}' then
      var depth := s.frames[|s.frames| - 1].depth;
      if depth <= 1 then Emit(s, " ", Template).(frames := Pop(s.frames))
      else Emit(s, [c], Code).(frames := SetDepth(s.frames, depth - 1))
    else Emit(s, [c], Code)
  }

  /** The output of the innermost open template expression, or of the whole text. */
  function Local(s: State): string {
    if Base(s.frames) <= |s.out| then s.out[Base(s.frames)..] else ""
  }

  /** Run to the end; an unterminated block comment is closed past it. */
  function Run(t: CharTables, src: string, s: State): string
    decreases |src| - s.i
  {
    if s.i >= |src| then (if s.mode == Block then s.out + "  " else s.out)
    else Run(t, src, Step(t, src, s))
  }

  function Strip(t: CharTables, src: string): string {
    Run(t, src, State(0, "", Code, []))
  }

  // ------------------------------------------------- what every state keeps

  /** A slash that was kept divides, judged by everything emitted before it. */
  ghost predicate Divides(t: CharTables, out: string, k: nat)
    requires k < |out|
  {
    out[k] == '/' ==> !OpensRegex(PrevSignificant(t, out[..k]))
  }

  /** No literal or comment can start in `out`. */
  ghost predicate Clean(t: CharTables, out: string) {
    && (forall k :: 0 <= k < |out| ==> out[k] != '\'' && out[k] != '"' && out[k] != '`')
    && (forall k :: 0 <= k < |out| ==> !At(out, k, "//") && !At(out, k, "/*"))
    && (forall k :: 0 <= k < |out| ==> Divides(t, out, k))
  }

  ghost predicate Sound(t: CharTables, src: string, s: State) {
    && |s.out| == s.i <= |src| + 1
    && (s.i > |src| ==> s.mode != Block)
    && (s.mode.Quoted? ==> s.mode.quote == '\'' || s.mode.quote == '"')
    && (forall k :: 0 <= k < s.i ==> s.out[k] == ' ' || (k < |src| && s.out[k] == src[k]))
  }

  ghost predicate Seamless(t: CharTables, src: string, s: State)
    requires |s.out| == s.i
  {
    && CutAtBoundaries(t, src, s.out)
    && (s.i > 0 && s.mode != Code ==> !IsWord(t, s.out[s.i - 1]))
    && (0 < s.i <= |src| && s.mode == Code && s.out[s.i - 1] != src[s.i - 1] ==> !IsWord(t, src[s.i - 1]))
  }

  /** Every open template expression starts after a blank, so no word reaches across its start. */
  ghost predicate Framed(s: State)
    requires |s.out| == s.i
  {
    forall f :: f in s.frames ==> 0 < f.base <= s.i && s.out[f.base - 1] == ' '
  }

  ghost predicate Tidy(t: CharTables, src: string, s: State)
    requires |s.out| == s.i
  {
    && (forall k :: 0 <= k < s.i ==> s.out[k] != '\'' && s.out[k] != '"' && s.out[k] != '`')
    && (forall k :: 0 <= k < s.i && s.out[k] == '/' ==>
         k < |src| && !At(src, k, "//") && !At(src, k, "/*") && Divides(t, s.out, k))
  }

  lemma {:induction false} WordStopsAtBlank(t: CharTables, a: string, b: string)
    requires b == "" || !IsWord(t, b[0]) || a == "" || !IsWord(t, a[|a| - 1])
    requires b != "" || a == "" || !IsWord(t, a[|a| - 1])
    ensures TrailingWord(t, a + b) == TrailingWord(t, b)
  {
    if b == "" {
      assert a + b == a;
    } else {
      assert (a + b)[..|a + b| - 1] == a + b[..|b| - 1];
      if |b| == 1 {
        assert a + b[..0] == a;
      } else {
        WordStopsAtBlank(t, a, b[..|b| - 1]);
      }
    }
  }

  /** Looking back past the start of a template expression changes nothing once a token was emitted in it. */
  lemma {:induction false} LookBackIsLocal(t: CharTables, a: string, b: string)
    requires Sane(t) && (b == "" || !IsWord(t, b[0]) || a == "" || !IsWord(t, a[|a| - 1]))
    requires PrevSignificant(t, b) != ""
    ensures PrevSignificant(t, a + b) == PrevSignificant(t, b)
  {
    assert (a + b)[..|a + b| - 1] == a + b[..|b| - 1];
    if t.space(b[|b| - 1]) {
      LookBackIsLocal(t, a, b[..|b| - 1]);
    } else if IsWord(t, b[|b| - 1]) {
      WordStopsAtBlank(t, a, b);
    }
  }

  lemma {:induction false} LookBackPastSpace(t: CharTables, a: string, b: string)
    requires PrevSignificant(t, b) == ""
    ensures PrevSignificant(t, a + b) == PrevSignificant(t, a)
  {
    if b == "" {
      assert a + b == a;
    } else {
      assert (a + b)[..|a + b| - 1] == a + b[..|b| - 1];
      if !t.space(b[|b| - 1]) {
        WordIsNotEmpty(t, b);
      } else {
        LookBackPastSpace(t, a, b[..|b| - 1]);
      }
    }
  }

  lemma WordIsNotEmpty(t: CharTables, b: string)
    requires b != "" && !t.space(b[|b| - 1])
    ensures PrevSignificant(t, b) != ""
  {
  }

  ghost predicate AllSpace(t: CharTables, gap: string) {
    forall k :: 0 <= k < |gap| ==> t.space(gap[k])
  }

  ghost predicate AllWord(t: CharTables, word: string) {
    forall k :: 0 <= k < |word| ==> IsWord(t, word[k])
  }

  lemma {:induction false} WholeWord(t: CharTables, word: string)
    requires AllWord(t, word)
    ensures TrailingWord(t, word) == word
  {
    if word != "" {
      WholeWord(t, word[..|word| - 1]);
      assert word[..|word| - 1] + [word[|word| - 1]] == word;
    }
  }

  /** Behind any white space stands the token found: a whole word, or a single other character. */
  lemma {:induction false} LookBackFinds(t: CharTables, a: string, token: string, gap: string)
    requires Sane(t) && AllSpace(t, gap)
    requires || (token != "" && AllWord(t, token) && (a != "" ==> !IsWord(t, a[|a| - 1])))
             || (|token| == 1 && !IsWord(t, token[0]) && !t.space(token[0]))
    ensures PrevSignificant(t, a + token + gap) == token
  {
    var out := a + token + gap;
    if gap != "" {
      assert out[..|out| - 1] == a + token + gap[..|gap| - 1];
      LookBackFinds(t, a, token, gap[..|gap| - 1]);
    } else {
      assert out == a + token && out[|out| - 1] == token[|token| - 1];
      if IsWord(t, token[|token| - 1]) {
        WordStopsAtBlank(t, a, token);
        WholeWord(t, token);
      }
    }
  }

  /** Behind nothing but white space no token is found. */
  lemma {:induction false} LookBackFindsNothing(t: CharTables, gap: string)
    requires AllSpace(t, gap)
    ensures PrevSignificant(t, gap) == ""
  {
    if gap != "" { LookBackFindsNothing(t, gap[..|gap| - 1]); }
  }

  lemma SlashStays(t: CharTables, src: string, s: State)
    requires Sane(t) && |s.out| == s.i < |src| && Framed(s)
    requires src[s.i] == '/' && !OpensRegex(PrevSignificant(t, Local(s)))
    ensures !OpensRegex(PrevSignificant(t, s.out))
  {
    var base := Base(s.frames);
    if s.frames != [] {
      assert s.frames[|s.frames| - 1] in s.frames;
    }
    assert s.out == s.out[..base] + s.out[base..];
    LookBackIsLocal(t, s.out[..base], s.out[base..]);
  }

  /** Everything a state keeps. */
  ghost predicate Good(t: CharTables, src: string, s: State) {
    Sound(t, src, s) && Seamless(t, src, s) && Framed(s) && Tidy(t, src, s)
  }

  /** What is emitted outside of code: blanks and the source's own line breaks. */
  ghost predicate Blanks(src: string, s: State, text: string) {
    && 0 < |text| && s.i + |text| <= |src| + 1
    && forall j :: 0 <= j < |text| ==>
         text[j] == ' ' || (text[j] == '\n' && s.i + j < |src| && src[s.i + j] == '\n')
  }

  lemma EmitAppends(s: State, text: string, mode: Mode)
    requires |s.out| == s.i
    ensures var next := Emit(s, text, mode);
            && |next.out| == next.i == s.i + |text|
            && (forall k :: 0 <= k < s.i ==> next.out[k] == s.out[k] && next.out[..k] == s.out[..k])
            && (forall k :: s.i <= k < next.i ==> next.out[k] == text[k - s.i])
            && next.out[..s.i] == s.out
  {
  }

  lemma AppendSeams(t: CharTables, src: string, out: string, text: string)
    requires CutAtBoundaries(t, src, out) && forall j :: 0 <= j < |text| ==> !IsWord(t, text[j])
    requires 0 < |out| < |src| && IsWord(t, out[|out| - 1]) ==> !IsWord(t, src[|out|])
    ensures CutAtBoundaries(t, src, out + text)
  {
    var all := out + text;
    forall k | 0 < k < |src| && k < |all| ensures Seam(t, src, all, k) {
      if k < |out| { assert Seam(t, src, out, k); }
    }
  }

  lemma EmitSeamless(t: CharTables, src: string, s: State, text: string, mode: Mode)
    requires Sane(t) && Sound(t, src, s) && Seamless(t, src, s) && s.i < |src| && Blanks(src, s, text)
    requires s.mode == Code ==> !IsWord(t, src[s.i])
    requires mode == Code && s.i + |text| <= |src| ==> !IsWord(t, src[s.i + |text| - 1])
    ensures |Emit(s, text, mode).out| == Emit(s, text, mode).i && Seamless(t, src, Emit(s, text, mode))
  {
    forall j | 0 <= j < |text| ensures !IsWord(t, text[j]) {
      assert text[j] == ' ' || text[j] == '\n';
    }
    AppendSeams(t, src, s.out, text);
    assert (s.out + text)[s.i + |text| - 1] == text[|text| - 1];
  }

  lemma EmitTidy(t: CharTables, src: string, s: State, text: string, mode: Mode)
    requires Sound(t, src, s) && Tidy(t, src, s) && Blanks(src, s, text)
    ensures |Emit(s, text, mode).out| == Emit(s, text, mode).i && Tidy(t, src, Emit(s, text, mode))
  {
    EmitAppends(s, text, mode);
    var next := Emit(s, text, mode);
    forall k | s.i <= k < next.i ensures next.out[k] == ' ' || next.out[k] == '\n' {
      assert text[k - s.i] == ' ' || text[k - s.i] == '\n';
    }
  }

  /** Emitting blanks or line breaks keeps a state good. */
  lemma EmitKeeps(t: CharTables, src: string, s: State, text: string, mode: Mode)
    requires Sane(t) && Good(t, src, s) && s.i < |src| && Blanks(src, s, text)
    requires mode == Block ==> s.i + |text| <= |src|
    requires mode.Quoted? ==> mode.quote == '\'' || mode.quote == '"'
    requires s.mode == Code ==> !IsWord(t, src[s.i])
    requires mode == Code && s.i + |text| <= |src| ==> !IsWord(t, src[s.i + |text| - 1])
    ensures Good(t, src, Emit(s, text, mode))
  {
    hide Divides, Blanks, IsWord, Seamless, Tidy;
    EmitSeamless(t, src, s, text, mode);
    EmitTidy(t, src, s, text, mode);
    EmitSound(t, src, s, text, mode);
  }

  lemma EmitSound(t: CharTables, src: string, s: State, text: string, mode: Mode)
    requires Sound(t, src, s) && Framed(s) && Blanks(src, s, text)
    requires mode == Block ==> s.i + |text| <= |src|
    requires mode.Quoted? ==> mode.quote == '\'' || mode.quote == '"'
    ensures Sound(t, src, Emit(s, text, mode)) && Framed(Emit(s, text, mode))
  {
    EmitAppends(s, text, mode);
  }

  lemma ReframeKeeps(t: CharTables, src: string, s: State, frames: seq<Frame>)
    requires Good(t, src, s)
    requires forall f :: f in frames ==> 0 < f.base <= s.i && s.out[f.base - 1] == ' '
    ensures Good(t, src, s.(frames := frames))
  {
  }

  /** So does keeping one character of code. */
  lemma KeepKeeps(t: CharTables, src: string, s: State)
    requires Sane(t) && Good(t, src, s) && s.i < |src| && s.mode == Code
    requires src[s.i] != '\'' && src[s.i] != '"' && src[s.i] != '`'
    requires !At(src, s.i, "//") && !At(src, s.i, "/*")
    requires src[s.i] == '/' ==> !OpensRegex(PrevSignificant(t, Local(s)))
    ensures Good(t, src, Emit(s, [src[s.i]], Code))
  {
    var next := Emit(s, [src[s.i]], Code);
    forall k | 0 <= k < s.i ensures next.out[k] == s.out[k] {}
    forall k | 0 < k < |src| && k < next.i ensures Seam(t, src, next.out, k) {
      if k < s.i { assert Seam(t, src, s.out, k); }
    }
    if src[s.i] == '/' {
      SlashStays(t, src, s);
    }
    forall k | 0 <= k < next.i && next.out[k] == '/'
      ensures k < |src| && !At(src, k, "//") && !At(src, k, "/*") && Divides(t, next.out, k)
    {
      assert next.out[..k] == s.out[..k];
      assert s.out[..s.i] == s.out;
    }
  }

  lemma CodeStepKeeps(t: CharTables, src: string, s: State)
    requires Sane(t) && Good(t, src, s) && s.i < |src| && s.mode == Code
    ensures Good(t, src, StepCode(t, src, s))
  {
    hide Divides, Seamless, Tidy, PrevSignificant, OpensRegex;
    var c := src[s.i];
    if At(src, s.i, "//") || At(src, s.i, "/*") {
      assert c == src[s.i..s.i + 2][0] == '/';
      EmitKeeps(t, src, s, " ", if At(src, s.i, "//") then Line else Block);
    } else if c == '\'' || c == '"' {
      EmitKeeps(t, src, s, " ", Quoted(c));
    } else if c == '`' {
      EmitKeeps(t, src, s, " ", Template);
    } else if c == '/' && OpensRegex(PrevSignificant(t, Local(s))) {
      EmitKeeps(t, src, s, " ", Regex(false));
    } else {
      BraceStepKeeps(t, src, s);
    }
  }

  lemma BraceStepKeeps(t: CharTables, src: string, s: State)
    requires Sane(t) && Good(t, src, s) && s.i < |src| && s.mode == Code
    requires src[s.i] != '\'' && src[s.i] != '"' && src[s.i] != '`'
    requires !At(src, s.i, "//") && !At(src, s.i, "/*")
    requires src[s.i] == '/' ==> !OpensRegex(PrevSignificant(t, Local(s)))
    ensures Good(t, src, StepCode(t, src, s))
  {
    hide Divides, Seamless, Tidy, PrevSignificant, OpensRegex;
    KeepKeeps(t, src, s);
    var c := src[s.i];
    var kept := Emit(s, [c], Code);
    EmitAppends(s, [c], Code);
    if s.frames != [] {
      assert s.frames[|s.frames| - 1] in s.frames;
      forall f | f in Pop(s.frames) ensures f in s.frames {}
      if c == '{' || c == '}' {
        var depth := s.frames[|s.frames| - 1].depth;
        var changed := if c == '{' then depth + 1 else if depth > 0 then depth - 1 else 0;
        ReframeKeeps(t, src, kept, SetDepth(s.frames, changed));
      }
      if c == '}' {
        EmitKeeps(t, src, s, " ", Template);
        EmitAppends(s, " ", Template);
        ReframeKeeps(t, src, Emit(s, " ", Template), Pop(s.frames));
      }
    }
  }

  lemma StepKeeps(t: CharTables, src: string, s: State)
    requires Sane(t) && Good(t, src, s) && s.i < |src|
    ensures Good(t, src, Step(t, src, s)) && Step(t, src, s).i > s.i
  {
    hide Divides, Seamless, Tidy, PrevSignificant, OpensRegex;
    var c := src[s.i];
    match s.mode
    case Code => CodeStepKeeps(t, src, s);
    case Line => EmitKeeps(t, src, s, if c == '\n' then "\n" else " ", if c == '\n' then Code else Line);
    case Block =>
      if At(src, s.i, "*/") {
        assert src[s.i + 1] == src[s.i..s.i + 2][1] == '/';
        EmitKeeps(t, src, s, "  ", Code);
      } else {
        EmitKeeps(t, src, s, [Blank(c)], Block);
      }
    case Quoted(quote) => QuotedStepKeeps(t, src, s);
    case Template => TemplateStepKeeps(t, src, s);
    case Regex(inClass) => RegexStepKeeps(t, src, s);
  }

  lemma QuotedStepKeeps(t: CharTables, src: string, s: State)
    requires Sane(t) && Good(t, src, s) && s.i < |src| && s.mode.Quoted?
    ensures Good(t, src, Step(t, src, s))
  {
    hide Divides, Seamless, Tidy, PrevSignificant, OpensRegex;
    var c := src[s.i];
    if c == s.mode.quote {
      EmitKeeps(t, src, s, " ", Code);
    } else if c == '\n' {
      EmitKeeps(t, src, s, "\n", Code);
    } else if c == '\\' && s.i + 1 < |src| {
      EmitKeeps(t, src, s, "  ", s.mode);
    } else {
      EmitKeeps(t, src, s, " ", s.mode);
    }
  }

  lemma TemplateStepKeeps(t: CharTables, src: string, s: State)
    requires Sane(t) && Good(t, src, s) && s.i < |src| && s.mode == Template
    ensures Good(t, src, Step(t, src, s))
  {
    hide Divides, Seamless, Tidy, Framed, PrevSignificant, OpensRegex, StepCode;
    var c := src[s.i];
    if c == '`' {
      EmitKeeps(t, src, s, " ", Code);
    } else if c == '\\' && s.i + 1 < |src| {
      EmitKeeps(t, src, s, [' ', Blank(src[s.i + 1])], Template);
    } else if At(src, s.i, "${") {
      ExpressionOpens(t, src, s);
    } else {
      EmitKeeps(t, src, s, [Blank(c)], Template);
    }
  }

  lemma ExpressionOpens(t: CharTables, src: string, s: State)
    requires Sane(t) && Good(t, src, s) && s.i < |src| && s.mode == Template && At(src, s.i, "${")
    ensures Good(t, src, State(s.i + 2, s.out + "  ", Code, s.frames + [Frame(s.i + 2, 1)]))
  {
    hide Divides, Seamless, Tidy, PrevSignificant, OpensRegex;
    assert src[s.i + 1] == src[s.i..s.i + 2][1] == '{';
    EmitKeeps(t, src, s, "  ", Code);
    EmitAppends(s, "  ", Code);
    ReframeKeeps(t, src, Emit(s, "  ", Code), s.frames + [Frame(s.i + 2, 1)]);
  }

  lemma RegexStepKeeps(t: CharTables, src: string, s: State)
    requires Sane(t) && Good(t, src, s) && s.i < |src| && s.mode.Regex?
    ensures Good(t, src, Step(t, src, s))
  {
    hide Divides, Seamless, Tidy, PrevSignificant, OpensRegex;
    var c := src[s.i];
    if c == '\n' {
      EmitKeeps(t, src, s, "\n", Code);
    } else if c == '\\' {
      EmitKeeps(t, src, s, "  ", s.mode);
    } else if c == '/' && !s.mode.inClass {
      EmitKeeps(t, src, s, " ", Code);
    } else {
      EmitKeeps(t, src, s, " ", Regex(if c == '[' then true else if c == ']' then false else s.mode.inClass));
    }
  }

  lemma StartIsGood(t: CharTables, src: string)
    ensures Good(t, src, State(0, "", Code, [])) && Wide(src, State(0, "", Code, []))
  {
  }

  // ------------------------------------------------- gaps are wide

  /** Gaps alone since position m, where there is a space. */
  ghost predicate Tail(out: string, m: nat) {
    m < |out| && out[m] == ' ' && forall k :: m <= k < |out| ==> Gap(out[k])
  }

  /** Outside code the output ends in gaps, and only the blank that has just opened a literal may
      still stand alone. */
  ghost predicate Wide(src: string, s: State)
    requires |s.out| == s.i
  {
    && (s.mode != Code ==> exists m :: Tail(s.out, m))
    && forall k :: 0 <= k < s.i && (k >= |src| || s.out[k] != src[k]) ==>
         (s.mode != Code && k + 1 == s.i) || exists m :: WideAt(s.out, k, m)
  }

  lemma WideAtGrows(out: string, text: string, k: nat, m: nat)
    requires WideAt(out, k, m)
    ensures WideAt(out + text, k, m)
  {
  }

  lemma KeptStaysWide(src: string, s: State, next: State)
    requires |s.out| == s.i < |src| && Wide(src, s) && s.mode == Code
    requires next.i == s.i + 1 && next.out == s.out + [src[s.i]] && next.mode == Code
    ensures Wide(src, next)
  {
    forall k | 0 <= k < next.i && (k >= |src| || next.out[k] != src[k])
      ensures exists m :: WideAt(next.out, k, m)
    {
      assert k < s.i && next.out[k] == s.out[k];
      var m :| WideAt(s.out, k, m);
      WideAtGrows(s.out, [src[s.i]], k, m);
    }
  }

  lemma OpeningStaysWide(src: string, s: State, next: State)
    requires |s.out| == s.i < |src| && Wide(src, s) && s.mode == Code
    requires next.i == s.i + 1 && next.out == s.out + " " && next.mode != Code
    ensures Wide(src, next)
  {
    assert Tail(next.out, s.i);
    forall k | 0 <= k < next.i && (k >= |src| || next.out[k] != src[k])
      ensures k + 1 == next.i || exists m :: WideAt(next.out, k, m)
    {
      if k < s.i {
        assert next.out[k] == s.out[k];
        var m :| WideAt(s.out, k, m);
        WideAtGrows(s.out, " ", k, m);
      }
    }
  }

  lemma GapsStayWide(src: string, s: State, text: string, next: State)
    requires |s.out| == s.i < |src| && Wide(src, s) && s.mode != Code
    requires text != "" && forall j :: 0 <= j < |text| ==> Gap(text[j])
    requires next.i == s.i + |text| && next.out == s.out + text
    ensures Wide(src, next)
  {
    var m :| Tail(s.out, m);
    assert Tail(next.out, m);
    forall k | 0 <= k < next.i && (k >= |src| || next.out[k] != src[k])
      ensures exists m :: WideAt(next.out, k, m)
    {
      if k + 1 < s.i {
        assert next.out[k] == s.out[k];
        var m :| WideAt(s.out, k, m);
        WideAtGrows(s.out, text, k, m);
      } else {
        assert WideAt(next.out, k, m);
      }
    }
  }

  lemma StepStaysWide(t: CharTables, src: string, s: State)
    requires |s.out| == s.i < |src| && Wide(src, s)
    ensures |Step(t, src, s).out| == Step(t, src, s).i && Wide(src, Step(t, src, s))
  {
    hide Wide, OpensRegex, PrevSignificant, At;
    var next := Step(t, src, s);
    if s.mode == Code {
      if next.mode == Code {
        KeptStaysWide(src, s, next);
      } else {
        OpeningStaysWide(src, s, next);
      }
    } else {
      var text := next.out[s.i..];
      assert next.out == s.out + text;
      GapsStayWide(src, s, text, next);
    }
  }

  /** The last state before the end of the text, and the result it leads to. */
  lemma {:induction false} RunEnds(t: CharTables, src: string, s: State) returns (last: State)
    requires Sane(t) && Good(t, src, s) && Wide(src, s)
    ensures Good(t, src, last) && Wide(src, last) && last.i >= |src|
    ensures Run(t, src, s) == if last.mode == Block then last.out + "  " else last.out
    decreases |src| - s.i
  {
    if s.i >= |src| {
      last := s;
    } else {
      StepKeeps(t, src, s);
      StepStaysWide(t, src, s);
      last := RunEnds(t, src, Step(t, src, s));
    }
  }

  // ------------------------------------------------- main results

  lemma EndStaysWide(src: string, last: State, code: string)
    requires |last.out| == last.i >= |src| && Wide(src, last)
    requires code == if last.mode == Block then last.out + "  " else last.out
    ensures GapsAreWide(src, code)
  {
    forall k | 0 <= k < |code| && (k >= |src| || code[k] != src[k])
      ensures k + 1 == |code| || exists m :: WideAt(code, k, m)
    {
      if last.mode == Block && k + 1 >= last.i {
        var m :| Tail(last.out, m);
        assert WideAt(code, k, m);
      } else if k + 1 < |code| {
        assert last.out[k] == code[k];
        var m :| WideAt(last.out, k, m);
        WideAtGrows(last.out, code[last.i..], k, m);
        assert last.out + code[last.i..] == code;
      }
    }
  }

  /** Stripping only blanks: positions never move, a literal left open at the end may add at most two
      spaces there, no word is cut in two and no blank stands alone. */
  lemma StripOnlyBlanks(t: CharTables, src: string)
    requires Sane(t)
    ensures var code := Strip(t, src);
            && Blanked(src, code) && |code| <= |src| + 2
            && CutAtBoundaries(t, src, code) && GapsAreWide(src, code)
  {
    hide Wide;
    StartIsGood(t, src);
    var last := RunEnds(t, src, State(0, "", Code, []));
    var code := Strip(t, src);
    forall k | 0 <= k < last.i ensures code[k] == last.out[k] {}
    forall k | last.i <= k < |code| ensures code[k] == ' ' {}
    forall k | 0 < k < |src| && k < |code| ensures Seam(t, src, code, k) {
      assert Seam(t, src, last.out, k);
    }
    EndStaysWide(src, last, code);
  }

  /** Stripping never invents a mention. */
  lemma StripInventsNoMention(t: CharTables, src: string, sym: string)
    requires Sane(t) && Tight(sym)
    ensures Mentions(t, Strip(t, src), sym) ==> Mentions(t, src, sym)
  {
    if Mentions(t, Strip(t, src), sym) {
      StripOnlyBlanks(t, src);
      var p :| HitAt(t, Strip(t, src), sym, p);
      HitCarriesOver(t, src, Strip(t, src), sym, p);
    }
  }

  lemma NoOpenerSurvives(t: CharTables, src: string, last: State, code: string, k: nat)
    requires Sound(t, src, last) && Tidy(t, src, last) && k < |code|
    requires last.out <= code && forall j :: last.i <= j < |code| ==> code[j] == ' '
    ensures !At(code, k, "//") && !At(code, k, "/*") && Divides(t, code, k)
  {
    assert code[..last.i] == last.out;
    if code[k] == '/' {
      assert k < last.i && last.out[k] == '/' && code[..k] == last.out[..k];
      if k + 1 < |code| && code[k + 1] != ' ' {
        assert src[k..k + 2] == [src[k], src[k + 1]] == code[k..k + 2];
      }
    }
    if k + 2 <= |code| {
      assert code[k..k + 2] == [code[k], code[k + 1]];
    }
  }

  /** The output holds no quote, backtick, comment opener or slash that could open a regular
      expression, looking back over the whole output. */
  lemma StripIsClean(t: CharTables, src: string)
    requires Sane(t)
    ensures Clean(t, Strip(t, src))
  {
    hide Divides, Seamless, At, PrevSignificant, OpensRegex;
    StartIsGood(t, src);
    var last := RunEnds(t, src, State(0, "", Code, []));
    var code := Strip(t, src);
    forall k | 0 <= k < last.i ensures code[k] == last.out[k] {}
    forall k | 0 <= k < |code| ensures !At(code, k, "//") && !At(code, k, "/*") && Divides(t, code, k) {
      NoOpenerSurvives(t, src, last, code, k);
    }
  }

  /** In clean text a character of code is kept. */
  lemma CleanStep(t: CharTables, src: string, text: string, i: nat)
    requires |src| == |text| && Clean(t, text) && i < |src| && src[i] == text[i]
    requires i + 1 < |src| ==> src[i + 1] == text[i + 1] || (src[i + 1] != '/' && src[i + 1] != '*')
    ensures Step(t, src, State(i, text[..i], Code, [])) == State(i + 1, text[..i + 1], Code, [])
  {
    hide OpensRegex, PrevSignificant, At, Step, Clean;
    var s := State(i, text[..i], Code, []);
    CleanAt(t, text, i);
    TwoAt(src, i, "//");
    TwoAt(src, i, "/*");
    TwoAt(text, i, "//");
    TwoAt(text, i, "/*");
    assert Local(s) == text[..i];
    CodeKept(t, src, s);
    assert text[..i] + [src[i]] == text[..i + 1];
  }

  lemma CleanAt(t: CharTables, text: string, i: nat)
    requires Clean(t, text) && i < |text|
    ensures text[i] != '\'' && text[i] != '"' && text[i] != '`'
    ensures !At(text, i, "//") && !At(text, i, "/*")
    ensures text[i] == '/' ==> !OpensRegex(PrevSignificant(t, text[..i]))
  {
    hide OpensRegex, PrevSignificant, At;
    assert Divides(t, text, i);
  }

  lemma CodeKept(t: CharTables, src: string, s: State)
    requires s.i < |src| && s.mode == Code && s.frames == []
    requires src[s.i] != '\'' && src[s.i] != '"' && src[s.i] != '`'
    requires !At(src, s.i, "//") && !At(src, s.i, "/*")
    requires src[s.i] == '/' ==> !OpensRegex(PrevSignificant(t, Local(s)))
    ensures Step(t, src, s) == State(s.i + 1, s.out + [src[s.i]], Code, [])
  {
    hide OpensRegex, PrevSignificant, At, Local;
  }

  /** A stretch of clean text is kept as it stands. */
  lemma {:induction false} CleanTextStays(t: CharTables, src: string, text: string, i: nat, n: nat)
    requires |src| == |text| && Clean(t, text) && i + n <= |src|
    requires forall k :: i <= k < i + n ==> src[k] == text[k]
    requires i + n < |src| ==> src[i + n] != '/' && src[i + n] != '*'
    ensures Run(t, src, State(i, text[..i], Code, [])) == Run(t, src, State(i + n, text[..i + n], Code, []))
    decreases n
  {
    hide Step, Clean, Run;
    if n > 0 {
      CleanStep(t, src, text, i);
      RunStep(t, src, State(i, text[..i], Code, []));
      CleanTextStays(t, src, text, i + 1, n - 1);
    }
  }

  lemma RunStep(t: CharTables, src: string, s: State)
    ensures Run(t, src, s) ==
            if s.i >= |src| then (if s.mode == Block then s.out + "  " else s.out) else Run(t, src, Step(t, src, s))
  {
    hide Step;
  }

  lemma CleanTextIsKept(t: CharTables, src: string)
    requires Clean(t, src)
    ensures Strip(t, src) == src
  {
    hide Clean, Run;
    CleanTextStays(t, src, src, 0, |src|);
    assert src[..0] == "" && src[..|src|] == src;
    RunStep(t, src, State(|src|, src, Code, []));
  }

  /** Clean text is exactly the text that stripping leaves alone. */
  lemma CleanIsUnchanged(t: CharTables, src: string)
    requires Sane(t)
    ensures Clean(t, src) <==> Strip(t, src) == src
  {
    hide Clean, Strip;
    if Clean(t, src) {
      CleanTextIsKept(t, src);
    } else {
      StripIsClean(t, src);
    }
  }

  lemma StripIsIdempotent(t: CharTables, src: string)
    requires Sane(t)
    ensures Strip(t, Strip(t, src)) == Strip(t, src)
  {
    StripIsClean(t, src);
    CleanIsUnchanged(t, Strip(t, src));
  }

  // ------------------------------------------------- when positions are preserved

  /** A string or regular expression escapes a line break here, and so blanks it. */
  predicate EscapesBreak(src: string, s: State) {
    (s.mode.Quoted? || s.mode.Regex?) && At(src, s.i, "\\\n")
  }

  /** A regular expression escapes the end of the text. */
  predicate EscapesEnd(src: string, s: State) {
    s.mode.Regex? && s.i + 1 == |src| && src[s.i] == '\\'
  }

  /** The run comes to a state of this kind before the end of the text. */
  predicate ComesTo(t: CharTables, src: string, s: State, kind: (string, State) -> bool)
    decreases |src| - s.i
  {
    s.i < |src| && (kind(src, s) || ComesTo(t, src, Step(t, src, s), kind))
  }

  /** The run ends inside a block comment. */
  predicate LeavesCommentOpen(t: CharTables, src: string, s: State)
    decreases |src| - s.i
  {
    if s.i >= |src| then s.mode == Block else LeavesCommentOpen(t, src, Step(t, src, s))
  }

  lemma {:induction false} RunExtends(t: CharTables, src: string, s: State)
    ensures s.out <= Run(t, src, s)
    decreases |src| - s.i
  {
    hide Step;
    if s.i < |src| {
      StepExtends(t, src, s);
      RunExtends(t, src, Step(t, src, s));
    }
  }

  lemma StepExtends(t: CharTables, src: string, s: State)
    requires s.i < |src|
    ensures s.out <= Step(t, src, s).out && s.i < Step(t, src, s).i
  {
    hide OpensRegex, PrevSignificant, Local, At;
  }

  ghost predicate BreaksStay(src: string, code: string, from: nat) {
    forall k :: from <= k < |src| && k < |code| ==> (code[k] == '\n' <==> src[k] == '\n')
  }

  lemma EmittedBreaks(src: string, s: State, text: string, next: State)
    requires |s.out| == s.i < |src| && 1 <= |text| <= 2
    requires next.i == s.i + |text| && next.out == s.out + text
    ensures BreaksStay(src, next.out, s.i) <==>
            && (text[0] == '\n' <==> src[s.i] == '\n')
            && (|text| == 2 && s.i + 1 < |src| ==> (text[1] == '\n' <==> src[s.i + 1] == '\n'))
  {
    assert next.out[s.i] == text[0];
    if |text| == 2 {
      assert next.out[s.i + 1] == text[1];
    }
  }

  /** Neither a line break nor a backslash is a quote. */
  predicate Opened(mode: Mode) {
    mode.Quoted? ==> mode.quote != '\n' && mode.quote != '\\'
  }

  lemma CodeBreaks(t: CharTables, src: string, s: State)
    requires |s.out| == s.i < |src| && s.mode == Code
    ensures var next := StepCode(t, src, s);
            && |next.out| == next.i == s.i + 1 && s.out <= next.out && Opened(next.mode)
            && BreaksStay(src, next.out, s.i)
  {
    hide OpensRegex, PrevSignificant, Local, BreaksStay, At;
    TwoAt(src, s.i, "//");
    TwoAt(src, s.i, "/*");
    var next := StepCode(t, src, s);
    var text := next.out[s.i..];
    assert next.out == s.out + text;
    EmittedBreaks(src, s, text, next);
  }

  lemma StepBreaks(t: CharTables, src: string, s: State)
    requires |s.out| == s.i < |src| && Opened(s.mode)
    ensures var next := Step(t, src, s);
            && |next.out| == next.i > s.i && s.out <= next.out && Opened(next.mode)
            && (BreaksStay(src, next.out, s.i) <==> !EscapesBreak(src, s))
            && (next.i > |src| <==> EscapesEnd(src, s))
  {
    hide BreaksStay, At, StepCode;
    if s.mode == Code {
      CodeBreaks(t, src, s);
    } else {
      TwoAt(src, s.i, "*/");
      TwoAt(src, s.i, "${");
      TwoAt(src, s.i, "\\\n");
      var next := Step(t, src, s);
      var text := next.out[s.i..];
      assert next.out == s.out + text;
      EmittedBreaks(src, s, text, next);
    }
  }
  lemma {:induction false} RunBreaks(t: CharTables, src: string, s: State)
    requires |s.out| == s.i && Opened(s.mode)
    ensures BreaksStay(src, Run(t, src, s), s.i) <==> !ComesTo(t, src, s, EscapesBreak)
    decreases |src| - s.i
  {
    hide Step, EscapesBreak;
    if s.i < |src| {
      var next := Step(t, src, s);
      StepBreaks(t, src, s);
      RunExtends(t, src, next);
      RunBreaks(t, src, next);
      var code := Run(t, src, s);
      assert forall k :: 0 <= k < |next.out| ==> code[k] == next.out[k];
      assert BreaksStay(src, code, s.i) <==> BreaksStay(src, next.out, s.i) && BreaksStay(src, code, next.i);
    }
  }

  lemma {:induction false} RunLength(t: CharTables, src: string, s: State)
    requires |s.out| == s.i <= |src| && Opened(s.mode)
    ensures |Run(t, src, s)| == |src| <==>
            !ComesTo(t, src, s, EscapesEnd) && !LeavesCommentOpen(t, src, s)
    decreases |src| - s.i
  {
    if s.i < |src| {
      var next := Step(t, src, s);
      StepBreaks(t, src, s);
      if next.i <= |src| {
        RunLength(t, src, next);
      } else {
        RunExtends(t, src, next);
      }
    }
  }

  /** Length is preserved exactly when no block comment is left open and no regular expression ends
      the text with a backslash; line breaks stay exactly when no string or regular expression
      escapes one. */
  lemma WhenPositionsArePreserved(t: CharTables, src: string)
    ensures var start, code := State(0, "", Code, []), Strip(t, src);
            && (|code| == |src| <==> !LeavesCommentOpen(t, src, start) && !ComesTo(t, src, start, EscapesEnd))
            && (BreaksStay(src, code, 0) <==> !ComesTo(t, src, start, EscapesBreak))
  {
    RunLength(t, src, State(0, "", Code, []));
    RunBreaks(t, src, State(0, "", Code, []));
  }

  // ------------------------------------------------- the recursive stripper

  method LastToken(t: CharTables, out: string) returns (prev: string)
    ensures prev == PrevSignificant(t, out)
  {
    var i: nat := |out|;
    assert out[..i] == out;
    while i > 0 && t.space(out[i - 1])
      invariant i <= |out| && PrevSignificant(t, out) == PrevSignificant(t, out[..i])
    {
      assert out[..i][..i - 1] == out[..i - 1];
      i := i - 1;
    }
    if i == 0 {
      return "";
    }
    if !IsWord(t, out[i - 1]) {
      return [out[i - 1]];
    }
    var j: nat := i;
    assert out[i..i] == "";
    while j > 0 && IsWord(t, out[j - 1])
      invariant j <= i && TrailingWord(t, out[..i]) == TrailingWord(t, out[..j]) + out[j..i]
    {
      assert out[..j][..j - 1] == out[..j - 1];
      assert out[j - 1..i] == [out[j - 1]] + out[j..i];
      j := j - 1;
    }
    prev := out[j..i];
  }

  /** Emitting `piece` from one state of the reference lexer amounts to being in the other. */
  ghost predicate Follows(t: CharTables, src: string, from: State, to: State, piece: string) {
    to.i == from.i + |piece| && to.out == from.out + piece && Run(t, src, from) == Run(t, src, to)
  }

  lemma FollowsSelf(t: CharTables, src: string, s: State)
    ensures Follows(t, src, s, s, "")
  {
  }

  lemma FollowsStep(t: CharTables, src: string, from: State, s: State, piece: string, text: string)
    requires Follows(t, src, from, s, piece) && s.i < |src|
    requires Step(t, src, s).i == s.i + |text| && Step(t, src, s).out == s.out + text
    ensures Follows(t, src, from, Step(t, src, s), piece + text)
  {
    hide Run, Step;
    RunStep(t, src, s);
    Associate(from.out, piece, text);
  }

  lemma FollowsFollows(t: CharTables, src: string, a: State, b: State, c: State, piece: string, more: string)
    requires Follows(t, src, a, b, piece) && Follows(t, src, b, c, more)
    ensures Follows(t, src, a, c, piece + more)
  {
    hide Run;
    Associate(a.out, piece, more);
  }

  lemma Associate(a: string, b: string, c: string)
    ensures a + b + c == a + (b + c)
  {
  }

  /** At a line break, or at the end, a comment, string or regular expression is over. */
  lemma BackToCode(t: CharTables, src: string, from: State, s: State, piece: string)
    requires Follows(t, src, from, s, piece)
    requires s.mode == Line || s.mode.Regex? || (s.mode.Quoted? && s.mode.quote != '\n') || s.mode == Template
    requires s.i >= |src| || (src[s.i] == '\n' && s.mode != Template)
    ensures Follows(t, src, from, s.(mode := Code), piece)
  {
    if s.i < |src| {
      assert Step(t, src, s) == Step(t, src, s.(mode := Code));
    }
  }

  method SkipLine(t: CharTables, src: string, ghost from: State, start: nat) returns (out: string, i: nat, ghost s: State)
    requires from.i == start <= |src| && from.mode == Line
    ensures Follows(t, src, from, s, out) && s.i == i && s.mode == Code && s.frames == from.frames
    ensures start < |src| && src[start] != '\n' ==> i > start
  {
    out, i, s := "", start, from;
    FollowsSelf(t, src, from);
    while i < |src| && src[i] != '\n'
      invariant i == s.i <= |src| && s.mode == Line && s.frames == from.frames && Follows(t, src, from, s, out)
    {
      FollowsStep(t, src, from, s, out, " ");
      s := Step(t, src, s);
      out, i := out + " ", i + 1;
    }
    BackToCode(t, src, from, s, out);
    s := s.(mode := Code);
  }

  method SkipBlock(t: CharTables, src: string, ghost from: State, start: nat) returns (out: string, i: nat, ghost s: State)
    requires from.i == start <= |src| && from.mode == Block
    ensures Follows(t, src, from, s, out) && s.i == i && s.mode == Code && s.frames == from.frames
    ensures i > start
  {
    out, i, s := "", start, from;
    FollowsSelf(t, src, from);
    while i < |src| && !At(src, i, "*/")
      invariant i == s.i <= |src| && s.mode == Block && s.frames == from.frames && Follows(t, src, from, s, out)
    {
      FollowsStep(t, src, from, s, out, [Blank(src[i])]);
      s := Step(t, src, s);
      out, i := out + [Blank(src[i])], i + 1;
    }
    if i < |src| {
      FollowsStep(t, src, from, s, out, "  ");
      s := Step(t, src, s);
    } else {
      assert from.out + out + "  " == from.out + (out + "  ");
      s := Emit(s, "  ", Code);
    }
    out, i := out + "  ", i + 2;
  }

  method SkipQuoted(t: CharTables, src: string, quote: char, ghost from: State, start: nat)
    returns (out: string, i: nat, ghost s: State)
    requires from.i == start <= |src| && from.mode == Quoted(quote) && quote != '\n'
    ensures Follows(t, src, from, s, out) && s.i == i && s.mode == Code && s.frames == from.frames
  {
    out, i, s := "", start, from;
    FollowsSelf(t, src, from);
    while i < |src| && src[i] != quote && src[i] != '\n'
      invariant i == s.i <= |src| && s.mode == Quoted(quote) && s.frames == from.frames
      invariant Follows(t, src, from, s, out)
    {
      ghost var was := out;
      if src[i] == '\\' {
        out, i := out + " ", i + 1;
      }
      if i < |src| {
        out, i := out + " ", i + 1;
      }
      ghost var text := if i == s.i + 2 then "  " else " ";
      assert out == was + text;
      FollowsStep(t, src, from, s, was, text);
      s := Step(t, src, s);
    }
    if i < |src| && src[i] == quote {
      FollowsStep(t, src, from, s, out, " ");
      s := Step(t, src, s);
      out, i := out + " ", i + 1;
    } else {
      BackToCode(t, src, from, s, out);
      s := s.(mode := Code);
    }
  }

  method SkipRegex(t: CharTables, src: string, ghost from: State, start: nat) returns (out: string, i: nat, ghost s: State)
    requires from.i == start <= |src| && from.mode == Regex(false)
    ensures Follows(t, src, from, s, out) && s.i == i && s.mode == Code && s.frames == from.frames
  {
    out, i, s := "", start, from;
    FollowsSelf(t, src, from);
    var inClass := false;
    while i < |src| && src[i] != '\n'
      invariant i == s.i && s.mode == Regex(inClass) && s.frames == from.frames && Follows(t, src, from, s, out)
      decreases |src| - i
    {
      var c := src[i];
      if c == '\\' {
        FollowsStep(t, src, from, s, out, "  ");
        s := Step(t, src, s);
        out, i := out + "  ", i + 2;
        continue;
      }
      FollowsStep(t, src, from, s, out, " ");
      s := Step(t, src, s);
      if c == '[' {
        inClass := true;
      } else if c == ']' {
        inClass := false;
      } else if c == '/' && !inClass {
        out, i := out + " ", i + 1;
        return;
      }
      out, i := out + " ", i + 1;
    }
    BackToCode(t, src, from, s, out);
    s := s.(mode := Code);
  }

  /** The rest of a template literal, the expressions in it stripped as code. */
  method SkipTemplate(t: CharTables, src: string, ghost from: State, start: nat)
    returns (out: string, i: nat, ghost s: State)
    requires |from.out| == from.i == start <= |src| && from.mode == Template
    ensures Follows(t, src, from, s, out) && s.i == i && s.mode == Code && s.frames == from.frames
    decreases |src| - start, 1
  {
    out, i, s := "", start, from;
    FollowsSelf(t, src, from);
    while i < |src| && src[i] != '`'
      invariant i == s.i >= start && s.mode == Template && s.frames == from.frames && Follows(t, src, from, s, out)
      decreases |src| - i
    {
      if src[i] == '\\' {
        ghost var was := out;
        out, i := out + " ", i + 1;
        if i < |src| {
          out, i := out + [Blank(src[i])], i + 1;
        }
        ghost var text := if i == s.i + 2 then [' ', Blank(src[s.i + 1])] else " ";
        assert out == was + text;
        FollowsStep(t, src, from, s, was, text);
        s := Step(t, src, s);
        continue;
      }
      if At(src, i, "${") {
        FollowsStep(t, src, from, s, out, "  ");
        ghost var inner := Step(t, src, s);
        var expression, next;
        ghost var after;
        expression, next, after := StripCode(t, src, true, inner, i + 2);
        FollowsFollows(t, src, from, inner, after, out + "  ", expression);
        assert Pop(inner.frames) == s.frames;
        out, i, s := out + "  " + expression, next, after;
        continue;
      }
      FollowsStep(t, src, from, s, out, [Blank(src[i])]);
      s := Step(t, src, s);
      out, i := out + [Blank(src[i])], i + 1;
    }
    if i < |src| {
      FollowsStep(t, src, from, s, out, " ");
      s := Step(t, src, s);
      out, i := out + " ", i + 1;
    } else {
      BackToCode(t, src, from, s, out);
      s := s.(mode := Code);
    }
  }

  /** Skip the literal or comment that starts at `start`, if one does. */
  method SkipLiteral(t: CharTables, src: string, out: string, ghost from: State, start: nat)
    returns (blank: string, i: nat, ghost s: State)
    requires |from.out| == from.i == start < |src| && from.mode == Code && Local(from) == out
    ensures Follows(t, src, from, s, blank) && s.i == i && s.mode == Code && s.frames == from.frames
    ensures i == start ==> s == from && src[start] != '\'' && src[start] != '"' && src[start] != '`'
    ensures i == start ==> !At(src, start, "//") && !At(src, start, "/*")
    ensures i == start && src[start] == '/' ==> !OpensRegex(PrevSignificant(t, out))
    decreases |src| - start, 2
  {
    var c := src[start];
    FollowsSelf(t, src, from);
    if At(src, start, "//") || At(src, start, "/*") {
      assert c == src[start..start + 2][0] && src[start + 1] == src[start..start + 2][1];
      ghost var entered := from.(mode := if At(src, start, "//") then Line else Block);
      assert src[start..start + 2] == [c, src[start + 1]];
      assert Step(t, src, from) == Step(t, src, entered);
      if At(src, start, "//") {
        blank, i, s := SkipLine(t, src, entered, start);
      } else {
        blank, i, s := SkipBlock(t, src, entered, start);
      }
      return;
    }
    FollowsStepTo(t, src, from, c, out);
    ghost var entered := Step(t, src, from);
    var rest;
    if c == '\'' || c == '"' {
      rest, i, s := SkipQuoted(t, src, c, entered, start + 1);
    } else if c == '`' {
      rest, i, s := SkipTemplate(t, src, entered, start + 1);
    } else {
      if c == '/' {
        var prev := LastToken(t, out);
        if OpensRegex(prev) {
          rest, i, s := SkipRegex(t, src, entered, start + 1);
          FollowsFollows(t, src, from, entered, s, " ", rest);
          blank := " " + rest;
          return;
        }
      }
      return "", start, from;
    }
    FollowsFollows(t, src, from, entered, s, " ", rest);
    blank := " " + rest;
  }

  lemma FollowsStepTo(t: CharTables, src: string, from: State, c: char, out: string)
    requires from.i < |src| && from.mode == Code && c == src[from.i] && Local(from) == out
    requires !At(src, from.i, "//") && !At(src, from.i, "/*")
    ensures var next := Step(t, src, from);
            (c == '\'' || c == '"' || c == '`' || (c == '/' && OpensRegex(PrevSignificant(t, out)))) ==>
              Follows(t, src, from, next, " ") && next.frames == from.frames &&
              next.mode == if c == '`' then Template else if c == '/' then Regex(false) else Quoted(c)
  {
  }

  /** Scan code until the end, or until the brace that closes a template expression. */
  method StripCode(t: CharTables, src: string, interpolation: bool, ghost from: State, start: nat)
    returns (out: string, i: nat, ghost s: State)
    requires |from.out| == from.i == start <= |src| && from.mode == Code
    requires if interpolation then from.frames != [] && from.frames[|from.frames| - 1] == Frame(start, 1)
             else from.frames == [] && start == 0
    ensures Follows(t, src, from, s, out) && s.i == i >= start
    ensures s.mode == Template && s.frames == Pop(from.frames)
    ensures !interpolation ==> i >= |src|
    decreases |src| - start, 3
  {
    hide Run, Step, PrevSignificant, OpensRegex, At, Local, Follows;
    out, i, s := "", start, from;
    FollowsSelf(t, src, from);
    var depth := 1;
    while i < |src|
      invariant Follows(t, src, from, s, out)
      invariant i == s.i >= start && s.mode == Code && depth >= 1
      invariant s.frames == if interpolation then Pop(from.frames) + [Frame(start, depth)] else []
      decreases |src| - i
    {
      LocalIsPiece(t, src, from, s, out);
      var blank, next;
      ghost var after;
      blank, next, after := SkipLiteral(t, src, out, s, i);
      if next > i {
        FollowsFollows(t, src, from, s, after, out, blank);
        out, i, s := out + blank, next, after;
        continue;
      }
      var c := src[i];
      CodeStep(t, src, s, out);
      if interpolation && c == '{' {
        depth := depth + 1;
      } else if interpolation && c == '}' {
        depth := depth - 1;
        if depth == 0 {
          FollowsStep(t, src, from, s, out, " ");
          s := Step(t, src, s);
          return out + " ", i + 1, s;
        }
      }
      FollowsStep(t, src, from, s, out, [c]);
      s := Step(t, src, s);
      out, i := out + [c], i + 1;
    }
    AtTheEnd(t, src, from, s, out, Pop(from.frames));
    s := State(i, s.out, Template, Pop(from.frames));
  }

  lemma AtTheEnd(t: CharTables, src: string, from: State, s: State, out: string, frames: seq<Frame>)
    requires Follows(t, src, from, s, out) && s.i >= |src| && s.mode == Code
    ensures Follows(t, src, from, State(s.i, s.out, Template, frames), out)
  {
  }

  lemma LocalIsPiece(t: CharTables, src: string, from: State, s: State, out: string)
    requires Follows(t, src, from, s, out) && |from.out| == from.i && Base(s.frames) == from.i
    ensures Local(s) == out && |s.out| == s.i
  {
  }

  /** One character of code that starts no literal. */
  lemma CodeStep(t: CharTables, src: string, s: State, out: string)
    requires s.i < |src| && s.mode == Code && Local(s) == out
    requires src[s.i] != '\'' && src[s.i] != '"' && src[s.i] != '`'
    requires !At(src, s.i, "//") && !At(src, s.i, "/*")
    requires src[s.i] == '/' ==> !OpensRegex(PrevSignificant(t, out))
    ensures var next, c := Step(t, src, s), src[s.i];
            next ==
              if s.frames != [] && c == '}' && s.frames[|s.frames| - 1].depth <= 1 then
                State(s.i + 1, s.out + " ", Template, Pop(s.frames))
              else
                State(s.i + 1, s.out + [c], Code,
                      if s.frames == [] || (c != '{' && c != '}') then s.frames
                      else Pop(s.frames) + [Frame(Base(s.frames), s.frames[|s.frames| - 1].depth + if c == '{' then 1 else -1)])
  {
  }

  method StripJs(t: CharTables, src: string) returns (code: string)
    ensures code == Strip(t, src)
  {
    var i;
    ghost var s;
    code, i, s := StripCode(t, src, false, State(0, "", Code, []), 0);
    assert "" + code == code;
  }
}
