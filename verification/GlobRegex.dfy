/** Translating exclude globs to regular expressions: a cursor loop that writes the text and recurses
    into the branches of `{a,b}` groups, the expression it means to write, and a direct matcher to
    measure that against. */
module GlobRegex {
  import opened Lexis
  import opened Prelude
  import opened RegexSyntax

  // ---------------------------------------------------------------- braces

  /** The index of the brace that closes the one at `open`, scanning from j with `depth` braces open. */
  function CloseFrom(p: string, j: nat, depth: int): (r: Option<nat>)
    ensures r.Some? ==> j <= r.value < |p| && p[r.value] == '}'
    decreases |p| - j
  {
    if j >= |p| then None
    else if p[j] == '{' then CloseFrom(p, j + 1, depth + 1)
    else if p[j] == '}' then (if depth == 1 then Some(j) else CloseFrom(p, j + 1, depth - 1))
    else CloseFrom(p, j + 1, depth)
  }

  function MatchingBrace(p: string, open: nat): (r: Option<nat>)
    requires open < |p| && p[open] == '{'
    ensures r.Some? ==> open < r.value < |p| && p[r.value] == '}'
  {
    CloseFrom(p, open, 0)
  }

  /** How many more braces open than close in the text. */
  function Depth(text: string): int {
    if text == "" then 0
    else
      Depth(text[..|text| - 1]) +
      (if text[|text| - 1] == '{' then 1 else if text[|text| - 1] == '}' then -1 else 0)
  }

  lemma DepthStep(text: string, c: char)
    ensures Depth(text + [c]) == Depth(text) + if c == '{' then 1 else if c == '}' then -1 else 0
  {
    assert (text + [c])[..|text|] == text;
  }

  lemma {:induction false} CloseFromCounts(p: string, open: nat, j: nat, depth: int)
    requires open < j <= |p| && p[open] == '{' && depth == Depth(p[open..j])
    requires forall m :: open < m <= j ==> Depth(p[open..m]) > 0
    ensures match CloseFrom(p, j, depth)
            case Some(r) =>
              Depth(p[open..r + 1]) == 0 && forall m :: open < m <= r ==> Depth(p[open..m]) > 0
            case None => forall m :: open < m <= |p| ==> Depth(p[open..m]) > 0
    decreases |p| - j
  {
    hide Depth;
    if j < |p| {
      DepthStep(p[open..j], p[j]);
      assert p[open..j] + [p[j]] == p[open..j + 1];
      if !(p[j] == '}' && depth == 1) {
        CloseFromCounts(p, open, j + 1, Depth(p[open..j + 1]));
      }
    }
  }

  /** The closing brace is the first place where as many braces have closed as opened; there is none
      exactly when that never happens. */
  lemma MatchingBraceBalances(p: string, open: nat)
    requires open < |p| && p[open] == '{'
    ensures match MatchingBrace(p, open)
            case Some(r) =>
              Depth(p[open..r + 1]) == 0 && forall m :: open < m <= r ==> Depth(p[open..m]) > 0
            case None => forall m :: open < m <= |p| ==> Depth(p[open..m]) > 0
  {
    assert p[open..open + 1] == "" + ['{'];
    DepthStep("", '{');
    CloseFromCounts(p, open, open + 1, 1);
  }

  method FindMatchingBrace(p: string, open: nat) returns (r: Option<nat>)
    requires open < |p| && p[open] == '{'
    ensures r == MatchingBrace(p, open)
    ensures r.Some? ==>
              Depth(p[open..r.value + 1]) == 0 && forall m :: open < m <= r.value ==> Depth(p[open..m]) > 0
    ensures r.None? ==> forall m :: open < m <= |p| ==> Depth(p[open..m]) > 0
  {
    hide Depth;
    MatchingBraceBalances(p, open);
    var depth := 0;
    for j := open to |p|
      invariant CloseFrom(p, j, depth) == MatchingBrace(p, open)
    {
      if p[j] == '{' {
        depth := depth + 1;
      } else if p[j] == '}' {
        depth := depth - 1;
        if depth == 0 {
          return Some(j);
        }
      }
    }
    r := None;
  }

  /** The branches of a group body: split at the commas outside inner braces.  `start` is where the
      current branch began. */
  function SplitFrom(body: string, start: nat, j: nat, depth: int): (branches: seq<string>)
    requires start <= j <= |body|
    ensures branches != []
    ensures forall k :: 0 <= k < |branches| ==> |branches[k]| <= |body|
    decreases |body| - j
  {
    if j == |body| then [body[start..]]
    else if body[j] == '{' then SplitFrom(body, start, j + 1, depth + 1)
    else if body[j] == '}' then SplitFrom(body, start, j + 1, depth - 1)
    else if body[j] == ',' && depth == 0 then [body[start..j]] + SplitFrom(body, j + 1, j + 1, depth)
    else SplitFrom(body, start, j + 1, depth)
  }

  function Split(body: string): (branches: seq<string>)
    ensures branches != [] && forall k :: 0 <= k < |branches| ==> |branches[k]| <= |body|
  {
    SplitFrom(body, 0, 0, 0)
  }

  function Join(branches: seq<string>): string
    requires branches != []
  {
    if |branches| == 1 then branches[0] else branches[0] + "," + Join(branches[1..])
  }

  lemma {:induction false} JoinSplitFrom(body: string, start: nat, j: nat, depth: int)
    requires start <= j <= |body|
    ensures Join(SplitFrom(body, start, j, depth)) == body[start..]
    decreases |body| - j
  {
    if j < |body| {
      if body[j] == '{' {
        JoinSplitFrom(body, start, j + 1, depth + 1);
      } else if body[j] == '}' {
        JoinSplitFrom(body, start, j + 1, depth - 1);
      } else if body[j] == ',' && depth == 0 {
        JoinSplitFrom(body, j + 1, j + 1, depth);
        var rest := SplitFrom(body, j + 1, j + 1, depth);
        assert ([body[start..j]] + rest)[1..] == rest;
        assert body[start..] == body[start..j] + "," + body[j + 1..];
      } else {
        JoinSplitFrom(body, start, j + 1, depth);
      }
    }
  }

  /** Splitting loses nothing: joining the branches with commas gives back the body. */
  lemma SplitThenJoin(body: string)
    ensures Join(Split(body)) == body
  {
    JoinSplitFrom(body, 0, 0, 0);
  }

  /** A comma of the branch at which no brace is open. */
  ghost predicate HasTopComma(branch: string) {
    exists k :: 0 <= k < |branch| && branch[k] == ',' && Depth(branch[..k]) == 0
  }

  /** Every branch is free of such commas, and all but the last close what they open. */
  ghost predicate CutAtTopCommas(branches: seq<string>) {
    branches != [] && !HasTopComma(branches[0]) &&
    (|branches| > 1 ==> Depth(branches[0]) == 0 && CutAtTopCommas(branches[1..]))
  }

  lemma {:induction false} SplitFromCuts(body: string, start: nat, j: nat, depth: int)
    requires start <= j <= |body| && depth == Depth(body[start..j]) && !HasTopComma(body[start..j])
    ensures CutAtTopCommas(SplitFrom(body, start, j, depth))
    decreases |body| - j
  {
    hide Depth, HasTopComma;
    if j == |body| {
      assert body[start..j] == body[start..];
    } else if body[j] == ',' && depth == 0 {
      Nothing();
      assert body[j + 1..j + 1] == "";
      SplitFromCuts(body, j + 1, j + 1, depth);
      var rest := SplitFrom(body, j + 1, j + 1, depth);
      assert ([body[start..j]] + rest)[1..] == rest;
    } else {
      DepthStep(body[start..j], body[j]);
      assert body[start..j] + [body[j]] == body[start..j + 1];
      NoTopCommaStep(body[start..j], body[j]);
      SplitFromCuts(body, start, j + 1, Depth(body[start..j + 1]));
    }
  }

  lemma Nothing()
    ensures Depth("") == 0 && !HasTopComma("")
  {
  }

  lemma NoTopCommaStep(branch: string, c: char)
    requires !HasTopComma(branch) && (c == ',' ==> Depth(branch) != 0)
    ensures !HasTopComma(branch + [c])
  {
    forall k | 0 <= k <= |branch| && (branch + [c])[k] == ',' ensures Depth((branch + [c])[..k]) != 0 {
      assert (branch + [c])[..k] == branch[..k];
      assert branch[..|branch|] == branch;
    }
  }

  lemma {:induction false} EveryBranch(branches: seq<string>, k: nat)
    requires CutAtTopCommas(branches) && k < |branches|
    ensures !HasTopComma(branches[k]) && (k < |branches| - 1 ==> Depth(branches[k]) == 0)
  {
    hide Depth, HasTopComma;
    if k > 0 { EveryBranch(branches[1..], k - 1); }
  }

  /** The body is cut at its commas outside inner braces, at all of them and nowhere else: joined with
      commas the branches are the body, every branch but the last closes what it opens, and no branch
      has such a comma left. */
  lemma SplitCutsAtTopCommas(body: string, k: nat)
    requires k < |Split(body)|
    ensures Join(Split(body)) == body
    ensures !HasTopComma(Split(body)[k]) && (k < |Split(body)| - 1 ==> Depth(Split(body)[k]) == 0)
  {
    hide Depth, HasTopComma, SplitFrom, CutAtTopCommas;
    SplitThenJoin(body);
    Nothing();
    assert body[0..0] == "";
    SplitFromCuts(body, 0, 0, 0);
    EveryBranch(Split(body), k);
  }

  method SplitAlternation(body: string) returns (branches: seq<string>)
    ensures branches == Split(body) && Join(branches) == body
    ensures forall k :: 0 <= k < |branches| ==> !HasTopComma(branches[k])
    ensures forall k :: 0 <= k < |branches| - 1 ==> Depth(branches[k]) == 0
  {
    hide Depth, HasTopComma;
    branches := [];
    var depth, start := 0, 0;
    for j := 0 to |body|
      invariant start <= j && branches + SplitFrom(body, start, j, depth) == Split(body)
    {
      if body[j] == '{' {
        depth := depth + 1;
      } else if body[j] == '}' {
        depth := depth - 1;
      } else if body[j] == ',' && depth == 0 {
        branches := branches + [body[start..j]];
        start := j + 1;
      }
    }
    branches := branches + [body[start..]];
    SplitThenJoin(body);
    forall k | 0 <= k < |branches|
      ensures !HasTopComma(branches[k]) && (k < |branches| - 1 ==> Depth(branches[k]) == 0)
    {
      SplitCutsAtTopCommas(body, k);
    }
  }

  // ---------------------------------------------------------------- brackets

  function FindBracketEnd(p: string, j: nat): (r: Option<nat>)
    ensures r.Some? ==> j <= r.value < |p| && p[r.value] == ']' && forall k :: j <= k < r.value ==> p[k] != ']'
    decreases |p| - j
  {
    if j >= |p| then None else if p[j] == ']' then Some(j) else FindBracketEnd(p, j + 1)
  }

  /** `!` at the front of a bracket body negates it, as `^` does. */
  function BracketBody(body: string): string {
    if body != "" && body[0] == '!' then "^" + body[1..] else body
  }

  /** Every backslash doubled. */
  function Double(text: string): string {
    if text == "" then ""
    else (if text[0] == '\\' then ['\\', '\\'] else [text[0]]) + Double(text[1..])
  }

  function BracketText(body: string): string {
    "[" + Double(BracketBody(body)) + "]"
  }

  /** Characters, and ranges of characters around a dash. */
  function Ranges(members: string): seq<Range> {
    if members == "" then []
    else if |members| >= 3 && members[1] == '-' then [Range(members[0], members[2])] + Ranges(members[3..])
    else [Range(members[0], members[0])] + Ranges(members[1..])
  }

  /** What a bracket expression means. */
  function ClassOf(body: string): CharSet {
    var text := BracketBody(body);
    if text != "" && text[0] == '^' then Set(true, Ranges(text[1..])) else Set(false, Ranges(text))
  }

  // ---------------------------------------------------------------- the translation

  /** The text written, the expression meant by it, and where the next one starts. */
  datatype Token = Token(text: string, item: Regex, next: nat)

  function Bars(texts: seq<string>): string
    requires texts != []
  {
    if |texts| == 1 then texts[0] else texts[0] + "|" + Bars(texts[1..])
  }

  /** The token that starts at position i. */
  function TokenAt(p: string, i: nat): (token: Token)
    requires i < |p|
    ensures i < token.next <= |p|
    decreases |p|, |p| - i, 0
  {
    if At(p, i, "**/") then Token("(?:.*/)?", Optional([Star(NotNewline), One(Only('/'))]), i + 3)
    else if At(p, i, "/**") && i + 3 == |p| then
      Token("(?:/.*)?", Optional([One(Only('/')), Star(NotNewline)]), i + 3)
    else if At(p, i, "**") then Token(".*", Star(NotNewline), i + 2)
    else if p[i] == '*' then Token("[^/]*", Star(NOT_SLASH), i + 1)
    else if p[i] == '?' then Token("[^/]", One(NOT_SLASH), i + 1)
    else if p[i] == '{' && MatchingBrace(p, i).Some? then
      var close := MatchingBrace(p, i).value;
      var branches := Split(p[i + 1..close]);
      Token("(?:" + Bars(TextsOf(branches, |p|)) + ")", GroupOf(branches, |p|), close + 1)
    else if p[i] == '[' && FindBracketEnd(p, i + 2).Some? then
      var close := FindBracketEnd(p, i + 2).value;
      Token(BracketText(p[i + 1..close]), One(ClassOf(p[i + 1..close])), close + 1)
    else Token(Escape(p[i]), One(Only(p[i])), i + 1)
  }

  /** Each branch of a group is translated on its own. */
  function GroupOf(branches: seq<string>, bound: nat): (group: Regex)
    requires forall k :: 0 <= k < |branches| ==> |branches[k]| < bound
    ensures group.Group? && |group.branches| == |branches|
    ensures forall k :: 0 <= k < |branches| ==> group.branches[k] == Sequence(Items(branches[k], 0))
    decreases bound, 0, 0
  {
    Group(seq(|branches|, k requires 0 <= k < |branches| => Sequence(Items(branches[k], 0))))
  }

  function TextsOf(branches: seq<string>, bound: nat): (texts: seq<string>)
    requires forall k :: 0 <= k < |branches| ==> |branches[k]| < bound
    ensures |texts| == |branches|
    ensures forall k :: 0 <= k < |branches| ==> texts[k] == Text(branches[k], 0)
    decreases bound, 0, 0
  {
    seq(|branches|, k requires 0 <= k < |branches| => Text(branches[k], 0))
  }

  /** The expressions for the pattern from position i on. */
  function Items(p: string, i: nat): seq<Regex>
    decreases |p|, |p| - i, 1
  {
    if i >= |p| then [] else [TokenAt(p, i).item] + Items(p, TokenAt(p, i).next)
  }

  /** Their text. */
  function Text(p: string, i: nat): string
    decreases |p|, |p| - i, 1
  {
    if i >= |p| then "" else TokenAt(p, i).text + Text(p, TokenAt(p, i).next)
  }

  /** The cursor loop. */
  method Translate(p: string) returns (out: string)
    ensures out == Text(p, 0)
    decreases |p|, 2
  {
    out := "";
    var i: nat := 0;
    while i < |p|
      invariant out + Text(p, i) == Text(p, 0)
      decreases |p| - i
    {
      var text, next := NextToken(p, i);
      assert out + (text + Text(p, next)) == out + text + Text(p, next);
      out, i := out + text, next;
    }
  }

  lemma BarsGrow(texts: seq<string>, text: string)
    requires texts != []
    ensures Bars(texts + [text]) == Bars(texts) + "|" + text
  {
    if |texts| > 1 {
      assert (texts + [text])[1..] == texts[1..] + [text];
      BarsGrow(texts[1..], text);
    }
  }

  /** The branches of a group, one after another, with bars between them. */
  method TranslateBranches(branches: seq<string>, ghost bound: nat) returns (out: string)
    requires branches != [] && forall k :: 0 <= k < |branches| ==> |branches[k]| < bound
    ensures out == Bars(TextsOf(branches, bound))
    decreases bound, 0
  {
    hide Bars, Text;
    ghost var texts := TextsOf(branches, bound);
    out := Translate(branches[0]);
    FirstBar(texts);
    for k := 1 to |branches|
      invariant out == Bars(texts[..k])
    {
      var text := Translate(branches[k]);
      BarsGrow(texts[..k], text);
      assert texts[..k + 1] == texts[..k] + [text];
      out := out + "|" + text;
    }
    assert texts[..|branches|] == texts;
  }

  lemma FirstBar(texts: seq<string>)
    requires texts != []
    ensures Bars(texts[..1]) == texts[0]
  {
  }

  /** One turn of the loop, calling the translation again on the branches of a group. */
  method NextToken(p: string, i: nat) returns (text: string, next: nat)
    requires i < |p|
    ensures text == TokenAt(p, i).text && next == TokenAt(p, i).next
    decreases |p|, 1
  {
    hide Text, Bars, Split, MatchingBrace, Depth, HasTopComma, BracketText;
    if At(p, i, "**/") {
      return "(?:.*/)?", i + 3;
    } else if At(p, i, "/**") && i + 3 == |p| {
      return "(?:/.*)?", i + 3;
    } else if At(p, i, "**") {
      return ".*", i + 2;
    } else if p[i] == '*' {
      return "[^/]*", i + 1;
    } else if p[i] == '?' {
      return "[^/]", i + 1;
    } else if p[i] == '{' {
      var close := FindMatchingBrace(p, i);
      if close.Some? {
        var branches := SplitAlternation(p[i + 1..close.value]);
        var alternatives := TranslateBranches(branches, |p|);
        return "(?:" + alternatives + ")", close.value + 1;
      }
    } else if p[i] == '[' {
      var close := FindBracketEnd(p, i + 2);
      if close.Some? {
        return BracketText(p[i + 1..close.value]), close.value + 1;
      }
    }
    return Escape(p[i]), i + 1;
  }

  // ---------------------------------------------------------------- the direct matcher

  ghost predicate AllAdmit(chars: CharSet, s: string) {
    forall k :: 0 <= k < |s| ==> Admits(chars, s[k])
  }

  /** `**` followed by a slash: nothing, or directories. */
  ghost predicate Directories(s: string) {
    s == "" || (s[|s| - 1] == '/' && '\n' !in s[..|s| - 1])
  }

  /** A slash and `**` at the very end: nothing, or anything below. */
  ghost predicate Below(s: string) {
    s == "" || (s[0] == '/' && '\n' !in s[1..])
  }

  /** The path is matched by the pattern from position i on. */
  ghost predicate Matches(p: string, i: nat, s: string)
    decreases |p|, |p| - i, |s|
  {
    if i >= |p| then s == ""
    else if At(p, i, "**/") then exists k :: 0 <= k <= |s| && Directories(s[..k]) && Matches(p, i + 3, s[k..])
    else if At(p, i, "/**") && i + 3 == |p| then Below(s)
    else if At(p, i, "**") then exists k :: 0 <= k <= |s| && '\n' !in s[..k] && Matches(p, i + 2, s[k..])
    else if p[i] == '*' then exists k :: 0 <= k <= |s| && '/' !in s[..k] && Matches(p, i + 1, s[k..])
    else if p[i] == '?' then s != "" && s[0] != '/' && Matches(p, i + 1, s[1..])
    else if p[i] == '{' && MatchingBrace(p, i).Some? then
      var close := MatchingBrace(p, i).value;
      var branches := Split(p[i + 1..close]);
      exists j, k :: 0 <= j < |branches| && 0 <= k <= |s| &&
        Matches(branches[j], 0, s[..k]) && Matches(p, close + 1, s[k..])
    else if p[i] == '[' && FindBracketEnd(p, i + 2).Some? then
      var close := FindBracketEnd(p, i + 2).value;
      s != "" && Admits(ClassOf(p[i + 1..close]), s[0]) && Matches(p, close + 1, s[1..])
    else s != "" && s[0] == p[i] && Matches(p, i + 1, s[1..])
  }

  // ---------------------------------------------------------------- the translation is right

  lemma {:induction false} StarMeansAll(chars: CharSet, s: string)
    ensures In(Star(chars), s) <==> AllAdmit(chars, s)
    decreases |s|
  {
    if s != "" {
      StarMeansAll(chars, s[1..]);
      if AllAdmit(chars, s[1..]) && Admits(chars, s[0]) {
        forall k | 0 <= k < |s| ensures Admits(chars, s[k]) {
          if k > 0 { assert s[1..][k - 1] == s[k]; }
        }
      }
    }
  }

  lemma Exclusions(s: string)
    ensures AllAdmit(NotNewline, s) <==> '\n' !in s
    ensures AllAdmit(NOT_SLASH, s) <==> '/' !in s
  {
  }

  lemma PairMeans(x: Regex, y: Regex, s: string)
    ensures InAll([x, y], s) <==> exists k :: 0 <= k <= |s| && In(x, s[..k]) && In(y, s[k..])
  {
    assert [x, y][1..] == [y];
    forall k | 0 <= k <= |s| ensures InAll([y], s[k..]) <==> In(y, s[k..]) {
      LastMeans(y, s[k..]);
    }
  }

  lemma LastMeans(y: Regex, s: string)
    ensures InAll([y], s) <==> In(y, s)
  {
    assert [y][1..] == [];
    assert s[..|s|] == s && s[|s|..] == "";
    if InAll([y], s) {
      var k :| 0 <= k <= |s| && In([y][0], s[..k]) && InAll([y][1..], s[k..]);
      assert s[k..] == "";
    }
  }

  lemma DirectoriesMeans(s: string)
    ensures In(Optional([Star(NotNewline), One(Only('/'))]), s) <==> Directories(s)
  {
    PairMeans(Star(NotNewline), One(Only('/')), s);
    forall k | 0 <= k <= |s| ensures In(Star(NotNewline), s[..k]) <==> '\n' !in s[..k] {
      StarMeansAll(NotNewline, s[..k]);
      Exclusions(s[..k]);
    }
    if s != "" && Directories(s) {
      var k := |s| - 1;
      assert In(Star(NotNewline), s[..k]) && In(One(Only('/')), s[k..]);
    }
  }

  lemma BelowMeans(s: string)
    ensures In(Optional([One(Only('/')), Star(NotNewline)]), s) <==> Below(s)
  {
    PairMeans(One(Only('/')), Star(NotNewline), s);
    forall k | 0 <= k <= |s| ensures In(Star(NotNewline), s[k..]) <==> '\n' !in s[k..] {
      StarMeansAll(NotNewline, s[k..]);
      Exclusions(s[k..]);
    }
    if s != "" && Below(s) {
      assert In(One(Only('/')), s[..1]) && In(Star(NotNewline), s[1..]);
    }
  }

  /** The first expression takes some prefix and the others the rest. */
  lemma FirstAndRest(x: Regex, rest: seq<Regex>, s: string)
    ensures InAll([x] + rest, s) <==> exists k :: 0 <= k <= |s| && In(x, s[..k]) && InAll(rest, s[k..])
  {
    assert ([x] + rest)[1..] == rest;
  }

  lemma OneAndRest(chars: CharSet, rest: seq<Regex>, s: string)
    ensures InAll([One(chars)] + rest, s) <==> s != "" && Admits(chars, s[0]) && InAll(rest, s[1..])
  {
    FirstAndRest(One(chars), rest, s);
    if s != "" && Admits(chars, s[0]) && InAll(rest, s[1..]) {
      assert In(One(chars), s[..1]);
    }
  }

  /** What is already known about shorter pieces: the rest of the pattern, and the branches of a group. */
  ghost predicate RestAgrees(p: string, next: nat, s: string) {
    forall k :: 0 <= k <= |s| ==> (InAll(Items(p, next), s[k..]) <==> Matches(p, next, s[k..]))
  }

  ghost predicate BranchesAgree(branches: seq<string>, s: string) {
    forall j, k :: 0 <= j < |branches| && 0 <= k <= |s| ==>
      (InAll(Items(branches[j], 0), s[..k]) <==> Matches(branches[j], 0, s[..k]))
  }

  lemma SpanningToken(p: string, i: nat, s: string)
    requires i < |p| && (At(p, i, "**") || p[i] == '*') && !At(p, i, "**/") && !(At(p, i, "/**") && i + 3 == |p|)
    requires RestAgrees(p, TokenAt(p, i).next, s)
    ensures InAll(Items(p, i), s) <==> Matches(p, i, s)
  {
    hide In, InAll;
    var chars := if At(p, i, "**") then NotNewline else NOT_SLASH;
    FirstAndRest(Star(chars), Items(p, TokenAt(p, i).next), s);
    forall k | 0 <= k <= |s| ensures In(Star(chars), s[..k]) <==> AllAdmit(chars, s[..k]) {
      StarMeansAll(chars, s[..k]);
    }
    forall k | 0 <= k <= |s|
      ensures AllAdmit(NotNewline, s[..k]) <==> '\n' !in s[..k]
      ensures AllAdmit(NOT_SLASH, s[..k]) <==> '/' !in s[..k]
    {
      Exclusions(s[..k]);
    }
  }

  lemma DirectoriesToken(p: string, i: nat, s: string)
    requires i < |p| && At(p, i, "**/") && RestAgrees(p, i + 3, s)
    ensures InAll(Items(p, i), s) <==> Matches(p, i, s)
  {
    hide In, InAll;
    var x := Optional([Star(NotNewline), One(Only('/'))]);
    FirstAndRest(x, Items(p, i + 3), s);
    forall k | 0 <= k <= |s| ensures In(x, s[..k]) <==> Directories(s[..k]) {
      DirectoriesMeans(s[..k]);
    }
  }

  lemma BelowToken(p: string, i: nat, s: string)
    requires i < |p| && At(p, i, "/**") && i + 3 == |p| && !At(p, i, "**/")
    ensures InAll(Items(p, i), s) <==> Matches(p, i, s)
  {
    var x := Optional([One(Only('/')), Star(NotNewline)]);
    assert Items(p, i + 3) == [];
    assert Items(p, i) == [x] + [] == [x];
    LastMeans(x, s);
    BelowMeans(s);
  }

  lemma {:induction false} ItemsUnfold(p: string, i: nat)
    requires i < |p|
    ensures Items(p, i) == [TokenAt(p, i).item] + Items(p, TokenAt(p, i).next)
  {
    hide TokenAt;
  }

  /** What the matcher does at a token that stands for one character. */
  lemma {:induction false} SingleMatches(p: string, i: nat, s: string)
    requires i < |p| && TokenAt(p, i).item.One?
    ensures Matches(p, i, s) <==>
            s != "" && Admits(TokenAt(p, i).item.chars, s[0]) && Matches(p, TokenAt(p, i).next, s[1..])
  {
    hide MatchingBrace, FindBracketEnd, Split, ClassOf, Bars, BracketText, Escape, At;
  }

  lemma SingleToken(p: string, i: nat, s: string)
    requires i < |p| && TokenAt(p, i).item.One? && RestAgrees(p, TokenAt(p, i).next, s)
    ensures InAll(Items(p, i), s) <==> Matches(p, i, s)
  {
    hide In, InAll, Matches, Items, TokenAt, Admits;
    var token := TokenAt(p, i);
    ItemsUnfold(p, i);
    SingleMatches(p, i, s);
    OneAndRest(token.item.chars, Items(p, token.next), s);
    if s != "" {
      assert InAll(Items(p, token.next), s[1..]) <==> Matches(p, token.next, s[1..]);
    }
  }

  /** Some branch matches. */
  ghost predicate AnyMatches(branches: seq<string>, s: string) {
    exists j :: 0 <= j < |branches| && Matches(branches[j], 0, s)
  }

  lemma GroupMeans(branches: seq<string>, bound: nat, s: string, k: nat)
    requires k <= |s| && BranchesAgree(branches, s)
    requires forall j :: 0 <= j < |branches| ==> |branches[j]| < bound
    ensures In(GroupOf(branches, bound), s[..k]) <==> AnyMatches(branches, s[..k])
  {
    hide Matches, Items;
    var group := GroupOf(branches, bound);
    forall j | 0 <= j < |branches| ensures In(group.branches[j], s[..k]) <==> Matches(branches[j], 0, s[..k]) {
      assert group.branches[j] == Sequence(Items(branches[j], 0));
    }
  }
  /** What the matcher does at a group. */
  lemma {:induction false} GroupMatches(p: string, i: nat, s: string, branches: seq<string>)
    requires i < |p| && p[i] == '{' && MatchingBrace(p, i).Some?
    requires branches == Split(p[i + 1..MatchingBrace(p, i).value])
    ensures Matches(p, i, s) <==>
            exists k :: 0 <= k <= |s| && AnyMatches(branches, s[..k]) && Matches(p, MatchingBrace(p, i).value + 1, s[k..])
  {
    hide MatchingBrace, Split;
    NotAt(p, i);
  }

  lemma GroupIs(p: string, i: nat, branches: seq<string>)
    requires i < |p| && p[i] == '{' && MatchingBrace(p, i).Some?
    requires branches == Split(p[i + 1..MatchingBrace(p, i).value])
    ensures TokenAt(p, i).item == GroupOf(branches, |p|) && TokenAt(p, i).next == MatchingBrace(p, i).value + 1
  {
    hide Bars, Split, MatchingBrace;
    NotAt(p, i);
  }

  lemma GroupToken(p: string, i: nat, s: string, branches: seq<string>)
    requires i < |p| && p[i] == '{' && MatchingBrace(p, i).Some?
    requires branches == Split(p[i + 1..MatchingBrace(p, i).value])
    requires RestAgrees(p, MatchingBrace(p, i).value + 1, s) && BranchesAgree(branches, s)
    ensures InAll(Items(p, i), s) <==> Matches(p, i, s)
  {
    hide *;
    var next := MatchingBrace(p, i).value + 1;
    var group := GroupOf(branches, |p|);
    GroupIs(p, i, branches);
    ItemsUnfold(p, i);
    GroupMatches(p, i, s, branches);
    FirstAndRest(group, Items(p, next), s);
    forall k | 0 <= k <= |s|
      ensures In(group, s[..k]) <==> AnyMatches(branches, s[..k])
      ensures InAll(Items(p, next), s[k..]) <==> Matches(p, next, s[k..])
    {
      GroupMeans(branches, |p|, s, k);
      RestAgreesAt(p, next, s, k);
    }
  }

  lemma RestAgreesAt(p: string, next: nat, s: string, k: nat)
    requires RestAgrees(p, next, s) && k <= |s|
    ensures InAll(Items(p, next), s[k..]) <==> Matches(p, next, s[k..])
  {
  }
  lemma NotAt(p: string, i: nat)
    requires i < |p| && p[i] == '{'
    ensures !At(p, i, "**/") && !At(p, i, "/**") && !At(p, i, "**")
  {
    if i + 3 <= |p| { assert p[i..i + 3][0] == '{'; }
    if i + 2 <= |p| { assert p[i..i + 2][0] == '{'; }
  }

  lemma EndAgrees(p: string, i: nat, s: string)
    requires i >= |p|
    ensures InAll(Items(p, i), s) <==> Matches(p, i, s)
  {
  }

  /** A path is in the language of the translation exactly when the direct matcher accepts it. */
  lemma {:induction false} TranslationAcceptsExactlyTheMatches(p: string, i: nat, s: string)
    ensures InAll(Items(p, i), s) <==> Matches(p, i, s)
    decreases |p|, |p| - i, |s|
  {
    hide In, InAll, Matches, Items, Split, MatchingBrace, ClassOf, Bars, BracketText, Escape;
    if i >= |p| {
      EndAgrees(p, i, s);
    } else {
      var token := TokenAt(p, i);
      forall k | 0 <= k <= |s| ensures InAll(Items(p, token.next), s[k..]) <==> Matches(p, token.next, s[k..]) {
        TranslationAcceptsExactlyTheMatches(p, token.next, s[k..]);
      }
      assert RestAgrees(p, token.next, s);
      if At(p, i, "**/") {
        DirectoriesToken(p, i, s);
      } else if At(p, i, "/**") && i + 3 == |p| {
        BelowToken(p, i, s);
      } else if At(p, i, "**") || p[i] == '*' {
        SpanningToken(p, i, s);
      } else if p[i] == '{' && MatchingBrace(p, i).Some? {
        var branches := Split(p[i + 1..MatchingBrace(p, i).value]);
        forall j, k | 0 <= j < |branches| && 0 <= k <= |s|
          ensures InAll(Items(branches[j], 0), s[..k]) <==> Matches(branches[j], 0, s[..k])
        {
          TranslationAcceptsExactlyTheMatches(branches[j], 0, s[..k]);
        }
        GroupToken(p, i, s, branches);
      } else {
        SingleToken(p, i, s);
      }
    }
  }

  // ---------------------------------------------------------------- directories

  function Slashes(s: string): nat {
    if s == "" then 0 else (if s[0] == '/' then 1 else 0) + Slashes(s[1..])
  }

  lemma {:induction false} SlashesConcat(a: string, b: string)
    ensures Slashes(a + b) == Slashes(a) + Slashes(b)
  {
    if a == "" {
      assert a + b == b;
    } else {
      assert (a + b)[1..] == a[1..] + b;
      SlashesConcat(a[1..], b);
    }
  }

  lemma {:induction false} NoSlashes(s: string)
    requires '/' !in s
    ensures Slashes(s) == 0
  {
    if s != "" {
      forall c | c in s[1..] ensures c in s {}
      NoSlashes(s[1..]);
    }
  }

  /** A star that is not one of two. */
  predicate LoneStar(p: string, i: nat) {
    i < |p| && p[i] == '*' && !At(p, i, "**")
  }

  lemma StarMatches(p: string, i: nat, s: string) returns (k: nat)
    requires LoneStar(p, i) && Matches(p, i, s)
    ensures k <= |s| && '/' !in s[..k] && Matches(p, i + 1, s[k..])
  {
    StarsInside(p, i);
    k :| k <= |s| && '/' !in s[..k] && Matches(p, i + 1, s[k..]);
  }

  lemma CharMatches(p: string, i: nat, s: string)
    requires i < |p| && p[i] != '{' && p[i] != '[' && p[i] != '*' && Matches(p, i, s)
    requires i + 1 < |p| ==> !At(p, i + 1, "**")
    ensures s != "" && (s[0] == '/' <==> p[i] == '/') && Matches(p, i + 1, s[1..])
  {
    StarsInside(p, i);
    TwoAt(p, i, "**");
  }

  lemma StarsInside(p: string, i: nat)
    requires i < |p|
    ensures At(p, i, "**/") ==> At(p, i, "**")
    ensures At(p, i, "/**") ==> i + 1 < |p| && At(p, i + 1, "**")
  {
    if i + 3 <= |p| {
      var three := p[i..i + 3];
      assert three[..2] == p[i..i + 2] && three[1..] == p[i + 1..i + 3];
    }
  }

  lemma EndMatches(p: string, s: string)
    requires Matches(p, |p|, s)
    ensures s == ""
  {
  }

  lemma SlashesStep(s: string)
    requires s != ""
    ensures Slashes(s) == (if s[0] == '/' then 1 else 0) + Slashes(s[1..])
  {
  }

  lemma NothingHasNoSlashes()
    ensures Slashes("") == 0
  {
  }

  /** A pattern of plain characters, `*` and `?` only matches paths of exactly as many directories. */
  lemma {:induction false} WildcardsStayWithinDirectories(p: string, i: nat, s: string)
    requires i <= |p| && forall k :: i <= k < |p| ==> p[k] != '{' && p[k] != '[' && !At(p, k, "**")
    requires Matches(p, i, s)
    ensures Slashes(s) == Slashes(p[i..])
    decreases |p| - i
  {
    hide Matches, Slashes, At;
    NothingHasNoSlashes();
    if i == |p| {
      EndMatches(p, s);
    } else {
      SlashesStep(p[i..]);
      assert p[i..][1..] == p[i + 1..];
      if p[i] == '*' {
        var k := StarMatches(p, i, s);
        WildcardsStayWithinDirectories(p, i + 1, s[k..]);
        NoSlashes(s[..k]);
        SlashesConcat(s[..k], s[k..]);
        assert s == s[..k] + s[k..];
      } else {
        CharMatches(p, i, s);
        SlashesStep(s);
        WildcardsStayWithinDirectories(p, i + 1, s[1..]);
      }
    }
  }
}
