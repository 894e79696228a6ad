/** The text the translation writes, read back: exactly for which patterns it is read as the expression
    that was meant, and what the compiled filter then accepts. */
module GlobReadBack {
  import opened GlobRegex
  import opened Lexis
  import opened Prelude
  import opened RegexSyntax

  /** What was read is something else, or nothing was. */
  ghost predicate Misread<T(!new)>(got: Option<Got<T>>, meant: T) {
    got.None? || got.value.value != meant
  }

  // ---------------------------------------------------------------- classes

  predicate Ascending(ranges: seq<Range>) {
    forall r :: r in ranges ==> r.lo <= r.hi
  }

  /** A bracket body that negates something, and whose ranges run upwards. */
  predicate BracketOk(body: string) {
    BracketBody(body) != "^" && Ascending(ClassOf(body).ranges)
  }

  /** The closing bracket can only be the first member, and only of a class that may start with it. */
  predicate Closed(members: string, any: bool) {
    && (members == "" ==> any)
    && forall k :: 0 <= k < |members| && members[k] == ']' ==> k == 0 && !any
  }

  lemma {:induction false} DoubleStep(members: string)
    requires members != ""
    ensures Double(members) ==
            (if members[0] == '\\' then ['\\', '\\'] else [members[0]]) + Double(members[1..])
  {
  }

  lemma PlainMember(c: char, tail: string)
    requires c != '\\'
    ensures ReadMember([c] + tail) == Some(Got(c, tail))
  {
    assert ([c] + tail)[1..] == tail;
  }

  lemma EscapedMember(c: char, tail: string)
    requires !IsAlnum(c)
    ensures ReadMember(['\\', c] + tail) == Some(Got(c, tail))
  {
    assert (['\\', c] + tail)[2..] == tail;
  }

  lemma MemberReads(members: string, rest: string)
    requires members != ""
    ensures ReadMember(Double(members) + rest) == Some(Got(members[0], Double(members[1..]) + rest))
  {
    hide Double, ReadMember;
    DoubleStep(members);
    var c, others := members[0], Double(members[1..]);
    if c == '\\' {
      assert [c, c] + others + rest == [c, c] + (others + rest);
      EscapedMember(c, others + rest);
    } else {
      assert [c] + others + rest == [c] + (others + rest);
      PlainMember(c, others + rest);
    }
  }

  lemma {:induction false} DoubleStarts(members: string)
    ensures members == "" <==> Double(members) == ""
    ensures members != "" ==> Double(members)[0] == members[0]
  {
  }

  lemma {:induction false} AscendingAfter(first: Range, others: seq<Range>)
    ensures Ascending([first] + others) <==> first.lo <= first.hi && Ascending(others)
  {
    if Ascending([first] + others) {
      assert first in [first] + others;
      forall r | r in others ensures r.lo <= r.hi { assert r in [first] + others; }
    }
  }

  lemma {:induction false} MembersRead(members: string, rest: string, any: bool)
    requires Closed(members, any)
    ensures ReadMembers(Double(members) + "]" + rest, any) ==
            if Ascending(Ranges(members)) then Some(Got(Ranges(members), rest)) else None
    decreases |members|
  {
    hide ReadMember, Ascending, Double, Ranges;
    var tail := "]" + rest;
    assert Double(members) + "]" + rest == Double(members) + tail;
    if members == "" {
      NoMembers();
    } else {
      MemberReads(members, tail);
      DoubleStarts(members);
      DoubleStarts(members[1..]);
      RangesStep(members);
      if |members| == 1 || members[1] != '-' {
        MembersRead(members[1..], rest, true);
        AscendingAfter(Range(members[0], members[0]), Ranges(members[1..]));
        assert Double(members[1..]) + "]" + rest == Double(members[1..]) + tail;
      } else {
        DashReads(members, rest);
        if |members| > 2 {
          MembersRead(members[3..], rest, true);
          AscendingAfter(Range(members[0], members[2]), Ranges(members[3..]));
        } else {
          LastDash(members);
        }
      }
    }
  }

  lemma NoMembers()
    ensures Double("") == "" && Ranges("") == [] && Ascending([])
  {
  }

  lemma {:induction false} RangesStep(members: string)
    requires members != ""
    ensures Ranges(members) ==
            if |members| >= 3 && members[1] == '-' then [Range(members[0], members[2])] + Ranges(members[3..])
            else [Range(members[0], members[0])] + Ranges(members[1..])
  {
  }

  lemma LastDash(members: string)
    requires |members| == 2 && members[1] == '-'
    ensures Ranges(members) == [Range(members[0], members[0]), Range('-', '-')] && Ascending(Ranges(members))
  {
    hide Ranges;
    var dash := members[1..];
    RangesStep(members);
    RangesStep(dash);
    NoMembers();
    assert dash[1..] == "";
    assert [Range(members[0], members[0])] + ([Range('-', '-')] + []) == [Range(members[0], members[0]), Range('-', '-')];
  }

  /** What follows a member and a dash. */
  lemma DashReads(members: string, rest: string)
    requires |members| >= 2 && members[1] == '-' && forall k :: 0 < k < |members| ==> members[k] != ']'
    ensures var s := Double(members[1..]) + ("]" + rest);
            && |s| >= 2 && s[0] == '-'
            && (s[1] == ']' <==> |members| == 2)
            && (|members| == 2 ==> s[2..] == rest)
            && (|members| > 2 ==> ReadMember(s[1..]) == Some(Got(members[2], Double(members[3..]) + "]" + rest)))
  {
    hide Double, ReadMember;
    var tail := "]" + rest;
    var s := Double(members[1..]) + tail;
    assert members[1..][1..] == members[2..];
    DoubleStep(members[1..]);
    assert s[1..] == Double(members[2..]) + tail;
    DoubleStarts(members[2..]);
    if |members| > 2 {
      MemberReads(members[2..], tail);
      assert members[2..][1..] == members[3..];
      assert Double(members[3..]) + tail == Double(members[3..]) + "]" + rest;
    } else {
      assert s[1..] == tail;
      assert s[2..] == rest;
    }
  }

  lemma ClassReads(body: string, rest: string)
    requires body != "" && forall k :: 0 < k < |body| ==> body[k] != ']'
    ensures var got := ReadClass(Double(BracketBody(body)) + "]" + rest);
            if BracketOk(body) then got == Some(Got(ClassOf(body), rest)) else Misread(got, ClassOf(body))
  {
    hide Double, Ranges, ReadMembers, Ascending;
    var text := BracketBody(body);
    var s := Double(text) + "]" + rest;
    DoubleStarts(text);
    if text[0] == '^' {
      var members := text[1..];
      CaretFirst(text);
      assert s[1..] == Double(members) + "]" + rest;
      if members == "" {
        NoMembers();
        assert text == "^";
      } else {
        MembersRead(members, rest, false);
      }
    } else {
      MembersRead(text, rest, false);
    }
  }

  lemma CaretFirst(text: string)
    requires text != "" && text[0] == '^'
    ensures Double(text) == "^" + Double(text[1..])
  {
  }

  // ---------------------------------------------------------------- single items

  /** An item read as it stands, with no quantifier after it. */
  lemma CharReads(c: char, rest: string)
    requires Calm(rest)
    ensures ReadItem(Escape(c) + rest) == Some(Got(One(Only(c)), rest))
  {
    var s := Escape(c) + rest;
    if c in SPECIAL {
      assert s[2..] == rest;
    } else {
      assert s[1..] == rest;
    }
  }

  lemma DotStarReads(rest: string)
    requires Calm(rest)
    ensures ReadItem(".*" + rest) == Some(Got(Star(NotNewline), rest))
  {
    var s := ".*" + rest;
    assert s[1..] == "*" + rest && s[1..][1..] == rest;
  }

  lemma NotSlashReads(rest: string)
    ensures ReadAtom("[^/]" + rest) == Some(Got(One(NOT_SLASH), rest))
  {
    var s := "[^/]" + rest;
    assert s[1..] == "^/]" + rest && s[1..][1..] == "/]" + rest;
    assert ("/]" + rest)[1..] == "]" + rest && ("]" + rest)[1..] == rest;
    assert ReadMembers("]" + rest, true) == Some(Got([], rest));
    assert [Range('/', '/')] + [] == [Range('/', '/')];
  }

  lemma AtomReads(s: string, atom: Regex, rest: string)
    requires s != "" && ReadAtom(s) == Some(Got(atom, rest))
    ensures Calm(rest) ==> ReadItem(s) == Some(Got(atom, rest))
    ensures rest != "" && rest[0] == '*' && atom.One? && Calm(rest[1..]) ==>
              ReadItem(s) == Some(Got(Star(atom.chars), rest[1..]))
    ensures rest != "" && rest[0] == '?' && Calm(rest[1..]) ==>
              ReadItem(s) == Some(Got(Optional(Inner(atom)), rest[1..]))
  {
  }

  lemma ItemsStep(s: string, item: Regex, rest: string)
    requires !Stops(s) && ReadItem(s) == Some(Got(item, rest))
    ensures ReadItems(s) == Prepend([item], ReadItems(rest))
  {
  }

  lemma ItemsStop(s: string)
    requires Stops(s)
    ensures ReadItems(s) == Some(Got([], s))
  {
  }

  lemma GroupReads(inner: string, branches: seq<Regex>, rest: string)
    requires ReadBranches(inner + ")" + rest) == Some(Got(branches, ")" + rest))
    ensures ReadAtom("(?:" + inner + ")" + rest) == Some(Got(Group(branches), rest))
  {
    var s := "(?:" + inner + ")" + rest;
    assert s[3..] == inner + ")" + rest;
    assert (")" + rest)[1..] == rest;
  }

  /** A group of one branch, made optional. */
  lemma OptionalReads(inner: string, items: seq<Regex>, rest: string)
    requires Calm(rest) && ReadItems(inner + ")" + ("?" + rest)) == Some(Got(items, ")" + ("?" + rest)))
    ensures ReadItem("(?:" + inner + ")?" + rest) == Some(Got(Optional(items), rest))
  {
    hide ReadItems, ReadAtom, ReadItem;
    var s := "(?:" + inner + ")" + ("?" + rest);
    assert s == "(?:" + inner + ")?" + rest;
    OneBranch(inner + ")" + ("?" + rest), items, ")" + ("?" + rest));
    GroupReads(inner, [Sequence(items)], "?" + rest);
    AtomReads(s, Group([Sequence(items)]), "?" + rest);
    assert ("?" + rest)[1..] == rest;
  }

  lemma OneBranch(s: string, items: seq<Regex>, rest: string)
    requires ReadItems(s) == Some(Got(items, rest)) && (rest == "" || rest[0] != '|')
    ensures ReadBranches(s) == Some(Got([Sequence(items)], rest))
  {
    hide ReadItems;
  }

  lemma DirectoriesRead(rest: string)
    requires Calm(rest)
    ensures ReadItem("(?:.*/)?" + rest) == Some(Got(Optional([Star(NotNewline), One(Only('/'))]), rest))
  {
    hide ReadItem, ReadItems;
    var tail := ")" + ("?" + rest);
    ItemsStop(tail);
    CharReads('/', tail);
    ItemsStep("/" + tail, One(Only('/')), tail);
    DotStarReads("/" + tail);
    ItemsStep(".*" + ("/" + tail), Star(NotNewline), "/" + tail);
    assert ".*/" + ")" + ("?" + rest) == ".*" + ("/" + tail);
    assert [Star(NotNewline)] + ([One(Only('/'))] + []) == [Star(NotNewline), One(Only('/'))];
    OptionalReads(".*/", [Star(NotNewline), One(Only('/'))], rest);
    assert "(?:" + ".*/" + ")?" == "(?:.*/)?";
  }

  lemma BelowReads(rest: string)
    requires Calm(rest)
    ensures ReadItem("(?:/.*)?" + rest) == Some(Got(Optional([One(Only('/')), Star(NotNewline)]), rest))
  {
    hide ReadItem, ReadItems;
    var tail := ")" + ("?" + rest);
    ItemsStop(tail);
    DotStarReads(tail);
    ItemsStep(".*" + tail, Star(NotNewline), tail);
    CharReads('/', ".*" + tail);
    ItemsStep("/" + (".*" + tail), One(Only('/')), ".*" + tail);
    assert "/.*" + ")" + ("?" + rest) == "/" + (".*" + tail);
    assert [One(Only('/'))] + ([Star(NotNewline)] + []) == [One(Only('/')), Star(NotNewline)];
    OptionalReads("/.*", [One(Only('/')), Star(NotNewline)], rest);
    assert "(?:" + "/.*" + ")?" == "(?:/.*)?";
  }

  lemma BracketReads(body: string, rest: string)
    requires body != "" && (forall k :: 0 < k < |body| ==> body[k] != ']') && Calm(rest)
    ensures var got := ReadItem(BracketText(body) + rest);
            if BracketOk(body) then got == Some(Got(One(ClassOf(body)), rest)) else Misread(got, One(ClassOf(body)))
  {
    hide ReadClass, BracketOk, ClassOf, Double, BracketBody;
    var s := BracketText(body) + rest;
    assert s[1..] == Double(BracketBody(body)) + "]" + rest;
    ClassReads(body, rest);
  }

  // ---------------------------------------------------------------- whole patterns

  /** Every bracket expression the translation comes to, in branches too, is in order. */
  predicate WellBracketed(p: string, i: nat)
    decreases |p|, |p| - i, 1
  {
    i >= |p| || (TokenOk(p, i) && WellBracketed(p, TokenAt(p, i).next))
  }

  predicate TokenOk(p: string, i: nat)
    requires i < |p|
    decreases |p|, |p| - i, 0
  {
    if Spans(p, i) || p[i] == '?' then true
    else if p[i] == '{' && MatchingBrace(p, i).Some? then
      var branches := Split(p[i + 1..MatchingBrace(p, i).value]);
      forall k :: 0 <= k < |branches| ==> WellBracketed(branches[k], 0)
    else if p[i] == '[' && FindBracketEnd(p, i + 2).Some? then
      BracketOk(p[i + 1..FindBracketEnd(p, i + 2).value])
    else true
  }

  /** A wildcard made of stars starts here. */
  predicate Spans(p: string, i: nat)
    requires i < |p|
  {
    At(p, i, "**/") || (At(p, i, "/**") && i + 3 == |p|) || At(p, i, "**") || p[i] == '*'
  }

  /** Every token's text starts with something that is neither a quantifier nor the end of a run. */
  lemma TokenStarts(p: string, i: nat, rest: string)
    requires i < |p|
    ensures Calm(TokenAt(p, i).text + rest) && !Stops(TokenAt(p, i).text + rest)
  {
    hide MatchingBrace, FindBracketEnd, Split, TextsOf, GroupOf, Bars, ClassOf, Double, BracketBody;
  }

  lemma {:induction false} TextStep(p: string, i: nat)
    ensures Text(p, i) == if i >= |p| then "" else TokenAt(p, i).text + Text(p, TokenAt(p, i).next)
  {
    hide TokenAt;
  }

  lemma TextStarts(p: string, i: nat, rest: string)
    requires Stops(rest)
    ensures Calm(Text(p, i) + rest)
  {
    hide TokenAt;
    if i < |p| {
      var token := TokenAt(p, i);
      TokenStarts(p, i, Text(p, token.next) + rest);
      assert token.text + Text(p, token.next) + rest == token.text + (Text(p, token.next) + rest);
    } else {
      assert Text(p, i) + rest == rest;
    }
  }

  /** Reading the text gives the expression and stops where the text ends, if the pattern is in order;
      otherwise it gives something else. */
  ghost predicate ReadsAsMeant(p: string, i: nat, rest: string) {
    var got := ReadItems(Text(p, i) + rest);
    if WellBracketed(p, i) then got == Some(Got(Items(p, i), rest)) else Misread(got, Items(p, i))
  }

  ghost predicate TokenReadsAsMeant(p: string, i: nat, rest: string)
    requires i < |p|
  {
    var got := ReadItem(TokenAt(p, i).text + rest);
    if TokenOk(p, i) then got == Some(Got(TokenAt(p, i).item, rest)) else Misread(got, TokenAt(p, i).item)
  }

  lemma SpanReads(p: string, i: nat, rest: string)
    requires i < |p| && (Spans(p, i) || p[i] == '?') && Calm(rest)
    ensures TokenReadsAsMeant(p, i, rest)
  {
    hide ReadItem, ReadAtom;
    if At(p, i, "**/") {
      DirectoriesRead(rest);
    } else if At(p, i, "/**") && i + 3 == |p| {
      BelowReads(rest);
    } else if At(p, i, "**") {
      DotStarReads(rest);
    } else if p[i] == '*' {
      NotSlashReads("*" + rest);
      AtomReads("[^/]" + ("*" + rest), One(NOT_SLASH), "*" + rest);
      assert "[^/]*" + rest == "[^/]" + ("*" + rest);
      assert ("*" + rest)[1..] == rest;
    } else {
      NotSlashReads(rest);
      AtomReads("[^/]" + rest, One(NOT_SLASH), rest);
    }
  }

  lemma BracketTokenReads(p: string, i: nat, rest: string)
    requires i < |p| && !Spans(p, i) && p[i] == '[' && FindBracketEnd(p, i + 2).Some? && Calm(rest)
    ensures TokenReadsAsMeant(p, i, rest)
  {
    hide ReadItem, BracketOk, ClassOf, BracketText;
    var close := FindBracketEnd(p, i + 2).value;
    var body := p[i + 1..close];
    forall k | 0 < k < |body| ensures body[k] != ']' {
      assert body[k] == p[i + 1 + k];
    }
    BracketReads(body, rest);
  }

  /** The branches of a group read as meant. */
  ghost predicate BranchesRead(branches: seq<string>) {
    forall k, rest :: 0 <= k < |branches| && Stops(rest) ==> ReadsAsMeant(branches[k], 0, rest)
  }

  function Meant(branches: seq<string>): seq<Regex> {
    seq(|branches|, k requires 0 <= k < |branches| => Sequence(Items(branches[k], 0)))
  }

  function Written(branches: seq<string>): (texts: seq<string>)
    ensures |texts| == |branches|
  {
    seq(|branches|, k requires 0 <= k < |branches| => Text(branches[k], 0))
  }

  predicate AllOk(branches: seq<string>) {
    forall k :: 0 <= k < |branches| ==> WellBracketed(branches[k], 0)
  }

  lemma {:induction false} BarsRead(branches: seq<string>, rest: string)
    requires branches != [] && BranchesRead(branches) && rest != "" && rest[0] == ')'
    ensures var got := ReadBranches(Bars(Written(branches)) + rest);
            if AllOk(branches) then got == Some(Got(Meant(branches), rest)) else Misread(got, Meant(branches))
    decreases |branches|
  {
    hide ReadItems, Text, Items, WellBracketed, ReadBranches, Bars;
    var first := branches[0];
    if |branches| == 1 {
      assert Stops(rest) && ReadsAsMeant(branches[0], 0, rest);
      OneBar(Written(branches));
      LastBranch(first, rest);
      assert Meant(branches) == [Sequence(Items(first, 0))];
      assert AllOk(branches) <==> WellBracketed(first, 0);
    } else {
      var others := branches[1..];
      forall k, r | 0 <= k < |others| && Stops(r) ensures ReadsAsMeant(others[k], 0, r) {
        assert others[k] == branches[k + 1];
      }
      assert Written(branches)[1..] == Written(others);
      MoreBars(Written(branches));
      BarsRead(others, rest);
      assert Meant(branches) == [Sequence(Items(first, 0))] + Meant(others);
      assert AllOk(branches) <==> WellBracketed(first, 0) && AllOk(others) by {
        if WellBracketed(first, 0) && AllOk(others) {
          forall k | 0 <= k < |branches| ensures WellBracketed(branches[k], 0) {
            if k > 0 { assert branches[k] == others[k - 1]; }
          }
        }
      }
      var tail := "|" + (Bars(Written(others)) + rest);
      assert Stops(tail) && ReadsAsMeant(branches[0], 0, tail);
      FirstBranch(first, Bars(Written(others)), rest, Meant(others));
      assert Text(first, 0) + "|" + Bars(Written(others)) + rest == Text(first, 0) + ("|" + (Bars(Written(others)) + rest));
    }
  }

  lemma OneBar(texts: seq<string>)
    requires |texts| == 1
    ensures Bars(texts) == texts[0]
  {
  }

  lemma MoreBars(texts: seq<string>)
    requires |texts| > 1
    ensures Bars(texts) == texts[0] + "|" + Bars(texts[1..])
  {
  }

  lemma LastBranch(branch: string, rest: string)
    requires rest != "" && rest[0] == ')' && ReadsAsMeant(branch, 0, rest)
    ensures var got, meant := ReadBranches(Text(branch, 0) + rest), [Sequence(Items(branch, 0))];
            if WellBracketed(branch, 0) then got == Some(Got(meant, rest)) else Misread(got, meant)
  {
    hide ReadItems, Text, Items, WellBracketed;
  }

  lemma FirstBranch(branch: string, text: string, rest: string, others: seq<Regex>)
    requires ReadsAsMeant(branch, 0, "|" + (text + rest))
    ensures var got := ReadBranches(Text(branch, 0) + ("|" + (text + rest)));
            var more, meant := ReadBranches(text + rest), [Sequence(Items(branch, 0))] + others;
            && (WellBracketed(branch, 0) && more == Some(Got(others, rest)) ==> got == Some(Got(meant, rest)))
            && (!WellBracketed(branch, 0) || Misread(more, others) ==> Misread(got, meant))
  {
    hide Text, Items, WellBracketed, ReadItems;
    var tail := "|" + (text + rest);
    assert tail[1..] == text + rest;
    var got, meant := ReadBranches(Text(branch, 0) + tail), [Sequence(Items(branch, 0))] + others;
    if WellBracketed(branch, 0) {
      if Misread(ReadBranches(text + rest), others) && got.Some? {
        assert got.value.value[1..] != meant[1..];
      }
    } else if got.Some? {
      assert got.value.value[0] != meant[0];
    }
  }

  lemma GroupTokenReads(p: string, i: nat, rest: string, branches: seq<string>)
    requires i < |p| && !Spans(p, i) && p[i] == '{' && MatchingBrace(p, i).Some? && Calm(rest)
    requires branches == Split(p[i + 1..MatchingBrace(p, i).value]) && BranchesRead(branches)
    ensures TokenReadsAsMeant(p, i, rest)
  {
    hide ReadBranches, ReadItem, MatchingBrace, Split, Bars, BranchesRead, WellBracketed;
    var inner := Bars(Written(branches));
    BarsRead(branches, ")" + rest);
    assert Written(branches) == TextsOf(branches, |p|);
    assert GroupOf(branches, |p|) == Group(Meant(branches)) by {
      assert GroupOf(branches, |p|).branches == Meant(branches);
    }
    GroupItemReads(inner, Meant(branches), rest);
    assert TokenOk(p, i) <==> AllOk(branches);
    assert TokenAt(p, i).text == "(?:" + inner + ")";
  }

  lemma GroupItemReads(inner: string, meant: seq<Regex>, rest: string)
    requires Calm(rest)
    ensures var got, item := ReadBranches(inner + (")" + rest)), ReadItem("(?:" + inner + ")" + rest);
            && (got == Some(Got(meant, ")" + rest)) ==> item == Some(Got(Group(meant), rest)))
            && (Misread(got, meant) ==> Misread(item, Group(meant)))
  {
    hide ReadBranches;
    var s := "(?:" + inner + ")" + rest;
    assert s[3..] == inner + (")" + rest);
    assert (")" + rest)[1..] == rest;
  }

  lemma PlainTokenReads(p: string, i: nat, rest: string)
    requires i < |p| && !Spans(p, i) && p[i] != '?' && Calm(rest)
    requires p[i] == '{' ==> MatchingBrace(p, i).None?
    requires p[i] == '[' ==> FindBracketEnd(p, i + 2).None?
    ensures TokenReadsAsMeant(p, i, rest)
  {
    hide ReadItem;
    CharReads(p[i], rest);
  }

  /** One item, and a run behind it. */
  lemma ItemThenItems(s: string, item: Regex, tail: string, items: seq<Regex>, rest: string, itemOk: bool, itemsOk: bool)
    requires !Stops(s)
    requires if itemOk then ReadItem(s) == Some(Got(item, tail)) else Misread(ReadItem(s), item)
    requires if itemsOk then ReadItems(tail) == Some(Got(items, rest)) else Misread(ReadItems(tail), items)
    ensures var got, meant := ReadItems(s), [item] + items;
            if itemOk && itemsOk then got == Some(Got(meant, rest)) else Misread(got, meant)
  {
    hide ReadItem, Stops;
    var got, meant := ReadItems(s), [item] + items;
    if got.Some? && itemOk && !itemsOk {
      assert got.value.value[1..] != meant[1..];
    }
    if got.Some? && !itemOk {
      assert got.value.value[0] != meant[0];
    }
  }

  /** One token, and the rest of the pattern behind it. */
  lemma TokenThenRest(p: string, i: nat, rest: string)
    requires i < |p| && Stops(rest)
    requires ReadsAsMeant(p, TokenAt(p, i).next, rest)
    requires TokenReadsAsMeant(p, i, Text(p, TokenAt(p, i).next) + rest)
    ensures ReadsAsMeant(p, i, rest)
  {
    hide TokenAt, TokenOk, ReadItem, ReadItems, Misread, Stops, Calm;
    var token := TokenAt(p, i);
    var tail := Text(p, token.next) + rest;
    var s := Text(p, i) + rest;
    TextStep(p, i);
    assert s == token.text + tail;
    TokenStarts(p, i, tail);
    ItemThenItems(s, token.item, tail, Items(p, token.next), rest, TokenOk(p, i), WellBracketed(p, token.next));
  }

  /** Read back, the text is the expression that was meant exactly when every bracket expression of the
      pattern is in order. */
  lemma {:induction false} TextReadsBack(p: string, i: nat, rest: string)
    requires Stops(rest)
    ensures ReadsAsMeant(p, i, rest)
    decreases |p|, |p| - i
  {
    hide ReadItems, TokenAt, Text, Items, WellBracketed, ReadsAsMeant, TokenReadsAsMeant, Split, MatchingBrace, FindBracketEnd;
    if i >= |p| {
      NothingReads(p, i, rest);
    } else {
      var next := TokenAt(p, i).next;
      var tail := Text(p, next) + rest;
      TextReadsBack(p, next, rest);
      TextStarts(p, next, rest);
      if Spans(p, i) || p[i] == '?' {
        SpanReads(p, i, tail);
      } else if p[i] == '{' && MatchingBrace(p, i).Some? {
        var branches := Split(p[i + 1..MatchingBrace(p, i).value]);
        forall k, r | 0 <= k < |branches| && Stops(r) ensures ReadsAsMeant(branches[k], 0, r) {
          TextReadsBack(branches[k], 0, r);
        }
        GroupTokenReads(p, i, tail, branches);
      } else if p[i] == '[' && FindBracketEnd(p, i + 2).Some? {
        BracketTokenReads(p, i, tail);
      } else {
        PlainTokenReads(p, i, tail);
      }
      TokenThenRest(p, i, rest);
    }
  }

  lemma NothingReads(p: string, i: nat, rest: string)
    requires i >= |p| && Stops(rest)
    ensures ReadsAsMeant(p, i, rest)
  {
    assert Text(p, i) + rest == rest;
  }

  // ---------------------------------------------------------------- main results

  /** The text handed to the compiler. */
  function Anchored(p: string): string {
    "^" + Text(p, 0) + "$"
  }

  /** The compiler reads the expression that was meant exactly when no bracket expression of the
      pattern, in branches too, negates nothing or holds a range that runs backwards. */
  lemma CompilesAsMeantExactlyWhenWellBracketed(p: string)
    ensures Compile(Anchored(p)) == Some(Items(p, 0)) <==> WellBracketed(p, 0)
  {
    hide ReadItems, Text, Items, WellBracketed;
    assert Anchored(p)[1..] == Text(p, 0) + "$";
    TextReadsBack(p, 0, "$");
  }

  /** For such patterns the compiled filter is the direct matcher, save that it forgives one final line
      break. */
  lemma FilterIsTheMatcher(p: string, path: string)
    requires WellBracketed(p, 0)
    ensures Filters(Anchored(p), path) <==>
            Matches(p, 0, path) ||
            (path != "" && path[|path| - 1] == '\n' && Matches(p, 0, path[..|path| - 1]))
  {
    hide Compile, Items, Matches, WellBracketed, Anchored, InAll;
    CompilesAsMeantExactlyWhenWellBracketed(p);
    TranslationAcceptsExactlyTheMatches(p, 0, path);
    if path != "" {
      TranslationAcceptsExactlyTheMatches(p, 0, path[..|path| - 1]);
    }
  }

  // ---------------------------------------------------------------- a negation of nothing

  const NEGATES_NOTHING := "[!]a[b]"

  lemma {:induction false} NoRangesInside(members: string)
    requires forall k :: 0 <= k < |members| ==> members[k] != '-' && members[k] != '\\'
    ensures Double(members) == members && |Ranges(members)| == |members|
    ensures forall k :: 0 <= k < |members| ==> Ranges(members)[k] == Range(members[k], members[k])
  {
    if members != "" {
      NoRangesInside(members[1..]);
      assert [members[0]] + members[1..] == members;
    }
  }

  lemma BracketToken(p: string, i: nat, close: nat)
    requires i < |p| && p[i] == '[' && FindBracketEnd(p, i + 2) == Some(close)
    ensures TokenAt(p, i) == Token(BracketText(p[i + 1..close]), One(ClassOf(p[i + 1..close])), close + 1)
  {
    hide BracketText, ClassOf, FindBracketEnd, Escape;
    NoStars(p, i);
  }

  lemma LetterToken(p: string, i: nat)
    requires i < |p| && IsAlnum(p[i])
    ensures TokenAt(p, i) == Token([p[i]], One(Only(p[i])), i + 1)
  {
    NoStars(p, i);
  }

  lemma NegationTokens()
    ensures var p := NEGATES_NOTHING;
            && TokenAt(p, 0) == Token("[^]", One(ClassOf("!")), 3)
            && TokenAt(p, 3) == Token("a", One(Only('a')), 4)
            && TokenAt(p, 4) == Token("[b]", One(ClassOf("b")), 7)
  {
    hide TokenAt, ClassOf, Double;
    var p := NEGATES_NOTHING;
    assert FindBracketEnd(p, 2) == Some(2) && FindBracketEnd(p, 6) == Some(6);
    assert p[1..2] == "!" && p[5..6] == "b";
    NoRangesInside("^");
    NoRangesInside("b");
    assert BracketBody("!") == "^" && BracketText("!") == "[^]" && BracketText("b") == "[b]";
    BracketToken(p, 0, 2);
    LetterToken(p, 3);
    BracketToken(p, 4, 6);
  }

  lemma NegationText()
    ensures Text(NEGATES_NOTHING, 0) == "[^]a[b]"
  {
    hide TokenAt, Text;
    var p := NEGATES_NOTHING;
    NegationTokens();
    TextStep(p, 0);
    TextStep(p, 3);
    TextStep(p, 4);
    TextStep(p, 7);
    assert "[^]" + ("a" + ("[b]" + "")) == "[^]a[b]";
  }

  lemma NoStars(p: string, i: nat)
    requires i < |p| && p[i] != '*' && p[i] != '/'
    ensures !Spans(p, i)
  {
    TwoAt(p, i, "**");
    if i + 3 <= |p| { assert p[i..i + 3][0] == p[i]; }
  }

  const MISREAD_CLASS := Set(true, Ranges("]a[b"))

  lemma NegationReads()
    ensures Compile(Anchored(NEGATES_NOTHING)) == Some([One(MISREAD_CLASS)])
  {
    hide ReadMembers, Ranges, Double, Text, ReadItem, ReadItems;
    NegationText();
    assert Anchored(NEGATES_NOTHING)[1..] == "[^]a[b]$";
    NoRangesInside("]a[b");
    MembersRead("]a[b", "$", false);
    assert "]a[b" + "]" + "$" == "]a[b]$";
    assert "[^]a[b]$"[1..] == "^]a[b]$" && "^]a[b]$"[1..] == "]a[b]$";
    assert ReadAtom("[^]a[b]$") == Some(Got(One(MISREAD_CLASS), "$"));
    AtomReads("[^]a[b]$", One(MISREAD_CLASS), "$");
    ItemsStop("$");
    ItemsStep("[^]a[b]$", One(MISREAD_CLASS), "$");
    assert [One(MISREAD_CLASS)] + [] == [One(MISREAD_CLASS)];
  }

  lemma NegationFilters()
    ensures Filters(Anchored(NEGATES_NOTHING), "z")
  {
    hide Anchored, Compile, Ranges;
    NegationReads();
    NoRangesInside("]a[b");
    assert Admits(MISREAD_CLASS, 'z');
    LastMeans(One(MISREAD_CLASS), "z");
  }

  lemma {:induction false} BracketMatches(p: string, i: nat, close: nat, s: string)
    requires i < |p| && p[i] == '[' && FindBracketEnd(p, i + 2) == Some(close)
    ensures Matches(p, i, s) ==> s != "" && Matches(p, close + 1, s[1..])
  {
    hide FindBracketEnd, ClassOf;
    NoStars(p, i);
  }

  lemma {:induction false} LetterMatches(p: string, i: nat, s: string)
    requires i < |p| && IsAlnum(p[i])
    ensures Matches(p, i, s) ==> s != ""
  {
    NoStars(p, i);
  }

  /** `[!]a[b]` is compiled to one negated class, which swallows the brackets in between: the filter
      accepts the path `z`, although the pattern asks for an `a`. */
  lemma EmptyNegationIsMisread()
    ensures Filters(Anchored(NEGATES_NOTHING), "z") && !Matches(NEGATES_NOTHING, 0, "z")
    ensures !WellBracketed(NEGATES_NOTHING, 0)
  {
    hide Filters, Matches, Anchored, TokenAt, ClassOf, Ascending;
    var p := NEGATES_NOTHING;
    NegationFilters();
    assert FindBracketEnd(p, 2) == Some(2) && p[1..2] == "!";
    BracketMatches(p, 0, 2, "z");
    LetterMatches(p, 3, "z"[1..]);
    NoStars(p, 0);
    assert !BracketOk("!");
  }

  /** On its own it is not compiled at all. */
  lemma EmptyNegationAloneIsRejected(rest: string)
    requires forall k :: 0 <= k < |rest| ==> rest[k] != ']' && rest[k] != '-' && rest[k] != '\\'
    ensures ReadItem("[^]" + rest) == None
  {
    var s := "[^]" + rest;
    assert s[1..] == "^]" + rest && s[1..][1..] == "]" + rest && ("]" + rest)[1..] == rest;
    NeverCloses(rest);
  }

  lemma {:induction false} NeverCloses(rest: string)
    requires forall k :: 0 <= k < |rest| ==> rest[k] != ']' && rest[k] != '-' && rest[k] != '\\'
    ensures ReadMembers(rest, true) == None
  {
    if rest != "" { NeverCloses(rest[1..]); }
  }
}
