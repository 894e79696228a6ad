/** The regular expressions the filters are compiled to: what they mean, and how their text is read.
    The reader follows Python's `re` on the syntax below; text that it rejects, or that goes beyond
    that syntax, is not read. */
module RegexSyntax {
  import opened Prelude

  datatype Range = Range(lo: char, hi: char)

  datatype CharSet = NotNewline | Only(c: char) | Set(negated: bool, ranges: seq<Range>)

  const NOT_SLASH := Set(true, [Range('/', '/')])

  datatype Regex =
    | One(chars: CharSet)
    | Star(chars: CharSet)
    | Optional(items: seq<Regex>)
    | Sequence(items: seq<Regex>)
    | Group(branches: seq<Regex>)

  predicate Admits(chars: CharSet, c: char) {
    match chars
    case NotNewline => c != '\n'
    case Only(d) => c == d
    case Set(negated, ranges) => negated != exists r :: r in ranges && r.lo <= c <= r.hi
  }

  /** The language of one expression. */
  ghost predicate In(r: Regex, s: string)
    decreases r, |s|, 1
  {
    match r
    case One(chars) => |s| == 1 && Admits(chars, s[0])
    case Star(chars) => s == "" || (Admits(chars, s[0]) && In(r, s[1..]))
    case Optional(items) => s == "" || InAll(items, s)
    case Sequence(items) => InAll(items, s)
    case Group(branches) => exists k :: 0 <= k < |branches| && In(branches[k], s)
  }

  /** The language of expressions written one after another. */
  ghost predicate InAll(items: seq<Regex>, s: string)
    decreases items, |s|, 0
  {
    if items == [] then s == ""
    else exists k :: 0 <= k <= |s| && In(items[0], s[..k]) && InAll(items[1..], s[k..])
  }

  // ---------------------------------------------------------------- writing

  const SPECIAL: set<char> :=
    {'(', ')', '[', ']', '{', '}', '?', '*', '+', '-', '|', '^', '$', '\\', '.', '&', '~', '#', ' ',
     '\t', '\n', '\r', '\U{00000B}', '\U{00000C}'}

  /** A character that stands for itself. */
  function Escape(c: char): string {
    if c in SPECIAL then ['\\', c] else [c]
  }

  // ---------------------------------------------------------------- reading

  /** What was read, and the text after it. */
  datatype Got<T> = Got(value: T, rest: string)

  predicate IsAlnum(c: char) {
    '0' <= c <= '9' || 'a' <= c <= 'z' || 'A' <= c <= 'Z'
  }

  const QUANTIFIERS: set<char> := {'*', '?', '+', '{'}

  /** No quantifier stands here. */
  predicate Calm(s: string) {
    s == "" || s[0] !in QUANTIFIERS
  }

  /** A run of items ends here. */
  predicate Stops(s: string) {
    s == "" || s[0] == '|' || s[0] == ')' || s[0] == '$'
  }

  /** One member of a class; a backslash takes the next character as it is. */
  function ReadMember(s: string): (r: Option<Got<char>>)
    ensures r.Some? ==> |r.value.rest| < |s|
  {
    if s == "" then None
    else if s[0] != '\\' then Some(Got(s[0], s[1..]))
    else if |s| >= 2 && !IsAlnum(s[1]) then Some(Got(s[1], s[2..]))
    else None
  }

  /** The members of a class up to its closing bracket, which cannot be the first of them. */
  function ReadMembers(s: string, any: bool): (r: Option<Got<seq<Range>>>)
    ensures r.Some? ==> |r.value.rest| < |s| && (!any ==> r.value.value != [])
    decreases |s|
  {
    if s != "" && s[0] == ']' && any then Some(Got([], s[1..]))
    else
      match ReadMember(s)
      case None => None
      case Some(Got(lo, rest)) =>
        if rest == "" || rest[0] != '-' then Prepend([Range(lo, lo)], ReadMembers(rest, true))
        else if |rest| >= 2 && rest[1] == ']' then Some(Got([Range(lo, lo), Range('-', '-')], rest[2..]))
        else
          match ReadMember(rest[1..])
          case None => None
          case Some(Got(hi, rest')) =>
            if hi < lo then None else Prepend([Range(lo, hi)], ReadMembers(rest', true))
  }

  function Prepend<T>(first: seq<T>, got: Option<Got<seq<T>>>): Option<Got<seq<T>>> {
    match got
    case None => None
    case Some(Got(others, rest)) => Some(Got(first + others, rest))
  }

  /** A class, after its opening bracket. */
  function ReadClass(s: string): (r: Option<Got<CharSet>>)
    ensures r.Some? ==> |r.value.rest| < |s|
  {
    var negated := s != "" && s[0] == '^';
    match ReadMembers(if negated then s[1..] else s, false)
    case None => None
    case Some(Got(ranges, rest)) => Some(Got(Set(negated, ranges), rest))
  }

  function ReadAtom(s: string): (r: Option<Got<Regex>>)
    requires s != ""
    ensures r.Some? ==> |r.value.rest| < |s|
    decreases |s|, 0
  {
    var c := s[0];
    if c == '.' then Some(Got(One(NotNewline), s[1..]))
    else if c == '[' then
      match ReadClass(s[1..])
      case None => None
      case Some(Got(chars, rest)) => Some(Got(One(chars), rest))
    else if c == '\\' then
      if |s| >= 2 && !IsAlnum(s[1]) then Some(Got(One(Only(s[1])), s[2..])) else None
    else if c == '(' then
      if |s| >= 3 && s[1] == '?' && s[2] == ':' then
        match ReadBranches(s[3..])
        case None => None
        case Some(Got(branches, rest)) =>
          if rest != "" && rest[0] == ')' then Some(Got(Group(branches), rest[1..])) else None
      else None
    else if c in QUANTIFIERS || c == '|' || c == ')' || c == '^' || c == '$' then None
    else Some(Got(One(Only(c)), s[1..]))
  }

  /** What an optional group holds. */
  function Inner(atom: Regex): seq<Regex> {
    if atom.Group? && |atom.branches| == 1 && atom.branches[0].Sequence? then atom.branches[0].items else [atom]
  }

  /** An atom and its quantifier, if it has one. */
  function ReadItem(s: string): (r: Option<Got<Regex>>)
    requires s != ""
    ensures r.Some? ==> |r.value.rest| < |s|
    decreases |s|, 1
  {
    match ReadAtom(s)
    case None => None
    case Some(Got(atom, rest)) =>
      if Calm(rest) then Some(Got(atom, rest))
      else if !Calm(rest[1..]) then None
      else if rest[0] == '*' && atom.One? then Some(Got(Star(atom.chars), rest[1..]))
      else if rest[0] == '?' then Some(Got(Optional(Inner(atom)), rest[1..]))
      else None
  }

  function ReadItems(s: string): (r: Option<Got<seq<Regex>>>)
    ensures r.Some? ==> |r.value.rest| <= |s|
    decreases |s|, 2
  {
    if Stops(s) then Some(Got([], s))
    else
      match ReadItem(s)
      case None => None
      case Some(Got(item, rest)) => Prepend([item], ReadItems(rest))
  }

  function ReadBranches(s: string): (r: Option<Got<seq<Regex>>>)
    ensures r.Some? ==> |r.value.rest| <= |s|
    decreases |s|, 3
  {
    match ReadItems(s)
    case None => None
    case Some(Got(items, rest)) =>
      if rest != "" && rest[0] == '|' then Prepend([Sequence(items)], ReadBranches(rest[1..]))
      else Some(Got([Sequence(items)], rest))
  }

  /** An expression anchored at both ends. */
  function Compile(text: string): Option<seq<Regex>> {
    if text == "" || text[0] != '^' then None
    else
      match ReadItems(text[1..])
      case Some(Got(items, "$")) => Some(items)
      case _ => None
  }

  /** The path matches an expression anchored at both ends; the end anchor also accepts one line break
      after the match. */
  ghost predicate Filters(text: string, path: string) {
    match Compile(text)
    case None => false
    case Some(items) =>
      || InAll(items, path)
      || (path != "" && path[|path| - 1] == '\n' && InAll(items, path[..|path| - 1]))
  }
}
