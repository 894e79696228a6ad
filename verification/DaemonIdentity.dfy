/** How a daemon is recognised: the pid file it prints and others parse, and the control frame that
    asks the daemon of a record to answer or to stop. */
module DaemonIdentity {
  import opened Lexis
  import opened Prelude

  type Byte = b: nat | b < 256
  type Nonce = n: seq<Byte> | |n| == 32 witness seq(32, i => 0)

  datatype DaemonPid = DaemonPid(pid: int, startTicks: Option<nat>, nonce: Option<Nonce>)

  const I32_MAX: int := 0x7fff_ffff
  const U64_MAX: int := 0xffff_ffff_ffff_ffff

  /** White space as the parser trims it; the key separator is none. */
  ghost predicate Plain(t: CharTables) {
    Sane(t) && !t.space('=') && !t.space('_')
  }

  // ---------------------------------------------------------------- numbers and bytes as text

  function Digit(k: nat): (c: char)
    requires k < 10
    ensures '0' <= c <= '9'
  {
    ('0' as int + k) as char
  }

  function Dec(n: nat): (s: string)
    ensures s != "" && forall i :: 0 <= i < |s| ==> '0' <= s[i] <= '9'
  {
    if n < 10 then [Digit(n)] else Dec(n / 10) + [Digit(n % 10)]
  }

  /** The value of a string of decimal digits; None when empty or when another character occurs. */
  function ParseDigits(s: string): Option<nat> {
    if s == "" then None
    else
      var c := s[|s| - 1];
      if !('0' <= c <= '9') then None
      else
        var d := c as int - '0' as int;
        if |s| == 1 then Some(d)
        else
          match ParseDigits(s[..|s| - 1])
          case None => None
          case Some(n) => Some(10 * n + d)
  }

  function ParseU64(s: string): Option<nat> {
    var digits := if s != "" && s[0] == '+' then s[1..] else s;
    match ParseDigits(digits)
    case None => None
    case Some(n) => if n <= U64_MAX then Some(n) else None
  }

  function ParseI32(s: string): Option<int> {
    var negative := s != "" && s[0] == '-';
    var digits := if s != "" && (s[0] == '+' || s[0] == '-') then s[1..] else s;
    match ParseDigits(digits)
    case None => None
    case Some(m) =>
      var n: int := m;
      if negative then (if n <= I32_MAX + 1 then Some(-n) else None)
      else if n <= I32_MAX then Some(n) else None
  }

  lemma {:induction false} DecParses(n: nat)
    ensures ParseDigits(Dec(n)) == Some(n)
  {
    if n >= 10 {
      DecParses(n / 10);
      assert Dec(n)[..|Dec(n)| - 1] == Dec(n / 10);
      assert |Dec(n / 10)| > 0;
    }
  }

  function Nibble(k: nat): (c: char)
    requires k < 16
    ensures '0' <= c <= '9' || 'a' <= c <= 'f'
  {
    if k < 10 then ('0' as int + k) as char else ('a' as int + (k - 10)) as char
  }

  function NibbleValue(c: char): Option<nat> {
    if '0' <= c <= '9' then Some(c as int - '0' as int)
    else if 'a' <= c <= 'f' then Some(c as int - 'a' as int + 10)
    else if 'A' <= c <= 'F' then Some(c as int - 'A' as int + 10)
    else None
  }

  function EncodeHex(bytes: seq<Byte>): (s: string)
    ensures |s| == 2 * |bytes|
    ensures forall i :: 0 <= i < |s| ==> '0' <= s[i] <= '9' || 'a' <= s[i] <= 'f'
  {
    if bytes == [] then "" else [Nibble(bytes[0] / 16), Nibble(bytes[0] % 16)] + EncodeHex(bytes[1..])
  }

  function DecodeHex(s: string): Option<seq<Byte>> {
    if s == "" then Some([])
    else if |s| == 1 then None
    else
      match (NibbleValue(s[0]), NibbleValue(s[1]), DecodeHex(s[2..]))
      case (Some(h), Some(l), Some(rest)) =>
        assert h < 16 && l < 16;
        Some([16 * h + l] + rest)
      case _ => None
  }

  lemma {:induction false} HexRoundTrip(bytes: seq<Byte>)
    ensures DecodeHex(EncodeHex(bytes)) == Some(bytes)
  {
    if bytes != [] {
      HexRoundTrip(bytes[1..]);
      assert EncodeHex(bytes)[2..] == EncodeHex(bytes[1..]);
      assert bytes == [bytes[0]] + bytes[1..];
    }
  }

  // ---------------------------------------------------------------- lines, keys and values

  function TrimEnd(t: CharTables, s: string): string {
    if s != "" && t.space(s[|s| - 1]) then TrimEnd(t, s[..|s| - 1]) else s
  }

  function TrimStart(t: CharTables, s: string): string {
    if s != "" && t.space(s[0]) then TrimStart(t, s[1..]) else s
  }

  function Trim(t: CharTables, s: string): string {
    TrimEnd(t, TrimStart(t, s))
  }

  /** Where `c` first occurs, or the length. */
  function Find(s: string, c: char): (k: nat)
    ensures k <= |s| && (k < |s| ==> s[k] == c) && forall i :: 0 <= i < k ==> s[i] != c
  {
    if s == "" || s[0] == c then 0 else 1 + Find(s[1..], c)
  }

  function DropReturn(line: string): string {
    if line != "" && line[|line| - 1] == '\r' then line[..|line| - 1] else line
  }

  function Lines(s: string): seq<string>
    decreases |s|
  {
    if s == "" then []
    else
      var k := Find(s, '\n');
      if k < |s| then [DropReturn(s[..k])] + Lines(s[k + 1..]) else [s]
  }

  function KeyOf(t: CharTables, line: string): string {
    Trim(t, line[..Find(line, '=')])
  }

  function ValueOf(t: CharTables, line: string): string {
    var k := Find(line, '=');
    if k < |line| then Trim(t, line[k + 1..]) else ""
  }

  predicate HasKey(t: CharTables, line: string, key: string) {
    '=' in line && KeyOf(t, line) == key
  }

  // ---------------------------------------------------------------- the pid file

  /** What the lines so far set. */
  datatype Fields = Fields(pid: Option<int>, startTicks: Option<nat>, nonce: Option<Nonce>)

  const UNSET := Fields(None, None, None)

  function ParseNonce(s: string): Option<Nonce> {
    match DecodeHex(s)
    case Some(bytes) => if |bytes| == 32 then Some(bytes) else None
    case None => None
  }

  /** One line; None rejects the whole file. */
  function ReadLine(t: CharTables, fields: Fields, line: string): Option<Fields> {
    if '=' !in line then Some(fields)
    else
      var key, value := KeyOf(t, line), ValueOf(t, line);
      if key == "pid" then
        var pid := ParseI32(value);
        Some(fields.(pid := if pid.Some? && pid.value > 0 then pid else None))
      else if key == "start_time_ticks" then
        var ticks := ParseU64(value);
        if ticks.Some? then Some(fields.(startTicks := ticks)) else None
      else if key == "control_nonce" then
        var nonce := ParseNonce(value);
        if nonce.Some? then Some(fields.(nonce := nonce)) else None
      else Some(fields)
  }

  function ReadLines(t: CharTables, fields: Fields, lines: seq<string>): Option<Fields>
    decreases |lines|
  {
    if lines == [] then Some(fields)
    else
      match ReadLine(t, fields, lines[0])
      case None => None
      case Some(next) => ReadLines(t, next, lines[1..])
  }

  function Finish(fields: Option<Fields>): Option<DaemonPid> {
    match fields
    case Some(Fields(Some(pid), ticks, nonce)) => Some(DaemonPid(pid, ticks, nonce))
    case _ => None
  }

  function Parse(t: CharTables, contents: string): Option<DaemonPid> {
    var trimmed := Trim(t, contents);
    if trimmed == "" then None
    else
      match ParseI32(trimmed)
      case Some(pid) => if pid > 0 then Some(DaemonPid(pid, None, None)) else None
      case None => Finish(ReadLines(t, UNSET, Lines(contents)))
  }

  /** The parser, line by line. */
  method ParsePidFile(t: CharTables, contents: string) returns (record: Option<DaemonPid>)
    ensures record == Parse(t, contents)
  {
    var trimmed := Trim(t, contents);
    if trimmed == "" {
      return None;
    }
    var legacy := ParseI32(trimmed);
    if legacy.Some? {
      return if legacy.value > 0 then Some(DaemonPid(legacy.value, None, None)) else None;
    }
    var pid, startTicks, nonce := None, None, None;
    var lines := Lines(contents);
    for k := 0 to |lines|
      invariant ReadLines(t, UNSET, lines) == ReadLines(t, Fields(pid, startTicks, nonce), lines[k..])
    {
      var line := lines[k];
      assert lines[k..][0] == line && lines[k..][1..] == lines[k + 1..];
      if '=' !in line {
        continue;
      }
      var key, value := KeyOf(t, line), ValueOf(t, line);
      if key == "pid" {
        pid := ParseI32(value);
        if pid.Some? && pid.value <= 0 {
          pid := None;
        }
      } else if key == "start_time_ticks" {
        startTicks := ParseU64(value);
        if startTicks.None? {
          return None;
        }
      } else if key == "control_nonce" {
        nonce := ParseNonce(value);
        if nonce.None? {
          return None;
        }
      }
    }
    assert lines[|lines|..] == [];
    record := Finish(Some(Fields(pid, startTicks, nonce)));
  }

  function PidLine(pid: int): string
    requires pid > 0
  {
    "pid" + "=" + Dec(pid)
  }

  function NonceLine(nonce: Nonce): string {
    "control_nonce" + "=" + EncodeHex(nonce)
  }

  function StartLine(ticks: nat): string {
    "start_time_ticks" + "=" + Dec(ticks)
  }

  /** What a starting daemon writes. */
  function Print(pid: int, startTicks: Option<nat>, nonce: Nonce): string
    requires pid > 0
  {
    PidLine(pid) + "\n" + (NonceLine(nonce) + "\n" + if startTicks.Some? then StartLine(startTicks.value) + "\n" else "")
  }

  // ---------------------------------------------------------------- round trip

  lemma {:induction false} FindAfter(a: string, rest: string, c: char)
    requires c !in a
    ensures Find(a + [c] + rest, c) == |a|
  {
    if a != "" {
      assert (a + [c] + rest)[1..] == a[1..] + [c] + rest;
      assert a[0] in a;
      forall x | x in a[1..] ensures x in a {}
      FindAfter(a[1..], rest, c);
    } else {
      assert a + [c] + rest == [c] + rest;
    }
  }

  predicate OneLine(line: string) {
    line != "" && '\n' !in line && line[|line| - 1] != '\r'
  }

  lemma LinesStep(line: string, rest: string)
    requires OneLine(line)
    ensures Lines(line + "\n" + rest) == [line] + Lines(rest)
  {
    hide Lines, Find;
    FindAfter(line, rest, '\n');
    var s := line + "\n" + rest;
    LinesUnfold(s);
    assert s[..|line|] == line && s[|line| + 1..] == rest;
  }

  lemma {:induction false} LinesUnfold(s: string)
    requires s != ""
    ensures var k := Find(s, '\n');
            Lines(s) == if k < |s| then [DropReturn(s[..k])] + Lines(s[k + 1..]) else [s]
  {
    hide DropReturn, Find;
  }

  lemma TrimSolid(t: CharTables, s: string)
    requires s == "" || (!t.space(s[0]) && !t.space(s[|s| - 1]))
    ensures Trim(t, s) == s
  {
  }

  /** Letters, digits and underscores: nothing a key or a printed value is trimmed of. */
  predicate Solid(s: string) {
    forall i :: 0 <= i < |s| ==> '0' <= s[i] <= '9' || 'a' <= s[i] <= 'z' || s[i] == '_'
  }

  lemma LineReads(t: CharTables, key: string, value: string)
    requires Plain(t) && Solid(key) && Solid(value) && key != "" && value != ""
    ensures var line := key + "=" + value;
            && '=' in line && KeyOf(t, line) == key && ValueOf(t, line) == value
            && OneLine(line)
  {
    var line := key + "=" + value;
    FindAfter(key, value, '=');
    assert line[|key|] == '=';
    assert line[..|key|] == key && line[|key| + 1..] == value;
    SolidIsTrimmed(t, key);
    SolidIsTrimmed(t, value);
    assert line[|line| - 1] == value[|value| - 1];
    forall i | 0 <= i < |line| ensures line[i] != '\n' {
      if i < |key| { assert line[i] == key[i]; } else if i > |key| { assert line[i] == value[i - |key| - 1]; }
    }
  }

  lemma SolidIsTrimmed(t: CharTables, s: string)
    requires Plain(t) && Solid(s)
    ensures Trim(t, s) == s
  {
    if s != "" {
      assert IsWord(t, s[0]) && IsWord(t, s[|s| - 1]);
      TrimSolid(t, s);
    }
  }

  lemma PrintedNumber(n: nat)
    ensures Solid(Dec(n)) && Dec(n) != "" && Dec(n)[0] != '+' && Dec(n)[0] != '-'
    ensures n <= U64_MAX ==> ParseU64(Dec(n)) == Some(n)
    ensures n <= I32_MAX ==> ParseI32(Dec(n)) == Some(n)
  {
    DecParses(n);
  }

  lemma PidLineReads(t: CharTables, fields: Fields, pid: int)
    requires Plain(t) && 0 < pid <= I32_MAX
    ensures ReadLine(t, fields, PidLine(pid)) == Some(fields.(pid := Some(pid)))
    ensures OneLine(PidLine(pid))
  {
    hide Find, KeyOf, ValueOf, Trim, Dec, ParseI32, DecodeHex, ParseU64;
    PrintedNumber(pid);
    LineReads(t, "pid", Dec(pid));
  }

  lemma StartLineReads(t: CharTables, fields: Fields, ticks: nat)
    requires Plain(t) && ticks <= U64_MAX
    ensures ReadLine(t, fields, StartLine(ticks)) == Some(fields.(startTicks := Some(ticks)))
    ensures OneLine(StartLine(ticks))
  {
    hide Find, KeyOf, ValueOf, Trim, Dec, ParseI32, DecodeHex, ParseU64;
    PrintedNumber(ticks);
    LineReads(t, "start_time_ticks", Dec(ticks));
  }

  lemma NonceLineReads(t: CharTables, fields: Fields, nonce: Nonce)
    requires Plain(t)
    ensures ReadLine(t, fields, NonceLine(nonce)) == Some(fields.(nonce := Some(nonce)))
    ensures OneLine(NonceLine(nonce))
  {
    hide Find, KeyOf, ValueOf, Trim, EncodeHex, DecodeHex, ParseI32, ParseU64;
    HexRoundTrip(nonce);
    LineReads(t, "control_nonce", EncodeHex(nonce));
  }

  lemma StartsWithP(t: CharTables, s: string)
    requires Plain(t) && s != "" && s[0] == 'p'
    ensures Trim(t, s) != "" && Trim(t, s)[0] == 'p' && ParseI32(Trim(t, s)).None?
  {
    assert IsWord(t, 'p');
    TrimEndKeepsStart(t, s);
    NotANumber(Trim(t, s));
  }

  lemma {:induction false} TrimEndKeepsStart(t: CharTables, s: string)
    requires s != "" && !t.space(s[0])
    ensures TrimEnd(t, s) != "" && TrimEnd(t, s)[0] == s[0]
  {
    if t.space(s[|s| - 1]) { TrimEndKeepsStart(t, s[..|s| - 1]); }
  }

  lemma {:induction false} NotANumber(s: string)
    requires s != "" && s[0] == 'p'
    ensures ParseI32(s).None?
  {
    StopsDigits(s, 0);
  }

  lemma {:induction false} StopsDigits(s: string, k: nat)
    requires k < |s| && !('0' <= s[k] <= '9')
    ensures ParseDigits(s).None?
  {
    if k < |s| - 1 { StopsDigits(s[..|s| - 1], k); }
  }

  lemma PrintedLines(pid: int, startTicks: Option<nat>, nonce: Nonce)
    requires pid > 0
    requires OneLine(PidLine(pid)) && OneLine(NonceLine(nonce))
    requires startTicks.Some? ==> OneLine(StartLine(startTicks.value))
    ensures Lines(Print(pid, startTicks, nonce)) ==
            [PidLine(pid), NonceLine(nonce)] + if startTicks.Some? then [StartLine(startTicks.value)] else []
  {
    hide PidLine, NonceLine, StartLine;
    var tail := if startTicks.Some? then StartLine(startTicks.value) + "\n" else "";
    if startTicks.Some? {
      LinesStep(StartLine(startTicks.value), "");
      assert StartLine(startTicks.value) + "\n" + "" == tail;
      assert Lines(tail) == [StartLine(startTicks.value)];
    } else {
      assert Lines(tail) == [];
    }
    LinesStep(NonceLine(nonce), tail);
    LinesStep(PidLine(pid), NonceLine(nonce) + "\n" + tail);
  }

  /** Parsing what a daemon printed gives back its pid, start time and nonce. */
  lemma PidFileRoundTrips(t: CharTables, pid: int, startTicks: Option<nat>, nonce: Nonce)
    requires Plain(t) && 0 < pid <= I32_MAX && (startTicks.Some? ==> startTicks.value <= U64_MAX)
    ensures Parse(t, Print(pid, startTicks, nonce)) == Some(DaemonPid(pid, startTicks, Some(nonce)))
  {
    hide ReadLine, Trim, ParseI32, Lines, NonceLine, StartLine;
    assert Print(pid, startTicks, nonce)[0] == 'p';
    StartsWithP(t, Print(pid, startTicks, nonce));
    hide PidLine, Print;
    var f1 := UNSET.(pid := Some(pid));
    var f2 := f1.(nonce := Some(nonce));
    PidLineReads(t, UNSET, pid);
    NonceLineReads(t, f1, nonce);
    var two := [PidLine(pid), NonceLine(nonce)];
    if startTicks.Some? {
      var third := StartLine(startTicks.value);
      StartLineReads(t, f2, startTicks.value);
      PrintedLines(pid, startTicks, nonce);
      assert two + [third] == [PidLine(pid), NonceLine(nonce), third];
      ReadThree(t, PidLine(pid), NonceLine(nonce), StartLine(startTicks.value), f1, f2, f2.(startTicks := startTicks));
    } else {
      PrintedLines(pid, startTicks, nonce);
      assert two + [] == two;
      ReadTwo(t, PidLine(pid), NonceLine(nonce), f1, f2);
    }
  }

  lemma ReadTwo(t: CharTables, a: string, b: string, f1: Fields, f2: Fields)
    requires ReadLine(t, UNSET, a) == Some(f1) && ReadLine(t, f1, b) == Some(f2)
    ensures ReadLines(t, UNSET, [a, b]) == Some(f2)
  {
    assert [a, b][1..] == [b] && [b][1..] == [];
    assert ReadLines(t, f1, [b]) == Some(f2);
  }

  lemma ReadThree(t: CharTables, a: string, b: string, c: string, f1: Fields, f2: Fields, f3: Fields)
    requires ReadLine(t, UNSET, a) == Some(f1) && ReadLine(t, f1, b) == Some(f2) && ReadLine(t, f2, c) == Some(f3)
    ensures ReadLines(t, UNSET, [a, b, c]) == Some(f3)
  {
    assert [a, b, c][1..] == [b, c] && [b, c][1..] == [c] && [c][1..] == [];
    assert ReadLines(t, f2, [c]) == Some(f3);
    assert ReadLines(t, f1, [b, c]) == Some(f3);
  }

  // ---------------------------------------------------------------- files that hold only a pid

  ghost predicate White(t: CharTables, s: string) {
    forall c :: c in s ==> t.space(c)
  }

  lemma {:induction false} TrimStartDrops(t: CharTables, before: string, s: string)
    requires White(t, before) && s != "" && !t.space(s[0])
    ensures TrimStart(t, before + s) == s
  {
    if before == "" {
      assert before + s == s;
    } else {
      assert (before + s)[1..] == before[1..] + s;
      TrimStartDrops(t, before[1..], s);
    }
  }

  lemma {:induction false} TrimEndDrops(t: CharTables, s: string, after: string)
    requires White(t, after) && s != "" && !t.space(s[|s| - 1])
    ensures TrimEnd(t, s + after) == s
  {
    if after == "" {
      assert s + after == s;
    } else {
      assert (s + after)[..|s + after| - 1] == s + after[..|after| - 1];
      TrimEndDrops(t, s, after[..|after| - 1]);
    }
  }

  lemma {:induction false} NothingToRead(t: CharTables, fields: Fields, lines: seq<string>)
    requires forall k :: 0 <= k < |lines| ==> '=' !in lines[k]
    ensures ReadLines(t, fields, lines) == Some(fields)
  {
    if lines != [] {
      assert '=' !in lines[0];
      NothingToRead(t, fields, lines[1..]);
    }
  }

  /** A file of the older form, a decimal number and white space around it, is read as that pid alone,
      or rejected when no process can have that number. */
  lemma OlderFilesHoldTheirPid(t: CharTables, before: string, n: nat, after: string)
    requires Plain(t) && White(t, before) && White(t, after)
    ensures Parse(t, before + Dec(n) + after) == if 0 < n <= I32_MAX then Some(DaemonPid(n, None, None)) else None
  {
    hide Dec, ParseDigits, Lines, ReadLines, Trim;
    var s, contents := Dec(n), before + Dec(n) + after;
    forall i | 0 <= i < |s| ensures !t.space(s[i]) {
      assert IsWord(t, s[i]);
    }
    TrimsToNumber(t, before, s, after);
    DecParses(n);
    forall k | 0 <= k < |Lines(contents)| ensures '=' !in Lines(contents)[k] {
      LinesComeFromTheText(contents, k);
    }
    NothingToRead(t, UNSET, Lines(contents));
  }

  lemma TrimsToNumber(t: CharTables, before: string, s: string, after: string)
    requires White(t, before) && White(t, after) && s != "" && !t.space(s[0]) && !t.space(s[|s| - 1])
    ensures Trim(t, before + s + after) == s
  {
    hide TrimStart, TrimEnd;
    assert before + s + after == before + (s + after);
    TrimStartDrops(t, before, s + after);
    TrimEndDrops(t, s, after);
  }

  // ---------------------------------------------------------------- no nonce is ever dropped

  lemma {:induction false} NonceStays(t: CharTables, fields: Fields, lines: seq<string>)
    requires ReadLines(t, fields, lines).Some?
    requires fields.nonce.Some? || exists k :: 0 <= k < |lines| && HasKey(t, lines[k], "control_nonce")
    ensures ReadLines(t, fields, lines).value.nonce.Some?
    decreases |lines|
  {
    if lines != [] {
      var next := ReadLine(t, fields, lines[0]).value;
      if fields.nonce.None? && !HasKey(t, lines[0], "control_nonce") {
        var k :| 0 <= k < |lines| && HasKey(t, lines[k], "control_nonce");
        assert HasKey(t, lines[1..][k - 1], "control_nonce");
      }
      NonceStays(t, next, lines[1..]);
    }
  }

  lemma {:induction false} TrimKeeps(t: CharTables, s: string, c: char)
    requires !t.space(c) && c in s
    ensures c in TrimStart(t, s) && c in TrimEnd(t, s)
  {
    if s != "" {
      if t.space(s[0]) {
        assert s == [s[0]] + s[1..];
        TrimKeeps(t, s[1..], c);
      }
      if t.space(s[|s| - 1]) {
        assert s == s[..|s| - 1] + [s[|s| - 1]];
        TrimKeeps(t, s[..|s| - 1], c);
      }
    }
  }

  lemma {:induction false} LinesComeFromTheText(s: string, k: nat)
    requires k < |Lines(s)|
    ensures forall c :: c in Lines(s)[k] ==> c in s
    decreases |s|
  {
    var n := Find(s, '\n');
    if k > 0 {
      LinesComeFromTheText(s[n + 1..], k - 1);
    }
  }

  lemma EqualsIsNoNumber(t: CharTables, contents: string)
    requires Plain(t) && '=' in contents
    ensures Trim(t, contents) != "" && ParseI32(Trim(t, contents)).None?
  {
    TrimKeeps(t, contents, '=');
    TrimKeeps(t, TrimStart(t, contents), '=');
    var trimmed := Trim(t, contents);
    var i :| 0 <= i < |trimmed| && trimmed[i] == '=';
    if trimmed[0] == '+' || trimmed[0] == '-' {
      StopsDigits(trimmed[1..], i - 1);
    } else {
      StopsDigits(trimmed, i);
    }
  }

  /** A text with a nonce line is rejected or gives a record with a nonce; it is never taken for a
      record of the older form that has none. */
  lemma NonceIsNeverDropped(t: CharTables, contents: string, record: DaemonPid)
    requires Plain(t) && Parse(t, contents) == Some(record)
    requires exists k :: 0 <= k < |Lines(contents)| && HasKey(t, Lines(contents)[k], "control_nonce")
    ensures record.nonce.Some?
  {
    hide Trim, ParseI32, Lines, ReadLines, KeyOf, Plain;
    var k :| 0 <= k < |Lines(contents)| && HasKey(t, Lines(contents)[k], "control_nonce");
    LinesComeFromTheText(contents, k);
    EqualsIsNoNumber(t, contents);
    NonceStays(t, UNSET, Lines(contents));
  }

  // ---------------------------------------------------------------- the control frame

  const REQUEST_BYTES: nat := 37

  /** A 32-bit integer in big-endian two's complement. */
  function BigEndian(pid: int): (b: seq<Byte>)
    requires -0x8000_0000 <= pid <= I32_MAX
    ensures |b| == 4
  {
    var u := if pid >= 0 then pid else pid + 0x1_0000_0000;
    [u / 256 / 256 / 256, u / 256 / 256 % 256, u / 256 % 256, u % 256]
  }

  lemma BigEndianInjective(p: int, q: int)
    requires -0x8000_0000 <= p <= I32_MAX && -0x8000_0000 <= q <= I32_MAX
    ensures BigEndian(p) == BigEndian(q) <==> p == q
  {
    if BigEndian(p) == BigEndian(q) {
      var u := if p >= 0 then p else p + 0x1_0000_0000;
      var v := if q >= 0 then q else q + 0x1_0000_0000;
      assert BigEndian(p)[0] == BigEndian(q)[0] && BigEndian(p)[1] == BigEndian(q)[1];
      assert BigEndian(p)[2] == BigEndian(q)[2] && BigEndian(p)[3] == BigEndian(q)[3];
      assert u / 256 / 256 == v / 256 / 256;
      assert u / 256 == v / 256;
      assert u == v;
    }
  }

  function Frame(pid: int, nonce: Nonce, stop: bool): (frame: seq<Byte>)
    requires -0x8000_0000 <= pid <= I32_MAX
    ensures |frame| == REQUEST_BYTES
  {
    [if stop then '!' as int else '?' as int] + BigEndian(pid) + nonce
  }

  /** The client fills a fixed buffer in place. */
  method FillRequest(message: array<Byte>, pid: int, nonce: Nonce, stop: bool)
    requires message.Length == REQUEST_BYTES && -0x8000_0000 <= pid <= I32_MAX
    modifies message
    ensures message[..] == Frame(pid, nonce, stop)
  {
    message[0] := if stop then '!' as int else '?' as int;
    var bytes := BigEndian(pid);
    for i := 0 to 4
      invariant message[0] == if stop then '!' as int else '?' as int
      invariant forall k :: 0 <= k < i ==> message[1 + k] == bytes[k]
    {
      message[1 + i] := bytes[i];
    }
    for i := 0 to 32
      invariant message[0] == if stop then '!' as int else '?' as int
      invariant forall k :: 0 <= k < 4 ==> message[1 + k] == bytes[k]
      invariant forall k :: 0 <= k < i ==> message[5 + k] == nonce[k]
    {
      message[5 + i] := nonce[i];
    }
    assert message[..1] + message[1..5] + message[5..] == message[..];
    assert message[1..5] == bytes && message[5..] == nonce;
  }

  datatype Answer = Foreign | Interrupted | Refused | Alive | Stopping

  /** The daemon's end of a control connection.  `received` is what the peer sent before it closed the
      connection or the time to read was up; bytes after the first frame are never looked at. */
  method Accept(peer: nat, uid: nat, received: seq<Byte>, pid: int, nonce: Nonce) returns (answer: Answer)
    requires -0x8000_0000 <= pid <= I32_MAX
    ensures answer == Foreign <==> peer != uid
    ensures answer == Interrupted <==> peer == uid && |received| < REQUEST_BYTES
    ensures answer == Alive <==> peer == uid && Frame(pid, nonce, false) <= received
    ensures answer == Stopping <==> peer == uid && Frame(pid, nonce, true) <= received
  {
    if peer != uid {
      return Foreign;
    }
    if |received| < REQUEST_BYTES {
      return Interrupted;
    }
    var message := received[..REQUEST_BYTES];
    assert forall stop :: Frame(pid, nonce, stop) <= received <==> message == Frame(pid, nonce, stop);
    assert message == message[..1] + message[1..5] + message[5..];
    assert Frame(pid, nonce, true)[..1] == ['!' as int] && Frame(pid, nonce, false)[..1] == ['?' as int];
    assert forall stop :: Frame(pid, nonce, stop)[1..5] == BigEndian(pid) && Frame(pid, nonce, stop)[5..] == nonce;
    if (message[0] != '?' as int && message[0] != '!' as int) || message[1..5] != BigEndian(pid) || message[5..] != nonce {
      return Refused;
    }
    answer := if message[0] == '!' as int then Stopping else Alive;
  }

  lemma FramesAreInjective(p: int, n: Nonce, s: bool, q: int, m: Nonce, r: bool)
    requires -0x8000_0000 <= p <= I32_MAX && -0x8000_0000 <= q <= I32_MAX
    ensures Frame(p, n, s) == Frame(q, m, r) <==> p == q && n == m && s == r
  {
    var f, g := Frame(p, n, s), Frame(q, m, r);
    BigEndianInjective(p, q);
    if f == g {
      assert f[1..5] == BigEndian(p) && g[1..5] == BigEndian(q);
      assert f[5..] == n && g[5..] == m;
      assert f[0] == g[0];
    }
  }

  /** A stop built from a daemon's printed pid file stops that daemon and no other. */
  lemma StopReachesOnlyItsDaemon(t: CharTables, pid: int, startTicks: Option<nat>, nonce: Nonce, other: int, theirs: Nonce)
    requires Plain(t) && 0 < pid <= I32_MAX && (startTicks.Some? ==> startTicks.value <= U64_MAX)
    requires 0 < other <= I32_MAX
    ensures var record := Parse(t, Print(pid, startTicks, nonce));
            && record.Some? && record.value.nonce.Some? && 0 < record.value.pid <= I32_MAX
            && (Frame(record.value.pid, record.value.nonce.value, true) == Frame(other, theirs, true) <==>
                other == pid && theirs == nonce)
  {
    PidFileRoundTrips(t, pid, startTicks, nonce);
    FramesAreInjective(pid, nonce, true, other, theirs, true);
  }
}
