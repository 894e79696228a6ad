/** The per-session gate on briefs: a token budget, deduplication of payloads per path, and a
    cooldown per path, kept in two maps and a counter. */
module BriefGate {
  import opened Prelude

  const SESSION_TOKEN_BUDGET: nat := 1500
  const PATH_COOLDOWN_SECS: nat := 900
  const CHARS_PER_TOKEN: nat := 4

  datatype Decision = Served | Empty | Repeat | Cooldown | Budget | Unavailable

  type Payload = seq<bv8>

  datatype GateState = GateState(tokens: nat, served: map<string, nat>, lastPath: map<string, nat>)

  const FRESH := GateState(0, map[], map[])

  /** Tokens a payload is charged: its bytes over four, rounded up. */
  function Cost(payload: Payload): (c: nat)
    ensures |payload| <= c * CHARS_PER_TOKEN < |payload| + CHARS_PER_TOKEN
    ensures payload != [] ==> c >= 1
  {
    (|payload| + CHARS_PER_TOKEN - 1) / CHARS_PER_TOKEN
  }

  // ---------------------------------------------------------------- the dedup key

  const WRAP: nat := 0x1_0000_0000_0000_0000
  const PRIME: nat := 0x0000_0100_0000_01b3

  /** A 64-bit word. */
  type Word = h: nat | h < WRAP

  /** Bit by bit, where the two differ. */
  function Xor(a: nat, b: nat): nat
    decreases a + b
  {
    if a == 0 && b == 0 then 0 else 2 * Xor(a / 2, b / 2) + (a % 2 + b % 2) % 2
  }

  /** Mixing a byte into the word: exclusive-or, and a product that wraps. */
  function Mix(h: Word, b: bv8): Word {
    Xor(h, b as nat) * PRIME % WRAP
  }

  /** FNV-1a over 64 bits. */
  function Fnv(payload: Payload): Word {
    if payload == [] then 0xcbf2_9ce4_8422_2325
    else Mix(Fnv(payload[..|payload| - 1]), payload[|payload| - 1])
  }

  function Digest(payload: Payload): nat {
    Fnv(payload)
  }

  method ComputeDigest(payload: Payload) returns (h: Word)
    ensures h == Fnv(payload)
  {
    hide Mix;
    h := 0xcbf2_9ce4_8422_2325;
    for i := 0 to |payload|
      invariant h == Fnv(payload[..i])
    {
      assert payload[..i + 1][..i] == payload[..i];
      h := Mix(h, payload[i]);
    }
    assert payload[..|payload|] == payload;
  }

  function AsByte(k: nat): bv8
    requires k < 256
  {
    k as bv8
  }

  lemma BackAndThere(b: bv8)
    ensures b as nat < 256 && AsByte(b as nat) == b
  {
  }

  lemma SameByte(b: bv8, c: bv8)
    requires b as nat == c as nat
    ensures b == c
  {
    hide AsByte;
    BackAndThere(b);
    BackAndThere(c);
  }

  lemma {:induction false} XorTellsApart(a: nat, b: nat, c: nat)
    ensures Xor(a, c) == Xor(b, c) ==> a == b
    ensures Xor(c, a) == Xor(c, b) ==> a == b
    decreases a + b + c
  {
    if a + b + c > 0 {
      XorTellsApart(a / 2, b / 2, c / 2);
    }
  }

  predicate PowerOfTwo(w: nat) {
    w == 1 || (w > 0 && w % 2 == 0 && PowerOfTwo(w / 2))
  }

  lemma {:induction false} XorStaysBelow(a: nat, b: nat, w: nat)
    requires PowerOfTwo(w) && a < w && b < w
    ensures Xor(a, b) < w
    decreases w
  {
    if w > 1 { XorStaysBelow(a / 2, b / 2, w / 2); }
  }

  lemma {:induction false} Doubled(w: nat)
    requires PowerOfTwo(w)
    ensures PowerOfTwo(2 * w)
  {
    assert 2 * w / 2 == w && w > 0;
  }

  lemma TimesSixteen(w: nat)
    requires PowerOfTwo(w)
    ensures PowerOfTwo(16 * w)
  {
    hide PowerOfTwo;
    Doubled(w);
    Doubled(2 * w);
    Doubled(4 * w);
    Doubled(8 * w);
  }

  lemma TimesWide(w: nat)
    requires PowerOfTwo(w)
    ensures PowerOfTwo(0x1_0000 * w)
  {
    hide PowerOfTwo;
    TimesSixteen(w);
    TimesSixteen(16 * w);
    TimesSixteen(256 * w);
    TimesSixteen(4096 * w);
  }

  lemma XorIsAWord(h: Word, b: bv8)
    ensures Xor(h, b as nat) < WRAP
  {
    TimesWide(1);
    TimesWide(0x1_0000);
    TimesWide(0x1_0000_0000);
    TimesWide(0x1_0000_0000_0000);
    XorStaysBelow(h, b as nat, WRAP);
  }

  const INVERSE: nat := 0xce96_5057_aff6_957b

  /** The prime has an inverse modulo the word size, so the wrapping product loses nothing. */
  lemma ProductTellsApart(x: nat, y: nat)
    requires x < WRAP && y < WRAP && x * PRIME % WRAP == y * PRIME % WRAP
    ensures x == y
  {
    var k := x * PRIME / WRAP - y * PRIME / WRAP;
    assert (x - y) * PRIME == k * WRAP;
    assert PRIME * INVERSE == 1 + 0xce_9650_590f * WRAP;
    assert x - y == WRAP * (k * INVERSE - 0xce_9650_590f * (x - y));
  }

  /** One step of the fold tells apart both the words it starts from and the bytes mixed in. */
  lemma MixTellsApart(h: Word, g: Word, b: bv8, c: bv8)
    ensures Mix(h, b) == Mix(g, b) ==> h == g
    ensures Mix(h, b) == Mix(h, c) ==> b == c
  {
    hide Xor;
    XorIsAWord(h, b);
    XorIsAWord(g, b);
    XorIsAWord(h, c);
    if Mix(h, b) == Mix(g, b) {
      ProductTellsApart(Xor(h, b as nat), Xor(g, b as nat));
      XorTellsApart(h, g, b as nat);
    }
    if Mix(h, b) == Mix(h, c) {
      ProductTellsApart(Xor(h, b as nat), Xor(h, c as nat));
      XorTellsApart(b as nat, c as nat, h);
      SameByte(b, c);
    }
  }

  /** Payloads of one length that differ in exactly one byte have different digests. */
  lemma {:induction false} OneByteChangesTheDigest(p: Payload, q: Payload, i: nat)
    requires i < |p| == |q| && p[i] != q[i] && forall j :: 0 <= j < |p| && j != i ==> p[j] == q[j]
    ensures Digest(p) != Digest(q)
  {
    hide Mix;
    var n := |p| - 1;
    if i < n {
      OneByteChangesTheDigest(p[..n], q[..n], i);
      MixTellsApart(Fnv(p[..n]), Fnv(q[..n]), p[n], p[n]);
    } else {
      assert p[..n] == q[..n];
      MixTellsApart(Fnv(p[..n]), Fnv(p[..n]), p[n], q[n]);
    }
  }

  function HexDigit(k: nat): (c: char)
    requires k < 16
    ensures c != '\0'
  {
    if k < 10 then ('0' as int + k) as char else ('a' as int + (k - 10)) as char
  }

  function Hex(d: nat): (s: string)
    ensures s != "" && forall i :: 0 <= i < |s| ==> s[i] != '\0'
  {
    if d < 16 then [HexDigit(d)] else Hex(d / 16) + [HexDigit(d % 16)]
  }

  function Key(path: string, digest: nat): string {
    path + "\0" + Hex(digest)
  }

  lemma HexDigitInjective(a: nat, b: nat)
    requires a < 16 && b < 16 && HexDigit(a) == HexDigit(b)
    ensures a == b
  {
  }

  lemma HexEnds(d: nat)
    ensures var s := Hex(d);
            && s[|s| - 1] == HexDigit(d % 16)
            && (if d < 16 then |s| == 1 else |s| > 1 && s[..|s| - 1] == Hex(d / 16))
  {
  }

  lemma {:induction false} HexInjective(a: nat, b: nat)
    requires Hex(a) == Hex(b)
    ensures a == b
  {
    hide Hex, HexDigit;
    HexEnds(a);
    HexEnds(b);
    HexDigitInjective(a % 16, b % 16);
    if a >= 16 {
      HexInjective(a / 16, b / 16);
    }
  }

  /** The key tells every (path, digest) pair apart, even when a path itself contains NUL. */
  lemma KeyInjective(p: string, d: nat, q: string, e: nat)
    ensures Key(p, d) == Key(q, e) <==> p == q && d == e
  {
    if Key(p, d) == Key(q, e) {
      var k := Key(p, d);
      assert k[|p|] == '\0' && k[|q|] == '\0';
      if |p| == |q| {
        assert p == k[..|p|] == q;
        assert Hex(d) == k[|p| + 1..] == Hex(e);
        HexInjective(d, e);
      }
    }
  }

  // ---------------------------------------------------------------- decisions on the compact state

  datatype Verdict = Verdict(decision: Decision, state: GateState)

  function DecideOn(s: GateState, path: string, payload: Payload, now: nat): Verdict {
    var cost := Cost(payload);
    var key := Key(path, Digest(payload));
    if s.tokens + cost > SESSION_TOKEN_BUDGET then Verdict(Budget, s)
    else if key in s.served then Verdict(Repeat, s)
    else if path in s.lastPath && now < s.lastPath[path] + PATH_COOLDOWN_SECS then Verdict(Cooldown, s)
    else Verdict(Served, GateState(s.tokens + cost, s.served[key := now], s.lastPath[path := now]))
  }

  /** The state as the gate keeps it, updated in place. */
  class Gate {
    var tokens: nat
    var served: map<string, nat>
    var lastPath: map<string, nat>

    function State(): GateState
      reads this
    {
      GateState(tokens, served, lastPath)
    }

    constructor (s: GateState)
      ensures State() == s
    {
      tokens, served, lastPath := s.tokens, s.served, s.lastPath;
    }

    method Decide(path: string, payload: Payload, now: nat) returns (decision: Decision)
      modifies this
      ensures Verdict(decision, State()) == DecideOn(old(State()), path, payload, now)
    {
      var cost := Cost(payload);
      if tokens + cost > SESSION_TOKEN_BUDGET {
        return Budget;
      }
      var digest := ComputeDigest(payload);
      var key := Key(path, digest);
      if key in served {
        return Repeat;
      }
      if path in lastPath {
        var elapsed := if now >= lastPath[path] then now - lastPath[path] else 0;
        if elapsed < PATH_COOLDOWN_SECS {
          return Cooldown;
        }
      }
      served := served[key := now];
      lastPath := lastPath[path := now];
      tokens := tokens + cost;
      decision := Served;
    }
  }

  // ---------------------------------------------------------------- decisions on the full history

  /** One brief charged to the session. */
  datatype Fire = Fire(path: string, digest: nat, cost: nat, at: nat)

  type History = seq<Fire>

  function Spent(h: History): nat {
    if h == [] then 0 else Spent(h[..|h| - 1]) + h[|h| - 1].cost
  }

  /** When `path` was last served. */
  function LastServed(h: History, path: string): Option<nat> {
    if h == [] then None
    else if h[|h| - 1].path == path then Some(h[|h| - 1].at)
    else LastServed(h[..|h| - 1], path)
  }

  predicate Went(h: History, path: string, digest: nat) {
    exists k :: 0 <= k < |h| && h[k].path == path && h[k].digest == digest
  }

  /** The rule, stated on everything ever served. */
  function DecideByHistory(h: History, path: string, payload: Payload, now: nat): Decision {
    if Spent(h) + Cost(payload) > SESSION_TOKEN_BUDGET then Budget
    else if Went(h, path, Digest(payload)) then Repeat
    else
      match LastServed(h, path)
      case Some(at) => if now < at + PATH_COOLDOWN_SECS then Cooldown else Served
      case None => Served
  }

  /** The compact state says exactly what the history says. */
  ghost predicate Represents(s: GateState, h: History) {
    && s.tokens == Spent(h)
    && (forall path, digest :: Key(path, digest) in s.served <==> Went(h, path, digest))
    && (forall path :: path in s.lastPath <==> LastServed(h, path).Some?)
    && (forall path :: path in s.lastPath ==> LastServed(h, path) == Some(s.lastPath[path]))
  }

  function FireOf(path: string, payload: Payload, now: nat): Fire {
    Fire(path, Digest(payload), Cost(payload), now)
  }

  lemma FreshRepresentsNothing()
    ensures Represents(FRESH, [])
  {
  }

  lemma ServingKeepsTheMapsTrue(s: GateState, h: History, fire: Fire)
    requires Represents(s, h)
    ensures Represents(GateState(s.tokens + fire.cost, s.served[Key(fire.path, fire.digest) := fire.at],
                                 s.lastPath[fire.path := fire.at]),
                       h + [fire])
  {
    hide Key, Went;
    var h' := h + [fire];
    assert h'[..|h|] == h;
    var served := s.served[Key(fire.path, fire.digest) := fire.at];
    forall p, d ensures Key(p, d) in served <==> Went(h', p, d) {
      KeyInjective(p, d, fire.path, fire.digest);
      WentGrows(h, fire, p, d);
    }
  }

  /** Deciding on the two maps and the counter is deciding on the full history. */
  lemma DecideRefinesHistory(s: GateState, h: History, path: string, payload: Payload, now: nat)
    requires Represents(s, h)
    ensures var v := DecideOn(s, path, payload, now);
            && v.decision == DecideByHistory(h, path, payload, now)
            && Represents(v.state, if v.decision == Served then h + [FireOf(path, payload, now)] else h)
  {
    hide Key, Digest, Went, Cost;
    assert Key(path, Digest(payload)) in s.served <==> Went(h, path, Digest(payload));
    ServingKeepsTheMapsTrue(s, h, FireOf(path, payload, now));
  }

  lemma WentGrows(h: History, fire: Fire, path: string, digest: nat)
    ensures Went(h + [fire], path, digest) <==> Went(h, path, digest) || (fire.path == path && fire.digest == digest)
  {
    var h' := h + [fire];
    if Went(h, path, digest) {
      var k :| 0 <= k < |h| && h[k].path == path && h[k].digest == digest;
      assert h'[k] == h[k];
    }
    if fire.path == path && fire.digest == digest {
      assert h'[|h|] == fire;
    }
  }

  // ---------------------------------------------------------------- what every session keeps

  /** Nothing goes out twice, a path waits out its cooldown, every fire costs something, and the
      session stays within its budget. */
  ghost predicate Lawful(h: History) {
    && (forall k :: 0 <= k < |h| ==> h[k].cost >= 1)
    && (forall j, k :: 0 <= j < k < |h| && h[j].path == h[k].path ==>
          h[j].digest != h[k].digest && h[k].at >= h[j].at + PATH_COOLDOWN_SECS)
    && Spent(h) <= SESSION_TOKEN_BUDGET
  }

  lemma {:induction false} LastServedIsLatest(h: History, path: string)
    requires Lawful(h)
    ensures LastServed(h, path).None? ==> forall k :: 0 <= k < |h| ==> h[k].path != path
    ensures LastServed(h, path).Some? ==>
              forall k :: 0 <= k < |h| && h[k].path == path ==> h[k].at <= LastServed(h, path).value
  {
    if h != [] {
      var last, rest := h[|h| - 1], h[..|h| - 1];
      if last.path != path {
        assert Lawful(rest);
        LastServedIsLatest(rest, path);
      }
    }
  }

  /** The payload of this digest went out for this path before. */
  predicate Repeats(f: Fire, path: string, digest: nat) {
    f.path == path && f.digest == digest
  }

  /** The path has not waited out its cooldown since this fire. */
  predicate Blocks(f: Fire, path: string, now: nat) {
    f.path == path && now < f.at + PATH_COOLDOWN_SECS
  }

  /** In a lawful session the four decisions mean exactly this: no budget left for the payload; or it
      went out for the path before; or some brief for the path is too recent; or none of these. */
  lemma DecidesExactly(h: History, path: string, payload: Payload, now: nat)
    requires Lawful(h)
    ensures var d, digest := DecideByHistory(h, path, payload, now), Digest(payload);
            var fits := Spent(h) + Cost(payload) <= SESSION_TOKEN_BUDGET;
            && (d == Budget <==> !fits)
            && (d == Repeat <==> fits && exists f :: f in h && Repeats(f, path, digest))
            && (d == Cooldown <==>
                  fits && (forall f :: f in h ==> !Repeats(f, path, digest)) && exists f :: f in h && Blocks(f, path, now))
            && (d == Served <==>
                  fits && forall f :: f in h ==> !Repeats(f, path, digest) && !Blocks(f, path, now))
  {
    hide Digest, Cost, Spent;
    LastServedIsLatest(h, path);
    LastServedHappened(h, path);
    WentIsRepeat(h, path, Digest(payload));
    forall f | f in h && f.path == path ensures LastServed(h, path).Some? && f.at <= LastServed(h, path).value {
      var k :| 0 <= k < |h| && h[k] == f;
    }
  }

  lemma WentIsRepeat(h: History, path: string, digest: nat)
    ensures Went(h, path, digest) <==> exists f :: f in h && Repeats(f, path, digest)
  {
    if k: nat :| k < |h| && h[k].path == path && h[k].digest == digest {
      assert h[k] in h && Repeats(h[k], path, digest);
    }
    if f :| f in h && Repeats(f, path, digest) {
      var k :| 0 <= k < |h| && h[k] == f;
    }
  }

  lemma {:induction false} LastServedHappened(h: History, path: string)
    ensures LastServed(h, path).Some? ==> exists f :: f in h && f.path == path && f.at == LastServed(h, path).value
  {
    if h != [] && h[|h| - 1].path != path {
      LastServedHappened(h[..|h| - 1], path);
    } else if h != [] {
      assert h[|h| - 1] in h;
    }
  }

  /** Whatever the clock does, a decision to serve keeps the session lawful. */
  lemma ServingKeepsTheLaw(h: History, path: string, payload: Payload, now: nat)
    requires Lawful(h) && payload != [] && DecideByHistory(h, path, payload, now) == Served
    ensures Lawful(h + [FireOf(path, payload, now)])
  {
    var fire := FireOf(path, payload, now);
    var h' := h + [fire];
    assert h'[..|h|] == h;
    LastServedIsLatest(h, path);
    forall j, k | 0 <= j < k < |h'| && h'[j].path == h'[k].path
      ensures h'[j].digest != h'[k].digest && h'[k].at >= h'[j].at + PATH_COOLDOWN_SECS
    {
      if k == |h| {
        assert h[j].path == path && !Went(h, path, fire.digest);
      }
    }
  }

  lemma {:induction false} EveryFireCosts(h: History)
    requires forall k :: 0 <= k < |h| ==> h[k].cost >= 1
    ensures |h| <= Spent(h)
  {
    if h != [] { EveryFireCosts(h[..|h| - 1]); }
  }

  function Without(h: History, k: nat): (rest: History)
    requires k < |h|
    ensures |rest| == |h| - 1
  {
    h[..k] + h[k + 1..]
  }

  lemma {:induction false} SpentWithout(h: History, k: nat)
    requires k < |h|
    ensures Spent(h) == Spent(Without(h, k)) + h[k].cost
  {
    var n := |h| - 1;
    if k < n {
      SpentWithout(h[..n], k);
      assert Without(h, k)[..n - 1] == Without(h[..n], k);
    } else {
      assert Without(h, k) == h[..n];
    }
  }

  lemma CountWithout(h: History, k: nat)
    requires k < |h|
    ensures multiset(h) == multiset{h[k]} + multiset(Without(h, k))
  {
    assert h == h[..k] + [h[k]] + h[k + 1..];
  }

  /** Fires drawn from a history cost no more than the whole history. */
  lemma {:induction false} PartSpendsLess(part: History, whole: History)
    requires multiset(part) <= multiset(whole)
    ensures Spent(part) <= Spent(whole)
    decreases |part|
  {
    hide Spent, Without;
    if part == [] {
      NothingSpent();
    } else {
      var n := |part| - 1;
      var last, rest := part[n], Without(part, n);
      SpentWithout(part, n);
      CountWithout(part, n);
      assert last in multiset(whole);
      var k :| 0 <= k < |whole| && whole[k] == last;
      SpentWithout(whole, k);
      CountWithout(whole, k);
      CancelOne(last, multiset(rest), multiset(Without(whole, k)));
      PartSpendsLess(rest, Without(whole, k));
    }
  }

  lemma NothingSpent()
    ensures Spent([]) == 0
  {
  }
}
