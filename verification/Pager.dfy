/** Charging a page of search results against a byte budget, and padding a control arm with random
    rows until its page must cost exactly that budget.  Texts are their UTF-8 bytes. */
module Pager {
  import opened Prelude

  type Bytes = seq<bv8>

  datatype Row = Row(path: Bytes, content: Bytes)

  const LF: bv8 := 10

  function Header(row: Row): Bytes {
    row.path + [LF]
  }

  function Body(row: Row): Bytes {
    row.content + [LF]
  }

  /** What an unlimited page would charge: path LF content LF, row after row. */
  function Stream(rows: seq<Row>): Bytes {
    if rows == [] then [] else Stream(rows[..|rows| - 1]) + Header(rows[|rows| - 1]) + Body(rows[|rows| - 1])
  }

  /** How many bytes of the stream a budget pays for; no budget pays for all of them. */
  function Paid(rows: seq<Row>, budget: Option<int>): nat {
    match budget
    case None => |Stream(rows)|
    case Some(b) => Min(Max(0, b), |Stream(rows)|)
  }

  datatype Page = Page(emitted: seq<Row>, bytes: nat, truncated: bool, hashed: Bytes)

  /** Where row k starts in the stream. */
  function Start(rows: seq<Row>, k: nat): nat
    requires k <= |rows|
  {
    if k == 0 then 0 else Start(rows, k - 1) + |Header(rows[k - 1])| + |Body(rows[k - 1])|
  }

  lemma {:induction false} RowsStartInOrder(rows: seq<Row>, j: nat, k: nat)
    requires j < k <= |rows|
    ensures Start(rows, j) + |Header(rows[j])| + |Body(rows[j])| <= Start(rows, k)
  {
    if j < k - 1 { RowsStartInOrder(rows, j, k - 1); }
  }

  /** The stream up to row k, row k, and the rest. */
  lemma {:induction false} StreamAt(rows: seq<Row>, k: nat)
    requires k <= |rows|
    ensures |Stream(rows[..k])| == Start(rows, k) && Stream(rows[..k]) <= Stream(rows)
    ensures k < |rows| ==>
              Stream(rows[..k + 1]) == Stream(rows[..k]) + Header(rows[k]) + Body(rows[k]) <= Stream(rows)
    decreases |rows| - k
  {
    if k < |rows| {
      StreamAt(rows, k + 1);
      assert rows[..k + 1][..k] == rows[..k];
    } else {
      assert rows[..k] == rows;
      StartIsLength(rows, k);
    }
  }

  lemma {:induction false} StartIsLength(rows: seq<Row>, k: nat)
    requires k <= |rows|
    ensures |Stream(rows[..k])| == Start(rows, k)
  {
    if k > 0 {
      StartIsLength(rows, k - 1);
      assert rows[..k][..k - 1] == rows[..k - 1];
    }
  }

  /** Row k is on the page exactly when its whole header was paid for; what it shows is the paid part
      of its body. */
  ghost predicate Shows(rows: seq<Row>, paid: nat, emitted: seq<Row>) {
    && |emitted| <= |rows|
    && (forall k :: 0 <= k < |rows| ==> (k < |emitted| <==> Start(rows, k) + |Header(rows[k])| <= paid))
    && (forall k :: 0 <= k < |emitted| ==>
         && emitted[k].path == rows[k].path
         && emitted[k].content == Cut(Body(rows[k]), paid - Start(rows, k) - |Header(rows[k])|))
  }

  function Cut(bytes: Bytes, n: int): Bytes {
    bytes[..Min(|bytes|, Max(0, n))]
  }

  /** The page charges and hashes exactly the paid prefix of the stream, and says truncated exactly
      when something was left unpaid. */
  ghost predicate Correct(rows: seq<Row>, budget: Option<int>, page: Page) {
    var paid := Paid(rows, budget);
    && page.hashed == Stream(rows)[..paid]
    && page.bytes == paid
    && (page.truncated <==> paid < |Stream(rows)|)
    && Shows(rows, paid, page.emitted)
  }

  /** The state of the loop before row k: everything so far was paid for in full. */
  ghost predicate PaidInFull(rows: seq<Row>, budget: Option<int>, k: nat, used: nat, emitted: seq<Row>, hashed: Bytes)
    requires k <= |rows|
  {
    && hashed == Stream(rows[..k]) && used == Start(rows, k)
    && (budget.Some? ==> used <= Max(0, budget.value))
    && |emitted| == k
    && forall j :: 0 <= j < k ==> emitted[j] == Row(rows[j].path, Body(rows[j]))
  }

  lemma ShowsWhenStopped(rows: seq<Row>, k: nat, paid: nat, emitted: seq<Row>, shown: seq<Row>)
    requires k < |rows| && Start(rows, k) <= paid < Start(rows, k) + |Header(rows[k])| + |Body(rows[k])|
    requires |emitted| == k && forall j :: 0 <= j < k ==> emitted[j] == Row(rows[j].path, Body(rows[j]))
    requires var left := paid - Start(rows, k);
             shown == if left < |Header(rows[k])| then []
                      else [Row(rows[k].path, Cut(Body(rows[k]), left - |Header(rows[k])|))]
    ensures Shows(rows, paid, emitted + shown)
  {
    hide Start, Cut, Header, Body;
    forall j | 0 <= j < |rows| && j != k
      ensures j < k ==> Start(rows, j) + |Header(rows[j])| + |Body(rows[j])| <= paid
      ensures j < k ==> Cut(Body(rows[j]), paid - Start(rows, j) - |Header(rows[j])|) == Body(rows[j])
      ensures j > k ==> Start(rows, j) + |Header(rows[j])| > paid
    {
      if j < k {
        RowsStartInOrder(rows, j, k);
        CutWhole(Body(rows[j]), paid - Start(rows, j) - |Header(rows[j])|);
      } else {
        RowsStartInOrder(rows, k, j);
      }
    }
  }

  lemma CutWhole(bytes: Bytes, n: int)
    requires n >= |bytes|
    ensures Cut(bytes, n) == bytes
  {
  }

  lemma StopInRow(rows: seq<Row>, budget: int, k: nat, used: nat, emitted: seq<Row>, hashed: Bytes, more: Bytes, shown: seq<Row>)
    requires k < |rows| && PaidInFull(rows, Some(budget), k, used, emitted, hashed)
    requires Max(0, budget) < used + |Header(rows[k])| + |Body(rows[k])|
    requires more == (Header(rows[k]) + Body(rows[k]))[..Max(0, budget) - used]
    requires shown == if |more| < |Header(rows[k])| then []
                      else [Row(rows[k].path, Cut(Body(rows[k]), |more| - |Header(rows[k])|))]
    ensures Correct(rows, Some(budget), Page(emitted + shown, used + |more|, true, hashed + more))
  {
    hide Shows, Start, Stream;
    StreamAt(rows, k);
    var paid := Paid(rows, Some(budget));
    assert paid == used + |more|;
    assert Stream(rows)[..paid] == hashed + more by {
      assert Stream(rows)[..paid] == (hashed + Header(rows[k]) + Body(rows[k]))[..paid];
    }
    ShowsWhenStopped(rows, k, paid, emitted, shown);
  }

  lemma FinishAll(rows: seq<Row>, budget: Option<int>, used: nat, emitted: seq<Row>, hashed: Bytes)
    requires PaidInFull(rows, budget, |rows|, used, emitted, hashed)
    ensures Correct(rows, budget, Page(emitted, used, false, hashed))
  {
    hide Stream, Start, Header, Body;
    assert rows[..|rows|] == rows;
    StartIsLength(rows, |rows|);
    forall j | 0 <= j < |rows| ensures Start(rows, j) + |Header(rows[j])| + |Body(rows[j])| <= used {
      RowsStartInOrder(rows, j, |rows|);
    }
  }

  method MakePage(rows: seq<Row>, budget: Option<int>) returns (page: Page)
    ensures Correct(rows, budget, page)
  {
    hide Correct, Stream;
    assert rows[..0] == [];
    EmptyStream();
    var used: nat, emitted: seq<Row>, hashed: Bytes := 0, [], [];
    for k := 0 to |rows|
      invariant PaidInFull(rows, budget, k, used, emitted, hashed)
    {
      var header := Header(rows[k]);
      var available := if budget.None? then |header| else budget.value - used;
      if available < |header| {
        var part := header[..Max(0, available)];
        assert part == (header + Body(rows[k]))[..Max(0, available)];
        StopInRow(rows, budget.value, k, used, emitted, hashed, part, []);
        assert emitted + [] == emitted;
        return Page(emitted, used + |part|, true, hashed + part);
      }
      var body := Body(rows[k]);
      var count := if budget.None? then |body| else Min(|body|, available - |header|);
      var consumed := body[..count];
      if count != |body| {
        assert header + consumed == (header + body)[..|header| + count];
        StopInRow(rows, budget.value, k, used, emitted, hashed, header + consumed, [Row(rows[k].path, consumed)]);
        assert hashed + (header + consumed) == hashed + header + consumed;
        return Page(emitted + [Row(rows[k].path, consumed)], used + |header| + count, true, hashed + header + consumed);
      }
      StreamAt(rows, k);
      assert consumed == body;
      hashed := hashed + header + consumed;
      emitted := emitted + [Row(rows[k].path, consumed)];
      used := used + |header| + count;
    }
    FinishAll(rows, budget, used, emitted, hashed);
    page := Page(emitted, used, false, hashed);
  }

  lemma EmptyStream()
    ensures Stream([]) == []
  {
  }

  /** Two pages of the same rows: the smaller budget's bytes are a prefix of the larger one's. */
  lemma SmallerBudgetsArePrefixes(rows: seq<Row>, b: int, c: int, small: Page, large: Page)
    requires b <= c
    ensures Correct(rows, Some(b), small) && Correct(rows, Some(c), large) ==>
              small.hashed <= large.hashed && |small.emitted| <= |large.emitted|
  {
    var p, q := Paid(rows, Some(b)), Paid(rows, Some(c));
    assert Stream(rows)[..q][..p] == Stream(rows)[..p];
    if Correct(rows, Some(b), small) && |small.emitted| > 0 {
      var k := |small.emitted| - 1;
      assert Start(rows, k) + |Header(rows[k])| <= p <= q;
    }
  }

  // ---------------------------------------------------------------- the control arm

  /** The random source: the n-th shuffle and the n-th choice among some number of items. */
  datatype Random = Random(shuffle: (nat, seq<Bytes>) -> seq<Bytes>, pick: (nat, nat) -> nat)

  ghost predicate Fair(rng: Random) {
    && (forall n, xs :: multiset(rng.shuffle(n, xs)) == multiset(xs))
    && (forall n, count :: count > 0 ==> rng.pick(n, count) < count)
  }

  type Universe = map<Bytes, seq<Bytes>>

  /** Every row shows a chunk of its file. */
  ghost predicate Drawn(chunks: Universe, rows: seq<Row>) {
    forall k :: 0 <= k < |rows| ==> rows[k].path in chunks && rows[k].content in chunks[rows[k].path]
  }

  /** Pass after pass, each over every file once, in some order. */
  ghost predicate InPasses(rows: seq<Row>, paths: seq<Bytes>)
    requires paths != []
    decreases |rows|
  {
    || rows == []
    || (|rows| >= |paths| && multiset(PathsOf(LastPass(rows, paths))) == multiset(paths) &&
        InPasses(BeforeLastPass(rows, paths), paths))
  }

  function LastPass(rows: seq<Row>, paths: seq<Bytes>): seq<Row>
    requires |rows| >= |paths|
  {
    rows[|rows| - |paths|..]
  }

  function BeforeLastPass(rows: seq<Row>, paths: seq<Bytes>): seq<Row>
    requires |rows| >= |paths|
  {
    rows[..|rows| - |paths|]
  }

  function PathsOf(rows: seq<Row>): (paths: seq<Bytes>)
    ensures |paths| == |rows| && forall k :: 0 <= k < |rows| ==> paths[k] == rows[k].path
  {
    seq(|rows|, k requires 0 <= k < |rows| => rows[k].path)
  }

  lemma OnePassMore(rows: seq<Row>, pass: seq<Row>, order: seq<Bytes>, paths: seq<Bytes>)
    requires paths != [] && InPasses(rows, paths) && PathsOf(pass) == order && multiset(order) == multiset(paths)
    ensures |rows + pass| >= |paths| && BeforeLastPass(rows + pass, paths) == rows && InPasses(rows + pass, paths)
  {
    assert |multiset(order)| == |order| && |multiset(paths)| == |paths|;
    assert LastPass(rows + pass, paths) == pass;
  }

  /** One pass over the files, in the order given: a chunk of each. */
  method OnePass(chunks: Universe, order: seq<Bytes>, rng: Random, draws: nat) returns (pass: seq<Row>, size: nat)
    requires Fair(rng) && forall p :: p in order ==> p in chunks && chunks[p] != []
    ensures PathsOf(pass) == order && Drawn(chunks, pass) && size == |Stream(pass)| >= |order|
  {
    pass, size := [], 0;
    for k := 0 to |order|
      invariant |pass| == k && Drawn(chunks, pass) && size == |Stream(pass)| >= k
      invariant forall j :: 0 <= j < k ==> pass[j].path == order[j]
    {
      var contents := chunks[order[k]];
      var row := Row(order[k], contents[rng.pick(draws + k, |contents|)]);
      assert (pass + [row])[..k] == pass;
      pass := pass + [row];
      size := size + |Header(row) + Body(row)|;
    }
    assert PathsOf(pass) == order;
  }

  lemma {:induction false} StreamConcat(a: seq<Row>, b: seq<Row>)
    ensures |Stream(a + b)| == |Stream(a)| + |Stream(b)|
  {
    if b == [] {
      assert a + b == a;
    } else {
      assert (a + b)[..|a + b| - 1] == a + b[..|b| - 1];
      StreamConcat(a, b[..|b| - 1]);
    }
  }

  /** What has been drawn: whole passes over the files, `earlier` without the last one. */
  ghost predicate PassesDrawn(chunks: Universe, paths: seq<Bytes>, drawn: seq<Row>, earlier: seq<Row>, used: nat)
    requires paths != []
  {
    && Drawn(chunks, drawn) && used == |Stream(drawn)| && InPasses(drawn, paths)
    && (drawn != [] ==> |drawn| >= |paths| && BeforeLastPass(drawn, paths) == earlier)
  }

  lemma DrawnOnce(chunks: Universe, paths: seq<Bytes>, drawn: seq<Row>, earlier: seq<Row>, used: nat,
                  order: seq<Bytes>, pass: seq<Row>)
    requires paths != [] && PassesDrawn(chunks, paths, drawn, earlier, used) && Drawn(chunks, pass)
    requires PathsOf(pass) == order && multiset(order) == multiset(paths)
    ensures PassesDrawn(chunks, paths, drawn + pass, drawn, used + |Stream(pass)|)
  {
    hide Stream, InPasses;
    OnePassMore(drawn, pass, order, paths);
    StreamConcat(drawn, pass);
  }

  /** `paths` lists the files; the run is refused when there is none, or one without chunks. */
  method PlaceboRows(chunks: Universe, paths: seq<Bytes>, rng: Random, budget: Option<int>)
    returns (rows: Option<seq<Row>>)
    requires Fair(rng) && (set p | p in paths) == chunks.Keys
    ensures rows.None? <==> chunks == map[] || exists p :: p in chunks && chunks[p] == []
    ensures rows.Some? ==> rows.value != [] && Drawn(chunks, rows.value)
    ensures rows.Some? && budget.Some? ==> |Stream(rows.value)| >= budget.value
    ensures rows.Some? && budget.None? ==> |rows.value| == |paths|
    ensures rows.Some? ==> paths != [] && |rows.value| >= |paths| && InPasses(rows.value, paths)
    ensures rows.Some? && budget.Some? ==>
              var before := BeforeLastPass(rows.value, paths); before == [] || |Stream(before)| < budget.value
  {
    assert forall p :: p in chunks <==> p in paths;
    if paths == [] || exists p :: p in paths && chunks[p] == [] {
      return None;
    }
    assert paths[0] in chunks;
    NoPasses(paths);
    var drawn := DrawPasses(chunks, paths, rng, budget);
    rows := Some(drawn);
  }

  method DrawPasses(chunks: Universe, paths: seq<Bytes>, rng: Random, budget: Option<int>) returns (drawn: seq<Row>)
    requires Fair(rng) && paths != [] && forall p :: p in paths ==> p in chunks && chunks[p] != []
    ensures drawn != [] && Drawn(chunks, drawn) && InPasses(drawn, paths) && |drawn| >= |paths|
    ensures budget.None? ==> |drawn| == |paths|
    ensures budget.Some? ==>
              && |Stream(drawn)| >= budget.value
              && var before := BeforeLastPass(drawn, paths); before == [] || |Stream(before)| < budget.value
  {
    hide Stream, InPasses, Drawn, Fair;
    NoPasses(paths);
    var order := paths;
    var used: nat, draws: nat, passes: nat := 0, 0, 0;
    drawn := [];
    ghost var earlier: seq<Row> := [];
    while drawn == [] || (budget.Some? && used < budget.value)
      invariant multiset(order) == multiset(paths) && PassesDrawn(chunks, paths, drawn, earlier, used)
      invariant budget.None? ==> drawn == []
      invariant earlier == [] || (budget.Some? && |Stream(earlier)| < budget.value)
      decreases if budget.Some? then Max(0, budget.value - used) else 0, if drawn == [] then 1 else 0
    {
      order := Shuffle(rng, passes, order);
      SamePaths(order, paths);
      var pass, size := OnePass(chunks, order, rng, draws);
      DrawnOnce(chunks, paths, drawn, earlier, used, order, pass);
      assert |drawn + pass| == |drawn| + |paths|;
      earlier := drawn;
      drawn, used := drawn + pass, used + size;
      draws, passes := draws + |order|, passes + 1;
      if budget.None? {
        return;
      }
    }
  }

  method Shuffle(rng: Random, n: nat, xs: seq<Bytes>) returns (ys: seq<Bytes>)
    requires Fair(rng)
    ensures ys == rng.shuffle(n, xs) && multiset(ys) == multiset(xs)
  {
    ys := rng.shuffle(n, xs);
  }

  lemma NoPasses(paths: seq<Bytes>)
    requires paths != []
    ensures InPasses([], paths) && Stream([]) == []
    ensures forall chunks :: PassesDrawn(chunks, paths, [], [], 0)
  {
  }

  lemma SamePaths(order: seq<Bytes>, paths: seq<Bytes>)
    requires multiset(order) == multiset(paths)
    ensures |order| == |paths| && forall p :: p in order <==> p in paths
  {
    assert |multiset(order)| == |order| && |multiset(paths)| == |paths|;
    forall p ensures p in order <==> p in paths {
      assert p in multiset(order) <==> p in multiset(paths);
    }
  }

  /** A control page drawn for a budget always costs exactly that budget, so the check that rejects
      an exhausted control arm never fires. */
  method PlaceboPage(chunks: Universe, paths: seq<Bytes>, rng: Random, budget: nat) returns (page: Option<Page>)
    requires Fair(rng) && (set p | p in paths) == chunks.Keys
    ensures page.None? <==> chunks == map[] || exists p :: p in chunks && chunks[p] == []
    ensures page.Some? ==> page.value.bytes == budget == |page.value.hashed|
  {
    var rows := PlaceboRows(chunks, paths, rng, Some(budget));
    if rows.None? {
      return None;
    }
    var made := MakePage(rows.value, Some(budget));
    page := Some(made);
  }
}
