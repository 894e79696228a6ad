/** Many hook processes asking the gate at once: each takes a try-lock, reads the state file, decides,
    replaces the file atomically and returns.  Any step may fail, and a process may die at any point. */
module BriefGateProcesses {
  import opened BriefGate
  import opened Prelude

  datatype Phase =
    | Entered
    | Holding
    | Read(state: GateState)
    | Charged(next: GateState, fire: Fire)
    | Replaced(fire: Fire)
    | Returned(decision: Decision)
    | Dead

  datatype Process = Process(path: string, payload: Payload, phase: Phase)

  /** `charged` is every fire the state file accounts for, `served` every one whose process returned
      Served, `lost` every one charged by a process that died or reported a failure instead; all
      three are kept for the statements only. */
  datatype System = System(
    file: Option<GateState>,
    lock: Option<nat>,
    processes: map<nat, Process>,
    charged: History,
    served: History,
    lost: History)

  const START := System(None, None, map[], [], [], [])

  function InFile(file: Option<GateState>): GateState {
    match file
    case Some(state) => state
    case None => FRESH
  }

  predicate InCriticalSection(phase: Phase) {
    phase.Holding? || phase.Read? || phase.Charged? || phase.Replaced?
  }

  function Go(s: System, p: nat, phase: Phase): System
    requires p in s.processes
  {
    s.(processes := s.processes[p := s.processes[p].(phase := phase)])
  }

  /** Leave the critical section, dropping the lock. */
  function Leave(s: System, p: nat, phase: Phase): System
    requires p in s.processes
  {
    Go(s, p, phase).(lock := None)
  }

  ghost predicate Enter(s: System, s': System, p: nat) {
    && p !in s.processes && p in s'.processes
    && s' == s.(processes := s.processes[p := s'.processes[p]])
    && s'.processes[p].phase == if s'.processes[p].payload == [] then Returned(Empty) else Entered
  }

  /** The lock is tried once; a busy lock, or a failure before it, suppresses the brief. */
  ghost predicate TryLock(s: System, s': System, p: nat) {
    && p in s.processes && s.processes[p].phase == Entered
    && (s' == Go(s, p, Returned(Unavailable)) || (s.lock == None && s' == Go(s, p, Holding).(lock := Some(p))))
  }

  /** The file is read whole, or the brief is suppressed. */
  ghost predicate ReadFile(s: System, s': System, p: nat) {
    && p in s.processes && s.processes[p].phase == Holding
    && (s' == Leave(s, p, Returned(Unavailable)) || s' == Go(s, p, Read(InFile(s.file))))
  }

  ghost predicate Decides(s: System, s': System, p: nat, now: nat)
    requires p in s.processes && s.processes[p].phase.Read?
  {
    var q := s.processes[p];
    var v := DecideOn(q.phase.state, q.path, q.payload, now);
    s' == if v.decision == Served then Go(s, p, Charged(v.state, FireOf(q.path, q.payload, now)))
          else Leave(s, p, Returned(v.decision))
  }

  /** The clock may show anything. */
  ghost predicate DecideStep(s: System, s': System, p: nat) {
    && p in s.processes && s.processes[p].phase.Read?
    && exists now: nat :: Decides(s, s', p, now)
  }

  /** The replacement happens entirely or not at all. */
  ghost predicate Replace(s: System, s': System, p: nat) {
    && p in s.processes && s.processes[p].phase.Charged?
    && var q := s.processes[p].phase;
       || s' == Leave(s, p, Returned(Unavailable))
       || s' == Go(s, p, Replaced(q.fire)).(file := Some(q.next), charged := s.charged + [q.fire])
  }

  /** Even after the new file is in place the replacement may still report a failure. */
  ghost predicate Return(s: System, s': System, p: nat) {
    && p in s.processes && s.processes[p].phase.Replaced?
    && var fire := s.processes[p].phase.fire;
       || s' == Leave(s, p, Returned(Unavailable)).(lost := s.lost + [fire])
       || s' == Leave(s, p, Returned(Served)).(served := s.served + [fire])
  }

  /** A dead process holds no lock. */
  ghost predicate Die(s: System, s': System, p: nat) {
    && p in s.processes && !s.processes[p].phase.Returned?
    && s' == match s.processes[p].phase
             case Replaced(fire) => Leave(s, p, Dead).(lost := s.lost + [fire])
             case phase => if InCriticalSection(phase) then Leave(s, p, Dead) else Go(s, p, Dead)
  }

  ghost predicate Next(s: System, s': System) {
    exists p ::
      Enter(s, s', p) || TryLock(s, s', p) || ReadFile(s, s', p) || DecideStep(s, s', p) || Replace(s, s', p) ||
      Return(s, s', p) || Die(s, s', p)
  }

  /** A run of the system, every step some process's. */
  ghost predicate Run(run: seq<System>) {
    |run| > 0 && run[0] == START && forall k :: 0 < k < |run| ==> Next(run[k - 1], run[k])
  }

  // ---------------------------------------------------------------- the invariant

  /** `part` is `whole` with some fires left out. */
  ghost predicate Within(part: History, whole: History) {
    part == [] ||
    (whole != [] &&
      (|| Within(part, whole[..|whole| - 1])
       || (part[|part| - 1] == whole[|whole| - 1] && Within(part[..|part| - 1], whole[..|whole| - 1]))))
  }

  /** The fire that is in the file while its process has not returned yet. */
  function Pending(s: System): History {
    match s.lock
    case Some(p) =>
      if p in s.processes && s.processes[p].phase.Replaced? then [s.processes[p].phase.fire] else []
    case None => []
  }

  /** Every fire in the file was served, is lost or is pending; the served ones went out in the order
      they were charged, and a pending one was charged last. */
  ghost predicate Books(s: System) {
    && multiset(s.charged) == multiset(s.served) + multiset(s.lost) + multiset(Pending(s))
    && if Pending(s) == [] then Within(s.served, s.charged)
       else s.charged != [] && s.charged[|s.charged| - 1..] == Pending(s) &&
            Within(s.served, s.charged[..|s.charged| - 1])
  }

  /** The file accounts for a lawful history, and the books balance. */
  ghost predicate Ledger(s: System) {
    Represents(InFile(s.file), s.charged) && BriefGate.Lawful(s.charged) && Books(s)
  }

  /** What process p relies on: it alone holds the lock while inside the critical section, and what
      it read or computed there is still true. */
  ghost predicate Fine(s: System, p: nat, q: Process) {
    && (InCriticalSection(q.phase) ==> s.lock == Some(p))
    && (InCriticalSection(q.phase) || q.phase == Entered ==> q.payload != [])
    && match q.phase
       case Read(state) => state == InFile(s.file)
       case Charged(next, fire) => Represents(next, s.charged + [fire]) && BriefGate.Lawful(s.charged + [fire])
       case _ => true
  }

  ghost predicate Inv(s: System) {
    Ledger(s) && forall p :: p in s.processes ==> Fine(s, p, s.processes[p])
  }

  lemma StartHolds()
    ensures Inv(START)
  {
    FreshRepresentsNothing();
  }

  /** A step of the lock holder leaves every other process fine, as none of them is inside. */
  lemma OthersStandStill(s: System, s': System, p: nat)
    requires Inv(s) && (s.lock == Some(p) || s.lock == None)
    requires p in s.processes && p in s'.processes && s'.processes == s.processes[p := s'.processes[p]]
    requires Ledger(s') && Fine(s', p, s'.processes[p])
    ensures Inv(s')
  {
    hide Represents, BriefGate.Lawful, Books;
    forall q | q in s'.processes && q != p ensures Fine(s', q, s'.processes[q]) {
      assert Fine(s, q, s.processes[q]);
    }
  }

  lemma DecideKeepsInv(s: System, s': System, p: nat, now: nat)
    requires Inv(s) && p in s.processes && s.processes[p].phase.Read? && Decides(s, s', p, now)
    ensures Inv(s')
  {
    hide Represents, BriefGate.Lawful, DecideOn, DecideByHistory, FireOf, Within;
    var q := s.processes[p];
    assert Fine(s, p, q);
    DecideRefinesHistory(q.phase.state, s.charged, q.path, q.payload, now);
    if DecideOn(q.phase.state, q.path, q.payload, now).decision == Served {
      ServingKeepsTheLaw(s.charged, q.path, q.payload, now);
    }
    OthersStandStill(s, s', p);
  }

  lemma AppendCounts(h: History, fire: Fire)
    ensures multiset(h + [fire]) == multiset(h) + multiset{fire}
    ensures (h + [fire])[..|h|] == h && (h + [fire])[|h|..] == [fire]
  {
  }

  lemma ReplacingKeepsBooks(s: System, s': System, fire: Fire)
    requires Books(s) && Pending(s) == [] && Pending(s') == [fire] && s'.charged == s.charged + [fire]
    requires s'.served == s.served && s'.lost == s.lost
    ensures Books(s')
  {
    AppendCounts(s.charged, fire);
  }

  lemma ReplaceKeepsInv(s: System, s': System, p: nat)
    requires Inv(s) && Replace(s, s', p)
    ensures Inv(s')
  {
    hide Represents, BriefGate.Lawful, Books;
    assert Fine(s, p, s.processes[p]);
    if s'.lock == None {
      HolderStepKeepsInv(s, s', p);
    } else {
      ReplacingKeepsBooks(s, s', s.processes[p].phase.fire);
      OthersStandStill(s, s', p);
    }
  }

  /** However the lock holder leaves after replacing the file, its fire is accounted for. */
  lemma LeavingKeepsBooks(s: System, s': System, fire: Fire)
    requires Books(s) && Pending(s) == [fire] && Pending(s') == [] && s'.charged == s.charged
    requires || (s'.served == s.served + [fire] && s'.lost == s.lost)
             || (s'.lost == s.lost + [fire] && s'.served == s.served)
    ensures Books(s')
  {
    AppendCounts(s.served, fire);
    AppendCounts(s.lost, fire);
    assert s.charged[|s.charged| - 1..][0] == fire;
  }

  lemma ReturnKeepsInv(s: System, s': System, p: nat)
    requires Inv(s) && (Return(s, s', p) || (Die(s, s', p) && s.processes[p].phase.Replaced?))
    ensures Inv(s')
  {
    hide Represents, BriefGate.Lawful, Books;
    assert Fine(s, p, s.processes[p]);
    LeavingKeepsBooks(s, s', s.processes[p].phase.fire);
    OthersStandStill(s, s', p);
  }

  /** A process outside the critical section that stays outside disturbs nothing. */
  lemma OutsideStepKeepsInv(s: System, s': System, p: nat, q': Process)
    requires Inv(s) && s' == s.(processes := s.processes[p := q'])
    requires p in s.processes ==> !InCriticalSection(s.processes[p].phase)
    requires !InCriticalSection(q'.phase) && (q'.phase == Entered ==> q'.payload != [])
    ensures Inv(s')
  {
    hide Represents, BriefGate.Lawful, Within;
    assert Pending(s') == Pending(s);
    assert Books(s');
    hide Books, Pending;
    forall q | q in s'.processes ensures Fine(s', q, s'.processes[q]) {
      if q != p { assert Fine(s, q, s.processes[q]); }
    }
  }

  /** So does a step that takes, holds or drops the lock and leaves the file alone. */
  lemma HolderStepKeepsInv(s: System, s': System, p: nat)
    requires Inv(s) && p in s.processes && p in s'.processes && (s.lock == Some(p) || s.lock == None)
    requires s' == s.(processes := s.processes[p := s'.processes[p]], lock := s'.lock)
    requires !s.processes[p].phase.Replaced? && !s'.processes[p].phase.Replaced?
    requires s'.lock == Some(p) || s'.lock == None
    requires Fine(s', p, s'.processes[p])
    ensures Inv(s')
  {
    hide Represents, BriefGate.Lawful, Within;
    assert Pending(s) == [] == Pending(s');
    assert Books(s');
    hide Books, Pending;
    OthersStandStill(s, s', p);
  }

  lemma OtherStepsKeepInv(s: System, s': System, p: nat)
    requires Inv(s)
    requires Enter(s, s', p) || TryLock(s, s', p) || ReadFile(s, s', p) ||
             (Die(s, s', p) && !s.processes[p].phase.Replaced?)
    ensures Inv(s')
  {
    hide Represents, BriefGate.Lawful, Books, Pending;
    if Enter(s, s', p) {
      OutsideStepKeepsInv(s, s', p, s'.processes[p]);
    } else {
      assert Fine(s, p, s.processes[p]);
      if s'.lock == s.lock && !InCriticalSection(s.processes[p].phase) {
        OutsideStepKeepsInv(s, s', p, s'.processes[p]);
      } else {
        HolderStepKeepsInv(s, s', p);
      }
    }
  }

  lemma NextKeepsInv(s: System, s': System)
    requires Inv(s) && Next(s, s')
    ensures Inv(s')
  {
    var p :|
      Enter(s, s', p) || TryLock(s, s', p) || ReadFile(s, s', p) || DecideStep(s, s', p) || Replace(s, s', p) ||
      Return(s, s', p) || Die(s, s', p);
    if DecideStep(s, s', p) {
      var now: nat :| Decides(s, s', p, now);
      DecideKeepsInv(s, s', p, now);
    } else if Replace(s, s', p) {
      ReplaceKeepsInv(s, s', p);
    } else if Return(s, s', p) || (Die(s, s', p) && s.processes[p].phase.Replaced?) {
      ReturnKeepsInv(s, s', p);
    } else {
      OtherStepsKeepInv(s, s', p);
    }
  }

  lemma {:induction false} RunKeepsInv(run: seq<System>, k: nat)
    requires Run(run) && k < |run|
    ensures Inv(run[k])
  {
    if k == 0 {
      StartHolds();
    } else {
      RunKeepsInv(run, k - 1);
      NextKeepsInv(run[k - 1], run[k]);
    }
  }

  // ---------------------------------------------------------------- main results

  /** At every point of every run, each fire the file accounts for was served, is lost to a failure
      reported after the charge, or is still pending; and the served ones went out in the order they
      were charged. */
  lemma ChargesAreConserved(run: seq<System>, k: nat)
    requires Run(run) && k < |run|
    ensures multiset(run[k].charged) ==
            multiset(run[k].served) + multiset(run[k].lost) + multiset(Pending(run[k]))
    ensures Within(run[k].served, run[k].charged)
  {
    RunKeepsInv(run, k);
    if Pending(run[k]) != [] {
      var charged := run[k].charged;
      assert Within(run[k].served, charged[..|charged| - 1]);
    }
  }

  lemma {:induction false} SpentConcat(a: History, b: History)
    ensures Spent(a + b) == Spent(a) + Spent(b)
  {
    if b == [] {
      assert a + b == a;
    } else {
      assert (a + b)[..|a + b| - 1] == a + b[..|b| - 1];
      SpentConcat(a, b[..|b| - 1]);
    }
  }

  lemma SameFiresSpendTheSame(a: History, b: History)
    requires multiset(a) == multiset(b)
    ensures Spent(a) == Spent(b)
  {
    PartSpendsLess(a, b);
    PartSpendsLess(b, a);
  }

  /** The file's tokens are what was served, what is lost and what is pending cost together. */
  lemma TokensAreAccountedFor(run: seq<System>, k: nat)
    requires Run(run) && k < |run|
    ensures InFile(run[k].file).tokens == Spent(run[k].served) + Spent(run[k].lost) + Spent(Pending(run[k]))
    ensures InFile(run[k].file).tokens <= SESSION_TOKEN_BUDGET
  {
    var s := run[k];
    RunKeepsInv(run, k);
    SameFiresSpendTheSame(s.charged, s.served + s.lost + Pending(s));
    SpentConcat(s.served + s.lost, Pending(s));
    SpentConcat(s.served, s.lost);
  }

  lemma EachCosts(run: seq<System>, k: nat)
    requires Run(run) && k < |run|
    ensures var s := run[k]; forall f :: f in s.served + s.lost + Pending(s) ==> f.cost >= 1
  {
    RunKeepsInv(run, k);
    var s := run[k];
    forall f | f in s.served + s.lost + Pending(s) ensures f.cost >= 1 {
      assert f in multiset(s.served) + multiset(s.lost) + multiset(Pending(s));
      assert f in multiset(s.charged);
    }
  }

  /** What was served costs no more than the file accounts for, which never exceeds the session's
      budget; hence the number of briefs ever served is bounded too. */
  lemma ServedStaysWithinBudget(run: seq<System>, k: nat)
    requires Run(run) && k < |run|
    ensures Spent(run[k].served) <= InFile(run[k].file).tokens <= SESSION_TOKEN_BUDGET
    ensures |run[k].served| <= SESSION_TOKEN_BUDGET
  {
    TokensAreAccountedFor(run, k);
    EachCosts(run, k);
    EveryFireCosts(run[k].served);
  }

  /** The file charges for exactly what was served if and only if no charge is lost or pending. */
  lemma NothingIsOverchargedExactlyWhenNothingIsLost(run: seq<System>, k: nat)
    requires Run(run) && k < |run|
    ensures Spent(run[k].served) == InFile(run[k].file).tokens <==> run[k].lost == [] && Pending(run[k]) == []
  {
    var s := run[k];
    TokensAreAccountedFor(run, k);
    EachCosts(run, k);
    EveryFireCosts(s.lost);
    EveryFireCosts(Pending(s));
  }

  /** Two fires of a part stand in the whole in the same order. */
  lemma {:induction false} WithinIndices(part: History, whole: History, i: nat, j: nat) returns (x: nat, y: nat)
    requires Within(part, whole) && i < j < |part|
    ensures x < y < |whole| && whole[x] == part[i] && whole[y] == part[j]
    decreases |whole|
  {
    var rest := whole[..|whole| - 1];
    if Within(part, rest) {
      x, y := WithinIndices(part, rest, i, j);
    } else if j == |part| - 1 {
      x := WithinIndex(part[..j], rest, i);
      y := |whole| - 1;
    } else {
      x, y := WithinIndices(part[..|part| - 1], rest, i, j);
    }
  }

  lemma {:induction false} WithinIndex(part: History, whole: History, i: nat) returns (x: nat)
    requires Within(part, whole) && i < |part|
    ensures x < |whole| && whole[x] == part[i]
    decreases |whole|
  {
    var rest := whole[..|whole| - 1];
    if Within(part, rest) {
      x := WithinIndex(part, rest, i);
    } else if i == |part| - 1 {
      x := |whole| - 1;
    } else {
      x := WithinIndex(part[..|part| - 1], rest, i);
    }
  }

  /** In every run, whatever the processes' clocks said, no payload is served twice for one path, and
      two serves of one path lie a full cooldown apart. */
  lemma ServesOfOnePath(run: seq<System>, k: nat, i: nat, j: nat)
    requires Run(run) && k < |run| && i < j < |run[k].served| && run[k].served[i].path == run[k].served[j].path
    ensures run[k].served[i].digest != run[k].served[j].digest
    ensures run[k].served[j].at >= run[k].served[i].at + PATH_COOLDOWN_SECS
  {
    RunKeepsInv(run, k);
    ChargesAreConserved(run, k);
    var x, y := WithinIndices(run[k].served, run[k].charged, i, j);
  }

  lemma NothingServedTwice(run: seq<System>, k: nat, i: nat, j: nat)
    requires Run(run) && k < |run| && i < j < |run[k].served|
    ensures run[k].served[i].path != run[k].served[j].path || run[k].served[i].digest != run[k].served[j].digest
  {
    if run[k].served[i].path == run[k].served[j].path {
      ServesOfOnePath(run, k, i, j);
    }
  }

  /** Charges that were never served hold the path back just the same. */
  lemma ChargesOfOnePathWaitOutTheCooldown(run: seq<System>, k: nat, i: nat, j: nat)
    requires Run(run) && k < |run| && i < j < |run[k].charged| && run[k].charged[i].path == run[k].charged[j].path
    ensures run[k].charged[j].at >= run[k].charged[i].at + PATH_COOLDOWN_SECS
  {
    RunKeepsInv(run, k);
  }

  // ---------------------------------------------------------------- a run that loses a charge

  const PAYLOAD: Payload := [0]

  lemma FreshServes()
    ensures DecideOn(FRESH, "a", PAYLOAD, 0).decision == Served
  {
    assert Cost(PAYLOAD) == 1;
  }

  ghost function Loses(): seq<System> {
    var fire, next := FireOf("a", PAYLOAD, 0), DecideOn(FRESH, "a", PAYLOAD, 0).state;
    var at := (phase: Phase) => map[0 := Process("a", PAYLOAD, phase)];
    [ START,
      START.(processes := at(Entered)),
      START.(processes := at(Holding), lock := Some(0)),
      START.(processes := at(Read(FRESH)), lock := Some(0)),
      START.(processes := at(Charged(next, fire)), lock := Some(0)),
      START.(processes := at(Replaced(fire)), lock := Some(0), file := Some(next), charged := [fire]),
      START.(processes := at(Returned(Unavailable)), file := Some(next), charged := [fire], lost := [fire]) ]
  }

  lemma LosesIsARun()
    ensures Run(Loses())
  {
    var run := Loses();
    FreshServes();
    hide DecideOn, FireOf;
    assert Enter(run[0], run[1], 0);
    assert TryLock(run[1], run[2], 0);
    assert ReadFile(run[2], run[3], 0);
    assert Decides(run[3], run[4], 0, 0);
    assert DecideStep(run[3], run[4], 0);
    assert Replace(run[4], run[5], 0);
    assert Return(run[5], run[6], 0);
  }

  /** When the replacement reports its failure only after the new file is in place, the budget is
      spent and nothing is served. */
  lemma ChargesMayBeLost()
    ensures Run(Loses()) && Loses()[6].served == [] && InFile(Loses()[6].file).tokens > 0
  {
    LosesIsARun();
    hide DecideOn, FireOf;
    NothingIsOverchargedExactlyWhenNothingIsLost(Loses(), 6);
    assert Loses()[6].lost != [] && Loses()[6].served == [];
    NothingSpent();
  }
}
