/** Daemons of different builds sharing one runtime directory: a starting daemon asks every validated
    sibling that provably started earlier to stop. */
module Succession {
  import opened Prelude

  datatype ReapAction = CleanupFiles | Leave | Reap

  function SiblingReapAction(validated: bool, ours: Option<nat>, theirs: Option<nat>): ReapAction {
    if !validated then CleanupFiles
    else
      match (ours, theirs)
      case (Some(o), Some(s)) => if s < o then Reap else Leave
      case _ => Leave
  }

  /** Every daemon ever started, by its start time, those still running, and those whose runtime files
      are there to be found.  A start time is unknown where the platform does not report it. */
  datatype Fleet = Fleet(started: map<nat, Option<nat>>, live: set<nat>, files: set<nat>)

  const NONE_YET := Fleet(map[], {}, {})

  /** A daemon starts, with whatever start time its platform reports, and writes its files. */
  ghost predicate Start(f: Fleet, f': Fleet, d: nat) {
    && d !in f.started && d in f'.started
    && f' == Fleet(f.started[d := f'.started[d]], f.live + {d}, f.files + {d})
  }

  /** A starting daemon looks at the files of another one.  They are validated exactly when that one is
      running; a socket may look busy whatever the reason; and a daemon that stops may take its files
      away or leave them. */
  ghost predicate Look(f: Fleet, f': Fleet, reaper: nat, sibling: nat, busy: bool) {
    && reaper in f.live && sibling in f.files && reaper != sibling && f.live <= f.started.Keys
    && f.files <= f.started.Keys
    && match SiblingReapAction(sibling in f.live, f.started[reaper], f.started[sibling])
       case CleanupFiles => f' == if busy then f else f.(files := f.files - {sibling})
       case Leave => f' == f
       case Reap =>
         && f'.files in {f.files, f.files - {sibling}}
         && f' == f.(live := f.live - {sibling}, files := f'.files)
  }

  ghost predicate Next(f: Fleet, f': Fleet) {
    || (exists d :: Start(f, f', d))
    || (exists reaper, sibling, busy :: Look(f, f', reaper, sibling, busy))
  }

  ghost predicate Run(run: seq<Fleet>) {
    |run| > 0 && run[0] == NONE_YET && forall k :: 0 < k < |run| ==> Next(run[k - 1], run[k])
  }

  /** No daemon ever started later than this one, as far as start times are known. */
  ghost predicate Latest(f: Fleet, d: nat) {
    && d in f.started
    && (f.started[d].Some? ==>
         forall e :: e in f.started && f.started[e].Some? ==> f.started[e].value <= f.started[d].value)
  }

  ghost predicate Inv(f: Fleet) {
    && f.live <= f.files <= f.started.Keys
    && (forall d :: Latest(f, d) ==> d in f.live)
    && (f.started != map[] ==> exists d :: Latest(f, d))
  }

  lemma LatestBefore(f: Fleet, f': Fleet, d: nat, e: nat)
    requires Start(f, f', d) && Latest(f', e) && e != d
    ensures Latest(f, e)
  {
    forall g | g in f.started && f.started[g].Some? ensures f.started[e].Some? ==> f.started[g].value <= f.started[e].value {
      assert f'.started[g] == f.started[g];
    }
  }

  lemma NextKeepsInv(f: Fleet, f': Fleet)
    requires Inv(f) && Next(f, f')
    ensures Inv(f')
  {
    if d :| Start(f, f', d) {
      if e :| Latest(f, e) {
        assert Latest(f', e) || Latest(f', d);
      } else {
        assert f.started == map[];
        assert Latest(f', d);
      }
      forall e | Latest(f', e) ensures e in f'.live {
        if e != d { LatestBefore(f, f', d, e); }
      }
    } else {
      var reaper, sibling, busy :| Look(f, f', reaper, sibling, busy);
      LookSpares(f, f', reaper, sibling, busy);
      forall e ensures Latest(f', e) <==> Latest(f, e) {}
    }
  }

  /** What one look does.  A running daemon is stopped only if it provably started before the one that
      looks, and otherwise keeps its files; the files of one that is gone are removed, unless a socket
      of it looks busy; nobody else is touched. */
  lemma LookSpares(f: Fleet, f': Fleet, reaper: nat, sibling: nat, busy: bool)
    requires Look(f, f', reaper, sibling, busy)
    ensures f'.started == f.started && f.live - {sibling} <= f'.live <= f.live
    ensures f.files - {sibling} <= f'.files <= f.files
    ensures sibling in f.live && sibling !in f'.live <==>
            sibling in f.live && f.started[reaper].Some? && f.started[sibling].Some? &&
            f.started[sibling].value < f.started[reaper].value
    ensures sibling in f'.live ==> sibling in f'.files
    ensures sibling !in f.live ==> (sibling in f'.files <==> busy)
  {
  }

  lemma {:induction false} RunKeepsInv(run: seq<Fleet>, k: nat)
    requires Run(run) && k < |run|
    ensures Inv(run[k])
  {
    if k > 0 {
      RunKeepsInv(run, k - 1);
      NextKeepsInv(run[k - 1], run[k]);
    }
  }

  /** At every point of every run every running daemon has its files. */
  lemma RunningDaemonsKeepTheirFiles(run: seq<Fleet>, k: nat)
    requires Run(run) && k < |run|
    ensures run[k].live <= run[k].files
  {
    RunKeepsInv(run, k);
  }

  /** At every point of every run, each daemon of unknown start time and each one that started last is
      still running, and can be found; so reaping alone never leaves nobody to serve. */
  lemma TheLatestSurvives(run: seq<Fleet>, k: nat, d: nat)
    requires Run(run) && k < |run| && d in run[k].started
    requires run[k].started[d].None? || Latest(run[k], d)
    ensures d in run[k].live && d in run[k].files
    ensures run[k].live != {}
  {
    RunKeepsInv(run, k);
    assert Latest(run[k], d);
  }

  /** Of two daemons at most one may reap the other. */
  lemma NoMutualReaping(a: Option<nat>, b: Option<nat>, va: bool, vb: bool)
    ensures !(SiblingReapAction(va, a, b) == Reap && SiblingReapAction(vb, b, a) == Reap)
    ensures SiblingReapAction(va, a, b) == Reap <==> va && a.Some? && b.Some? && b.value < a.value
  {
  }
}
