/** The router in place, driven through a whole run: what it stores is what the
    run says, however lazily its window was pruned. */
module RouterRuns {
  import opened Types
  import opened AccountWindow
  import opened StickyRouting
  import opened RoutingRuns
  import opened Router

  /** The router stands for the world: its window, read at the last instant. */
  ghost predicate Stands(r: PlatformRoutingState, p: Platform, w: World)
    reads r, r.window
  {
    r.State(w.clockNs - p.WindowNs()) == w.table
  }

  /** Time may pass without the router doing anything. */
  lemma StandsLater(r: PlatformRoutingState, p: Platform, w: World, nowNs: int)
    requires Stands(r, p, w) && nowNs >= w.clockNs
    ensures r.State(nowNs - p.WindowNs()) == SlideTo(p, w.table, nowNs)
  {
    hide Recent;
    RecentSlides(r.window.entries, w.clockNs - p.WindowNs(), nowNs - p.WindowNs());
  }

  /** A binding inherits the mark of an expired entry that still lingers. */
  ghost function Marked(step: Step, e: Entries): Step {
    if step.Bind? then step.(lingeringMark := LingeringMark(e, step.lease.egressIP, step.account)) else step
  }

  /** One step of a run, done by the method that does it. */
  method Drive(r: PlatformRoutingState, p: Platform, step: Step, ghost w: World)
    requires ValidStep(w, step) && Stands(r, p, w)
    modifies r, r.window
    ensures ValidStep(w, Marked(step, old(r.window.entries)))
    ensures Stands(r, p, Apply(p, w, Marked(step, old(r.window.entries))))
  {
    hide Route, Upsert, ExpireLease, Delete, SlideTo, LingeringMark, Recent;
    if !step.Unbind? {
      StandsLater(r, p, w, step.nowNs);
    }
    match step {
      case Request(nodes, account, draw, nowNs) =>
        var _ := r.RouteSticky(p, nodes, account, draw, nowNs);
      case Bind(account, lease, nowNs, _) =>
        r.UpsertLease(p, account, lease, nowNs);
      case Unbind(account) =>
        var _ := r.DeleteLease(account);
      case SweepLease(account, nowNs) =>
        r.ExpireOnLeases(account, nowNs);
      case SweepWindow(nowNs) =>
        if p.IPQuotaEnabled() {
          RecentSlides(r.window.entries, nowNs - p.WindowNs(), nowNs - p.WindowNs());
          r.window.Prune(nowNs, p.WindowNs());
        }
    }
  }

  /** The clock once the steps are over. */
  function ClockAfter(clockNs: int, steps: seq<Step>): int {
    if steps == [] then clockNs
    else
      var last := steps[|steps| - 1];
      if last.Unbind? then ClockAfter(clockNs, steps[..|steps| - 1]) else last.nowNs
  }

  /** Times never go back, and requests are well-formed. */
  predicate InOrder(clockNs: int, steps: seq<Step>) {
    forall i :: 0 <= i < |steps| ==>
      && (!steps[i].Unbind? ==> steps[i].nowNs >= ClockAfter(clockNs, steps[..i]))
      && (steps[i].Request? ==> steps[i].account != NoAccount && ValidDraw(steps[i].nodes, steps[i].draw))
  }

  lemma AppliedClock(p: Platform, w: World, step: Step)
    requires ValidStep(w, step)
    ensures Apply(p, w, step).clockNs == if step.Unbind? then w.clockNs else step.nowNs
  {
    hide Route, Upsert, ExpireLease, Delete, SlideTo;
  }

  /** The same step but for the mark a binding inherits. */
  predicate SameStep(a: Step, b: Step) {
    if b.Bind? then a.Bind? && a == b.(lingeringMark := a.lingeringMark) else a == b
  }

  /** Any sequence of calls is a run, and the router ends where the run does. */
  method DriveAll(r: PlatformRoutingState, p: Platform, steps: seq<Step>, ghost w0: World) returns (ghost run: seq<Step>)
    requires Stands(r, p, w0) && InOrder(w0.clockNs, steps)
    modifies r, r.window
    ensures |run| == |steps| && forall i :: 0 <= i < |steps| ==> SameStep(run[i], steps[i])
    ensures ValidRun(p, w0, run) && Stands(r, p, Run(p, w0, run))
  {
    hide Stands, Apply, ValidRun, Run, LingeringMark, ValidDraw;
    run := [];
    NothingRun(p, w0);
    for i := 0 to |steps|
      invariant |run| == i && forall j :: 0 <= j < i ==> SameStep(run[j], steps[j])
      invariant ValidRun(p, w0, run) && Stands(r, p, Run(p, w0, run))
      invariant Run(p, w0, run).clockNs == ClockAfter(w0.clockNs, steps[..i])
    {
      ghost var w := Run(p, w0, run);
      ghost var step := Marked(steps[i], r.window.entries);
      assert steps[..i + 1][..i] == steps[..i];
      Drive(r, p, steps[i], w);
      RunExtends(p, w0, run, step);
      AppliedClock(p, w, step);
      run := run + [step];
    }
    assert steps[..|steps|] == steps;
  }

  lemma NothingRun(p: Platform, w: World)
    ensures ValidRun(p, w, []) && Run(p, w, []) == w
  {
  }

  /** Restored entries carry no fallback mark. */
  ghost predicate NoMarks(e: Entries) {
    forall ip, a :: ip in e && a in e[ip] ==> !e[ip][a].viaFallback
  }

  lemma TouchMarks(e: Entries, ip: Addr, account: Account, atNs: int)
    requires NoMarks(e)
    ensures NoMarks(Touched(e, ip, account, atNs, false)) && !LingeringMark(e, ip, account)
  {
  }

  /** Start-up: the leases read back, one after the other. */
  method StartUp(p: Platform, records: seq<Restored>, nowNs: int) returns (r: PlatformRoutingState)
    ensures fresh(r) && fresh(r.window) && Stands(r, p, Boot(p, records, nowNs))
  {
    hide Restore, Recent;
    r := new PlatformRoutingState();
    NothingStored(nowNs - p.WindowNs());
    for i := 0 to |records|
      invariant fresh(r) && fresh(r.window)
      invariant Stands(r, p, Boot(p, records[..i], nowNs)) && Boot(p, records[..i], nowNs).clockNs == nowNs
      invariant NoMarks(r.window.entries)
    {
      assert records[..i + 1][..i] == records[..i];
      var lease := records[i].lease;
      TouchMarks(r.window.entries, lease.egressIP, records[i].account, if lease.lastAccessedNs <= 0 then lease.createdAtNs else lease.lastAccessedNs);
      hide Touched, NoMarks, LingeringMark;
      r.RestoreLease(p, records[i].account, records[i].lease, nowNs);
    }
    assert records[..|records|] == records;
  }

  lemma NothingStored(cutoff: int)
    ensures Recent(map[], cutoff) == map[]
  {
  }

  /** The rolling-window bound of what is stored: the promise holds of the lazily
      pruned entries themselves, restricted to the window. */
  lemma StoredWindowBound(r: PlatformRoutingState, p: Platform, records: seq<Restored>, bootNs: int, steps: seq<Step>, ip: Addr, t: int)
    requires p.IPQuotaEnabled() && ip.IsValid()
    requires ValidRun(p, Boot(p, records, bootNs), steps)
    requires Stands(r, p, Run(p, Boot(p, records, bootNs), steps))
    requires t >= Run(p, Boot(p, records, bootNs), steps).clockNs
    ensures var w := Run(p, Boot(p, records, bootNs), steps);
            WindowKeepsPromise(p, w.(table := w.table.(window := r.window.entries)), ip, t - p.WindowNs())
  {
    hide Run, Boot, ValidRun, Recent, Live, SlotsAt, WindowKeepsPromise;
    RollingWindowBound(p, records, bootNs, steps, ip, t);
    var w := Run(p, Boot(p, records, bootNs), steps);
    var early, late := w.clockNs - p.WindowNs(), t - p.WindowNs();
    RecentAt(r.window.entries, early, ip);
    LiveLive(SlotsAt(r.window.entries, ip), early, late);
    SamePromise(p, w, r.window.entries, ip, late);
  }

  lemma SamePromise(p: Platform, w: World, e: Entries, ip: Addr, since: int)
    requires WindowKeepsPromise(p, w, ip, since)
    requires Live(SlotsAt(e, ip), since) == Live(SlotsAt(w.table.window, ip), since)
    ensures WindowKeepsPromise(p, w.(table := w.table.(window := e)), ip, since)
  {
    hide Live, SlotsAt, Exposed, SeedsOn, Regular, LastServed;
  }
}
