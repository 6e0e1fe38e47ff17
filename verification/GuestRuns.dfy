/** Runs of the supervisor: any sequence of requests, deaths, timers and freezes, with any pid reuse the kernel allows.
    */
module GuestRuns {

  import opened Common
  import opened Restart
  import opened Guest
  import opened GuestInvariant
  import opened GuestSteps

  /** While the guest reaps, strangers may be born, under a pid just freed too. */
  datatype KernelEvent = Born(pid: nat) | Died(death: Death)

  datatype Step =
    | RunStep(name: string, restart: RestartPolicy, piped: bool, forked: Option<nat>)
    | ReapStep(events: seq<KernelEvent>)
    | DueStep(due: Due, forked: Option<nat>)
    | StopProcessStep(name: string, graceful: bool)
    | StopStep(signal: int, failed: bool, forced: bool)
    | SpawnStep(forked: Option<nat>)
    | FreezeStep
    | ThawStep

  datatype Ending = Up | Clean | Failed

  datatype World = World(g: Guest, frozen: bool, kernel: Kernel, ending: Ending)

  const BOOT := World(NEW_GUEST, false, map[], Up)

  // What the kernel allows.

  function KernelAfter(kernel: Kernel, events: seq<KernelEvent>): Kernel {
    if events == [] then kernel
    else
      var before := KernelAfter(kernel, events[..|events| - 1]);
      match events[|events| - 1]
      case Born(pid) => before[pid := Stranger]
      case Died(d) => before - {d.pid}
  }

  /** A pid is given out only while nobody unreaped has it, and reaped only while somebody does. */
  predicate Allowed(kernel: Kernel, events: seq<KernelEvent>) {
    events == [] ||
    (Allowed(kernel, events[..|events| - 1]) &&
     var before := KernelAfter(kernel, events[..|events| - 1]);
     match events[|events| - 1]
     case Born(pid) => pid != 0 && pid !in before
     case Died(d) => d.pid in before)
  }

  function Deaths(events: seq<KernelEvent>): seq<Death> {
    if events == [] then []
    else match events[|events| - 1]
      case Born(_) => Deaths(events[..|events| - 1])
      case Died(d) => Deaths(events[..|events| - 1]) + [d]
  }

  predicate Forkable(kernel: Kernel, forked: Option<nat>) {
    forked.Some? ==> forked.value != 0 && forked.value !in kernel
  }

  predicate Enabled(w: World, s: Step) {
    !w.ending.Clean? &&
    match s
    case RunStep(_, restart, _, forked) => restart.Valid() && Forkable(w.kernel, forked)
    case ReapStep(events) => Allowed(w.kernel, events)
    case DueStep(due, forked) => due in w.g.pending && Forkable(w.kernel, forked)
    case SpawnStep(forked) => Forkable(w.kernel, forked)
    case _ => true
  }

  ghost function Next(w: World, s: Step): World {
    match s
    case RunStep(name, restart, piped, forked) =>
      var (h, ran) := Run(w.g, w.frozen, name, restart, piped, forked);
      w.(g := h, kernel := WithStart(w.kernel, ran.Started?, forked, NamedRun(w.g.runs)))
    case ReapStep(events) =>
      var b := ReapAll(w.g, Deaths(events));
      var done := !b.oom && b.reaped && b.g.stopping && !AnyRuns(b.g.procs);
      w.(g := Closed(b), kernel := KernelAfter(w.kernel, events), ending := if done then Clean else w.ending)
    case DueStep(due, forked) =>
      var (h, started) := Wake(w.g, w.frozen, due, forked);
      w.(g := h, kernel := WithStart(w.kernel, started, forked, NamedRun(w.g.runs)))
    case StopProcessStep(name, graceful) => w.(g := StopProcess(w.g, name, graceful))
    case StopStep(signal, failed, forced) =>
      var h := Stop(w.g, signal);
      w.(g := h,
         ending := if forced then w.ending else if failed then Failed else if AnyRuns(h.procs) then w.ending else Clean)
    case SpawnStep(forked) =>
      if w.frozen || forked.None? then w
      else w.(g := Spawned(w.g, forked.value), kernel := w.kernel[forked.value := Exec(w.g.execs)])
    case FreezeStep => w.(frozen := true)
    case ThawStep => w.(frozen := false)
  }

  ghost function After(w: World, steps: seq<Step>): World
    decreases |steps|
  {
    if steps == [] then w else After(Next(w, steps[0]), steps[1..])
  }

  ghost predicate IsRun(w: World, steps: seq<Step>)
    decreases |steps|
  {
    steps == [] || (Enabled(w, steps[0]) && IsRun(Next(w, steps[0]), steps[1..]))
  }

  /** The invariant, and a clean end only with no process left. */
  ghost predicate Sound(w: World) {
    Inv(w.g, w.kernel, false) && (w.ending.Clean? ==> !AnyRuns(w.g.procs))
  }

  lemma BootIsSound()
    ensures Sound(BOOT)
  {
    assert forall e: nat :: !Waiting(map[], e);
  }

  lemma {:induction false} BatchKeeps(g: Guest, kernel: Kernel, events: seq<KernelEvent>)
    requires Inv(g, kernel, false) && Allowed(kernel, events)
    ensures var b := ReapAll(g, Deaths(events)); Inv(b.g, KernelAfter(kernel, events), b.oom)
  {
    hide Inv, Route;
    if events != [] {
      var n := |events| - 1;
      BatchKeeps(g, kernel, events[..n]);
      var b := ReapAll(g, Deaths(events[..n]));
      match events[n] {
        case Born(pid) =>
          BornKeeps(b.g, KernelAfter(kernel, events[..n]), pid, b.oom);
        case Died(d) =>
          assert Deaths(events)[..|Deaths(events)| - 1] == Deaths(events[..n]);
          RouteKeeps(b.g, KernelAfter(kernel, events[..n]), d, b.oom, b.oom || (d.exit.signal == SIGKILL && d.hit));
      }
    }
  }

  lemma {:induction false} ReapStepKeeps(g: Guest, kernel: Kernel, events: seq<KernelEvent>)
    requires Inv(g, kernel, false) && Allowed(kernel, events)
    ensures Inv(Closed(ReapAll(g, Deaths(events))), KernelAfter(kernel, events), false)
  {
    hide Inv, ReapAll;
    BatchKeeps(g, kernel, events);
    var b := ReapAll(g, Deaths(events));
    if b.oom {
      StopTimersKeeps(b.g, KernelAfter(kernel, events), true, b.g.stopping, true, b.g.sent);
    }
  }

  lemma NextKeeps(w: World, s: Step)
    requires Sound(w) && Enabled(w, s)
    ensures Sound(Next(w, s))
  {
    hide Inv, Run, Wake, StopProcess, Stop, ReapAll, AnyRuns, Closed, Deaths, Allowed, KernelAfter;
    match s {
      case RunStep(name, restart, piped, forked) => RunKeeps(w.g, w.kernel, w.frozen, name, restart, piped, forked);
      case ReapStep(events) =>
        ReapStepKeeps(w.g, w.kernel, events);
        ClosedRuns(ReapAll(w.g, Deaths(events)));
      case DueStep(due, forked) => WakeKeeps(w.g, w.kernel, w.frozen, due, forked);
      case StopProcessStep(name, graceful) => StopProcessKeeps(w.g, w.kernel, name, graceful);
      case StopStep(signal, _, _) => StopKeeps(w.g, w.kernel, signal);
      case SpawnStep(forked) =>
        if !w.frozen && forked.Some? {
          SpawnKeeps(w.g, w.kernel, forked.value);
        }
      case _ =>
    }
  }

  lemma ClosedRuns(b: Batch)
    ensures !b.oom ==> Closed(b) == b.g
  {
  }

  /** Every run from boot keeps the invariant in every state. */
  lemma {:induction false} RunsAreSound(w: World, steps: seq<Step>)
    requires Sound(w) && IsRun(w, steps)
    ensures Sound(After(w, steps))
    decreases |steps|
  {
    hide Sound, Next, Enabled;
    if steps != [] {
      NextKeeps(w, steps[0]);
      RunsAreSound(Next(w, steps[0]), steps[1..]);
    }
  }

  // Whose an exit is.

  /** What a reaped process leaves of the table: its own entry changed, without a pid, and every other one as it was. */
  lemma RouteEdits(g: Guest, d: Death, oom: bool)
    ensures var h, r := Route(g, d, oom), ByPid(g.procs, d.pid);
            && h.runs == g.runs && h.stopping == g.stopping && h.oom == g.oom && g.gens <= h.gens
            && |h.procs| == |g.procs|
            && g.released <= h.released
            && if d.pid in g.waiters then
                 h == g.(waiters := g.waiters - {d.pid}, answered := g.answered + [(g.waiters[d.pid], d.exit)])
               else if r.None? then h == g
               else
                 var i := r.value;
                 && h.waiters == g.waiters && h.answered == g.answered
                 && h.released == g.released + multiset(g.procs[i].reaped)
                 && h.procs == g.procs[i := h.procs[i]]
                 && h.procs[i].name == g.procs[i].name && h.procs[i].run == g.procs[i].run && h.procs[i].pid == 0
                 && (if oom then h.procs[i].gen == g.procs[i].gen else h.procs[i].gen > g.gens)
                 && (!oom ==> h.procs[i].exit == Some(d.exit))
                 && h.sent == (if g.stopping && !oom then g.sent else g.sent + [Sent(d.pid, SIGKILL)])
  {
    var r := ByPid(g.procs, d.pid);
    if d.pid !in g.waiters && r.Some? && !oom {
      RouteExitIs(g, d, r.value);
      hide Route;
    }
  }

  /** `h` is `g` once the exit `d` went to the exec that owns it; to the one process whose run it was; or, a stranger's,
      to nobody. For a run a kill goes to the group of the number it had, and under a sandbox stop not even that. */
  ghost predicate WentToOwner(g: Guest, kernel: Kernel, d: Death, oom: bool, h: Guest)
    requires d.pid in kernel
  {
    match kernel[d.pid]
    case Exec(e) =>
      && d.pid in g.waiters && g.waiters[d.pid] == e
      && h == g.(waiters := g.waiters - {d.pid}, answered := g.answered + [(e, d.exit)])
    case Stranger => h == g
    case NamedRun(r) =>
      && (h.waiters, h.answered, |h.procs|) == (g.waiters, g.answered, |g.procs|)
      && exists i | 0 <= i < |g.procs| ::
           && g.procs[i].run == r && g.procs[i].pid == d.pid && h.procs[i].pid == 0 && h.procs[i].run == r
           && (!oom ==> h.procs[i].exit == Some(d.exit))
           && h.released == g.released + multiset(g.procs[i].reaped)
           && h.sent == (if g.stopping && !oom then g.sent else g.sent + [Sent(d.pid, SIGKILL)])
           && (forall j | 0 <= j < |g.procs| && j != i :: h.procs[j] == g.procs[j])
  }

  /** A reaped exit goes to its owner, in a batch that has hit the memory bound too. */
  lemma ExitGoesToOwner(g: Guest, kernel: Kernel, hit: bool, d: Death, oom: bool)
    requires Inv(g, kernel, hit) && d.pid in kernel
    ensures WentToOwner(g, kernel, d, oom, Route(g, d, oom))
  {
    hide TableOk, EntriesOk, TimersOk, ExecsOk, StopsOk, EmitsOk, ByPid, Route;
    RouteEdits(g, d, oom);
    var r := ByPid(g.procs, d.pid);
    assert 0 !in kernel;
    if kernel[d.pid].NamedRun? {
      assert d.pid !in g.waiters;
      assert r.Some?;
      assert g.procs[r.value].run == kernel[d.pid].run;
    } else if kernel[d.pid].Stranger? {
      assert d.pid !in g.waiters;
      assert r.None?;
    }
  }

  lemma {:induction false} AllowedPrefix(kernel: Kernel, events: seq<KernelEvent>, k: nat)
    requires Allowed(kernel, events) && k <= |events|
    ensures Allowed(kernel, events[..k])
    decreases |events|
  {
    if k == |events| {
      assert events[..k] == events;
    } else {
      var n := |events| - 1;
      AllowedPrefix(kernel, events[..n], k);
      assert events[..n][..k] == events[..k];
    }
  }

  /** Event `k` of a batch is a death: the batch up to it, with it, and the kernel at that moment. */
  ghost predicate DeathTold(g: Guest, kernel: Kernel, events: seq<KernelEvent>, k: nat)
    requires k < |events| && events[k].Died?
  {
    var d, at := events[k].death, KernelAfter(kernel, events[..k]);
    var b, b' := ReapAll(g, Deaths(events[..k])), ReapAll(g, Deaths(events[..k + 1]));
    && d.pid in at && KernelAfter(kernel, events[..k + 1]) == at - {d.pid}
    && b'.oom == (b.oom || (d.exit.signal == SIGKILL && d.hit))
    && WentToOwner(b.g, at, d, b'.oom, b'.g)
  }

  /** Every death of every batch goes to whoever owns the pid at that moment, however pids were given out again within
      the batch. */
  lemma {:induction false} EveryDeathGoesToOwner(g: Guest, kernel: Kernel, events: seq<KernelEvent>, k: nat)
    requires Inv(g, kernel, false) && Allowed(kernel, events) && k < |events| && events[k].Died?
    ensures DeathTold(g, kernel, events, k)
  {
    hide Inv, Route, WentToOwner;
    AllowedPrefix(kernel, events, k + 1);
    var now := events[..k + 1];
    assert now[..k] == events[..k] && now[k] == events[k];
    BatchKeeps(g, kernel, events[..k]);
    var d, b := events[k].death, ReapAll(g, Deaths(events[..k]));
    assert Deaths(now)[..|Deaths(now)| - 1] == Deaths(events[..k]);
    ExitGoesToOwner(b.g, KernelAfter(kernel, events[..k]), b.oom, d, b.oom || (d.exit.signal == SIGKILL && d.hit));
  }

  // Whom the kill of what a run left can meet.

  /** `x` is the kill for the run that ended at event `k`. */
  ghost predicate KillFor(kernel: Kernel, events: seq<KernelEvent>, k: nat, x: Sent) {
    && k < |events| && events[k].Died? && x == Sent(events[k].death.pid, SIGKILL)
    && x.leader in KernelAfter(kernel, events[..k]) && KernelAfter(kernel, events[..k])[x.leader].NamedRun?
  }

  /** What a batch sends: kills, each for a run that ended in the batch. */
  ghost predicate KillsEnded(g: Guest, h: Guest, kernel: Kernel, events: seq<KernelEvent>) {
    && g.sent <= h.sent
    && forall n | |g.sent| <= n < |h.sent| :: KillForOne(kernel, events, h.sent[n])
  }

  ghost predicate KillForOne(kernel: Kernel, events: seq<KernelEvent>, x: Sent) {
    exists k: nat :: KillFor(kernel, events, k, x)
  }

  lemma KillsEndedOn(g: Guest, h: Guest, h': Guest, kernel: Kernel, events: seq<KernelEvent>, x: Sent)
    requires events != [] && KillsEnded(g, h, kernel, events[..|events| - 1])
    requires h'.sent == h.sent || (h'.sent == h.sent + [x] && KillFor(kernel, events, |events| - 1, x))
    ensures KillsEnded(g, h', kernel, events)
  {
    var n := |events| - 1;
    assert g.sent <= h'.sent by { assert h'.sent[..|g.sent|] == h.sent[..|g.sent|] == g.sent; }
    forall j | |g.sent| <= j < |h'.sent| ensures KillForOne(kernel, events, h'.sent[j]) {
      if j < |h.sent| {
        assert KillForOne(kernel, events[..n], h.sent[j]);
        var k: nat :| KillFor(kernel, events[..n], k, h.sent[j]);
        assert events[..n][..k] == events[..k];
        assert KillFor(kernel, events, k, h'.sent[j]);
      } else {
        assert KillFor(kernel, events, n, h'.sent[j]);
      }
    }
  }

  /** The last death of a batch sends the kill of its run, or nothing. */
  lemma {:induction false} LastSends(g: Guest, kernel: Kernel, events: seq<KernelEvent>, x: Sent)
    requires Inv(g, kernel, false) && Allowed(kernel, events) && events != [] && events[|events| - 1].Died?
    requires x == Sent(events[|events| - 1].death.pid, SIGKILL)
    ensures var b, b' := ReapAll(g, Deaths(events[..|events| - 1])), ReapAll(g, Deaths(events));
            b'.g.sent == b.g.sent || (b'.g.sent == b.g.sent + [x] && KillFor(kernel, events, |events| - 1, x))
  {
    hide Inv, ReapAll, Allowed, KernelAfter, Deaths;
    var n := |events| - 1;
    EveryDeathGoesToOwner(g, kernel, events, n);
    assert events[..n + 1] == events;
  }

  lemma {:induction false} CollectKills(g: Guest, kernel: Kernel, events: seq<KernelEvent>)
    requires Inv(g, kernel, false) && Allowed(kernel, events)
    ensures KillsEnded(g, ReapAll(g, Deaths(events)).g, kernel, events)
  {
    hide Inv, Reap, KillsEnded, KillFor, KernelAfter;
    if events == [] {
      NothingSent(g, kernel, events);
    } else {
      var n := |events| - 1;
      var x := Sent(if events[n].Died? then events[n].death.pid else 0, SIGKILL);
      CollectKills(g, kernel, events[..n]);
      if events[n].Died? {
        LastSends(g, kernel, events, x);
      }
      KillsEndedOn(g, ReapAll(g, Deaths(events[..n])).g, ReapAll(g, Deaths(events)).g, kernel, events, x);
    }
  }

  lemma NothingSent(g: Guest, kernel: Kernel, events: seq<KernelEvent>)
    ensures KillsEnded(g, g, kernel, events)
  {
  }

  /** The number of the death at `k` is given out again, and its new owner not reaped in turn. */
  ghost predicate GivenOutAgain(events: seq<KernelEvent>, k: nat)
    requires k < |events| && events[k].Died?
  {
    exists j | k < j < |events| :: events[j] == Born(events[k].death.pid) && Unended(events, j)
  }

  predicate Unended(events: seq<KernelEvent>, j: nat)
    requires j < |events| && events[j].Born?
  {
    forall m | j < m < |events| :: !(events[m].Died? && events[m].death.pid == events[j].pid)
  }

  /** A kill goes out only once its whole batch is reaped. It meets an unreaped process of that number if and only if
      the number was given out again since, and then it is a stranger's, which the guest never started. */
  lemma {:induction false} KillMeetsIff(kernel: Kernel, events: seq<KernelEvent>, k: nat)
    requires Allowed(kernel, events) && k < |events| && events[k].Died?
    ensures var pid, now := events[k].death.pid, KernelAfter(kernel, events);
            && (pid in now <==> GivenOutAgain(events, k))
            && (pid in now ==> now[pid].Stranger?)
    decreases |events|
  {
    var n, pid := |events| - 1, events[k].death.pid;
    if k < n {
      var was := events[..n];
      KillMeetsIff(kernel, was, k);
      if events[n] == Born(pid) {
        assert Unended(events, n);
      } else if events[n].Died? && events[n].death.pid == pid {
        assert forall j | k < j < n && events[j] == Born(pid) :: !Unended(events, j);
      } else {
        GivenOutKept(events, k);
      }
    }
  }

  lemma GivenOutKept(events: seq<KernelEvent>, k: nat)
    requires k < |events| - 1 && events[k].Died?
    requires events[|events| - 1] != Born(events[k].death.pid)
    requires events[|events| - 1].Died? ==> events[|events| - 1].death.pid != events[k].death.pid
    ensures GivenOutAgain(events, k) <==> GivenOutAgain(events[..|events| - 1], k)
  {
    var n, pid := |events| - 1, events[k].death.pid;
    var was := events[..n];
    forall j | k < j < n && events[j] == Born(pid) ensures Unended(events, j) <==> Unended(was, j) {
      assert forall m | j < m < n :: was[m] == events[m];
    }
    if GivenOutAgain(events, k) {
      var j :| k < j < |events| && events[j] == Born(pid) && Unended(events, j);
      assert was[j] == Born(pid) && Unended(was, j);
    }
    if GivenOutAgain(was, k) {
      var j :| k < j < n && was[j] == Born(pid) && Unended(was, j);
      assert events[j] == Born(pid) && Unended(events, j);
    }
  }

  lemma {:induction false} OneMoreEvent(kernel: Kernel, events: seq<KernelEvent>, e: KernelEvent)
    ensures var before := KernelAfter(kernel, events);
            && (Allowed(kernel, events + [e]) <==>
                  Allowed(kernel, events) && if e.Born? then e.pid != 0 && e.pid !in before else e.death.pid in before)
            && KernelAfter(kernel, events + [e]) ==
              (if e.Born? then before[e.pid := Stranger] else before - {e.death.pid})
            && Deaths(events + [e]) == (if e.Born? then Deaths(events) else Deaths(events) + [e.death])
  {
    assert (events + [e])[..|events|] == events;
  }

  lemma {:induction false} NoEvents(kernel: Kernel)
    ensures Allowed(kernel, []) && KernelAfter(kernel, []) == kernel && Deaths([]) == []
  {
  }

  /** A child is reaped and its number is given out again at once. */
  lemma {:induction false} ReapedAndReused(kernel: Kernel, d: Death)
    requires d.pid in kernel && d.pid != 0
    ensures var events := [Died(d), Born(d.pid)];
            && Allowed(kernel, events) && KernelAfter(kernel, events) == kernel[d.pid := Stranger]
            && Deaths(events) == [d]
  {
    hide Allowed, KernelAfter, Deaths;
    NoEvents(kernel);
    OneMoreEvent(kernel, [], Died(d));
    OneMoreEvent(kernel, [] + [Died(d)], Born(d.pid));
    assert [] + [Died(d)] + [Born(d.pid)] == [Died(d), Born(d.pid)];
    assert (kernel - {d.pid})[d.pid := Stranger] == kernel[d.pid := Stranger];
    assert [] + [d] == [d];
  }

  /** What one death of a named process's run sends. */
  lemma {:induction false} OneDeath(g: Guest, kernel: Kernel, d: Death)
    requires Inv(g, kernel, false) && d.pid in kernel && kernel[d.pid].NamedRun?
    ensures var oom := d.exit.signal == SIGKILL && d.hit;
            Closed(ReapAll(g, [d])).sent ==
            (if g.stopping && !oom then g.sent else g.sent + [Sent(d.pid, SIGKILL)])
  {
    var oom := d.exit.signal == SIGKILL && d.hit;
    assert [d][..0] == [];
    assert ReapAll(g, [d]).g == Route(g, d, oom);
    ExitGoesToOwner(g, kernel, false, d, oom);
    hide Route, ReapAll, Inv;
  }

  /** It does happen: of any run that ends outside a sandbox stop the number can be a stranger's by the time of the
      kill. */
  lemma {:induction false} KillCanMeetStranger(g: Guest, kernel: Kernel, d: Death)
    requires Inv(g, kernel, false) && d.pid in kernel && kernel[d.pid].NamedRun? && !g.stopping
    ensures var events := [Died(d), Born(d.pid)];
            && Allowed(kernel, events) && KernelAfter(kernel, events) == kernel[d.pid := Stranger]
            && Closed(ReapAll(g, Deaths(events))).sent == g.sent + [Sent(d.pid, SIGKILL)]
  {
    assert d.pid != 0 by { assert KernelOk(g.procs, g.waiters, kernel); }
    hide Inv, ReapAll, Allowed, KernelAfter, Deaths;
    ReapedAndReused(kernel, d);
    OneDeath(g, kernel, d);
  }

  /** A signal by pid is passed on exactly for the unreaped children the guest started, so never for a reused pid. */
  lemma SignalReachesOwnOnly(g: Guest, kernel: Kernel, pid: int)
    requires Inv(g, kernel, false)
    ensures Tracks(g, pid) <==> pid > 0 && pid in kernel && !kernel[pid].Stranger?
  {
    if pid > 0 && pid in kernel && kernel[pid].NamedRun? {
      var i :| 0 <= i < |g.procs| && g.procs[i].pid == pid;
    }
  }

  /** A process of the table runs exactly while a run of a named process is unreaped. */
  lemma RunsAreUnreaped(g: Guest, kernel: Kernel)
    requires Inv(g, kernel, false)
    ensures AnyRuns(g.procs) <==> exists pid | pid in kernel :: kernel[pid].NamedRun?
  {
    hide TableOk, EntriesOk, TimersOk, ExecsOk, StopsOk, EmitsOk;
    if AnyRuns(g.procs) {
      var i :| 0 <= i < |g.procs| && g.procs[i].pid != 0;
      assert kernel[g.procs[i].pid].NamedRun?;
    }
    forall pid | pid in kernel && kernel[pid].NamedRun? ensures AnyRuns(g.procs) {
      var i :| 0 <= i < |g.procs| && g.procs[i].pid == pid;
    }
  }

  /** And the kill of an exec is sent exactly for the unreaped processes of execs. */
  lemma KillReachesExecOnly(g: Guest, kernel: Kernel, pid: nat)
    requires Inv(g, kernel, false)
    ensures pid in g.waiters <==> pid in kernel && kernel[pid].Exec?
  {
  }

  /** What a stop of one process leaves of the table: the entry of that name under a fresh generation, and every other
      as it was. */
  lemma {:induction false} StopProcessEdits(g: Guest, name: string, graceful: bool)
    ensures var h, r := StopProcess(g, name, graceful), Named(g.procs, name);
            && h.runs == g.runs && h.stopping == g.stopping && h.oom == g.oom && g.gens <= h.gens
            && |h.procs| == |g.procs|
            && g.released <= h.released
            && if r.None? || g.procs[r.value].state.Ended() then h.procs == g.procs && h.sent == g.sent
               else
                 var i := r.value;
                 var p, q := g.procs[i], h.procs[i];
                 && h.procs == g.procs[i := q] && q.name == p.name && q.run == p.run && q.pid == p.pid && q.gen > g.gens
                 && p.reaped <= q.reaped
                 && h.sent ==
                   if p.pid == 0 then g.sent else g.sent + [Sent(p.pid, if graceful then SIGTERM else SIGKILL)]
  {
    hide Named, IsNamed, StopWaiting, StopRunning;
    var r := Named(g.procs, name);
    if r.Some? && !g.procs[r.value].state.Ended() {
      var i, p := r.value, g.procs[r.value];
      if p.pid == 0 {
        StopWaitingIs(Answer(g.(issued := g.issued + 1), g.issued), i);
      } else {
        StopRunningIs(g.(issued := g.issued + 1), i, g.issued, graceful);
      }
    }
  }

  /** A due, a stop and a stop of one process signal only groups whose leader is an unreaped run of the table. */
  ghost predicate SignalsOwn(g: Guest, h: Guest, kernel: Kernel) {
    && g.sent <= h.sent
    && forall k | |g.sent| <= k < |h.sent| ::
         h.sent[k].leader in kernel && kernel[h.sent[k].leader].NamedRun?
  }

  lemma DueSignalsOwn(g: Guest, kernel: Kernel, frozen: bool, due: Due, forked: Option<nat>)
    requires Inv(g, kernel, false)
    ensures SignalsOwn(g, Wake(g, frozen, due, forked).0, kernel)
  {
  }

  lemma StopProcessSignalsOwn(g: Guest, kernel: Kernel, name: string, graceful: bool)
    requires Inv(g, kernel, false)
    ensures SignalsOwn(g, StopProcess(g, name, graceful), kernel)
  {
    hide TableOk, EntriesOk, TimersOk, ExecsOk, StopsOk, EmitsOk, StopProcess, IsNamed;
    StopProcessEdits(g, name, graceful);
  }

  lemma StopSignalsOwn(g: Guest, kernel: Kernel, signal: int)
    requires Inv(g, kernel, false)
    ensures SignalsOwn(g, Stop(g, signal), kernel)
    ensures forall i | 0 <= i < |g.procs| && g.procs[i].pid != 0 ::
              Sent(g.procs[i].pid, signal) in Stop(g, signal).sent[|g.sent|..]
  {
    hide TableOk, EntriesOk, TimersOk, ExecsOk, StopsOk, EmitsOk;
    var f := Forwarded(g.procs, signal);
    ForwardedReaches(g.procs, signal);
    assert forall x | x in f :: x.leader in kernel && kernel[x.leader].NamedRun?;
    assert Stop(g, signal).sent[|g.sent|..] == f;
    assert forall k | |g.sent| <= k < |g.sent| + |f| :: (g.sent + f)[k] == f[k - |g.sent|];
  }

  // Stale timers.

  ghost predicate Stale(g: Guest, due: Due) {
    due.gen <= g.gens && forall i | 0 <= i < |g.procs| :: !Matches(g, due, i)
  }

  /** Every generation in `h` is new since `g`, or one the entry of that name had. */
  ghost predicate GensMove(g: Guest, h: Guest) {
    && g.gens <= h.gens
    && forall j | 0 <= j < |h.procs| ::
         h.procs[j].gen > g.gens
         || exists i | 0 <= i < |g.procs| :: g.procs[i].name == h.procs[j].name && g.procs[i].gen == h.procs[j].gen
  }

  lemma StaleMoves(g: Guest, h: Guest, due: Due)
    requires GensMove(g, h) && Stale(g, due)
    ensures Stale(h, due)
  {
    forall j | 0 <= j < |h.procs| ensures !Matches(h, due, j) {
      if Matches(h, due, j) {
        var i :| 0 <= i < |g.procs| && g.procs[i].name == h.procs[j].name && g.procs[i].gen == h.procs[j].gen;
        assert Matches(g, due, i);
      }
    }
  }

  lemma GensMoveTwice(f: Guest, g: Guest, h: Guest)
    requires GensMove(f, g) && GensMove(g, h)
    ensures GensMove(f, h)
  {
    forall j | 0 <= j < |h.procs|
      ensures h.procs[j].gen > f.gens ||
              exists i | 0 <= i < |f.procs| :: f.procs[i].name == h.procs[j].name && f.procs[i].gen == h.procs[j].gen {
      if h.procs[j].gen <= g.gens {
        var i :| 0 <= i < |g.procs| && g.procs[i].name == h.procs[j].name && g.procs[i].gen == h.procs[j].gen;
      }
    }
  }

  lemma SameGens(g: Guest, h: Guest)
    requires |g.procs| <= |h.procs| && g.gens <= h.gens
    requires forall i | 0 <= i < |h.procs| ::
               h.procs[i].gen > g.gens
               || (i < |g.procs| && h.procs[i].name == g.procs[i].name && h.procs[i].gen == g.procs[i].gen)
    ensures GensMove(g, h)
  {
    forall j | 0 <= j < |h.procs|
      ensures h.procs[j].gen > g.gens ||
              exists i | 0 <= i < |g.procs| :: g.procs[i].name == h.procs[j].name && g.procs[i].gen == h.procs[j].gen {
    }
  }

  lemma RouteMoves(g: Guest, d: Death, oom: bool)
    ensures GensMove(g, Route(g, d, oom))
  {
    hide Route;
    RouteEdits(g, d, oom);
    SameGens(g, Route(g, d, oom));
  }

  lemma {:induction false} ReapMoves(g: Guest, deaths: seq<Death>)
    ensures GensMove(g, ReapAll(g, deaths).g)
  {
    hide Route, GensMove;
    if deaths == [] {
      SameGens(g, g);
    } else {
      var n := |deaths| - 1;
      var b := ReapAll(g, deaths[..n]);
      ReapMoves(g, deaths[..n]);
      var oom := b.oom || (deaths[n].exit.signal == SIGKILL && deaths[n].hit);
      RouteMoves(b.g, deaths[n], oom);
      GensMoveTwice(g, b.g, Route(b.g, deaths[n], oom));
    }
  }

  lemma RunMoves(g: Guest, frozen: bool, name: string, restart: RestartPolicy, piped: bool, forked: Option<nat>)
    ensures GensMove(g, Run(g, frozen, name, restart, piped, forked).0)
  {
    var h := Run(g, frozen, name, restart, piped, forked).0;
    var r := Replaced(g.procs, name);
    forall j | 0 <= j < |h.procs|
      ensures h.procs[j].gen > g.gens ||
              exists i | 0 <= i < |g.procs| :: g.procs[i].name == h.procs[j].name && g.procs[i].gen == h.procs[j].gen {
      if h.procs[j].gen <= g.gens {
        assert h.procs[j] == if h.procs == g.procs || r.None? || j < r.value then g.procs[j] else g.procs[j + 1];
      }
    }
  }

  lemma WakeMoves(g: Guest, frozen: bool, due: Due, forked: Option<nat>)
    ensures GensMove(g, Wake(g, frozen, due, forked).0)
  {
    SameGens(g, Wake(g, frozen, due, forked).0);
  }

  lemma StopProcessMoves(g: Guest, name: string, graceful: bool)
    ensures GensMove(g, StopProcess(g, name, graceful))
  {
    hide StopProcess, IsNamed;
    StopProcessEdits(g, name, graceful);
    SameGens(g, StopProcess(g, name, graceful));
  }

  lemma NextMoves(w: World, s: Step)
    ensures GensMove(w.g, Next(w, s).g)
  {
    hide GensMove, Run, Wake, StopProcess, Route, ReapAll;
    match s {
      case RunStep(name, restart, piped, forked) => RunMoves(w.g, w.frozen, name, restart, piped, forked);
      case ReapStep(events) =>
        ReapMoves(w.g, Deaths(events));
        var b := ReapAll(w.g, Deaths(events));
        SameGens(b.g, Closed(b));
        GensMoveTwice(w.g, b.g, Closed(b));
      case DueStep(due, forked) => WakeMoves(w.g, w.frozen, due, forked);
      case StopProcessStep(name, graceful) => StopProcessMoves(w.g, name, graceful);
      case StopStep(signal, _, _) => SameGens(w.g, Stop(w.g, signal));
      case _ => SameGens(w.g, Next(w, s).g);
    }
  }

  /** A stale due stays stale over every run. */
  lemma {:induction false} StaleForever(w: World, steps: seq<Step>, due: Due)
    requires Stale(w.g, due)
    ensures Stale(After(w, steps).g, due)
    decreases |steps|
  {
    hide Stale, GensMove, Next;
    if steps != [] {
      NextMoves(w, steps[0]);
      StaleMoves(w.g, Next(w, steps[0]).g, due);
      StaleForever(Next(w, steps[0]), steps[1..], due);
    }
  }

  /** And a stale due does nothing when it is delivered. */
  lemma StaleDoesNothing(g: Guest, frozen: bool, due: Due, forked: Option<nat>)
    requires Stale(g, due)
    ensures Wake(g, frozen, due, forked) == (g.(pending := g.pending - multiset{due}), false)
  {
    var r := Named(g.procs, due.name);
    assert r.Some? ==> !Matches(g, due, r.value);
  }

  /** What a stop of the process cancels: every timer armed for that name. */
  lemma StopProcessCancels(g: Guest, kernel: Kernel, name: string, graceful: bool, due: Due)
    requires Inv(g, kernel, false) && due in g.pending && due.name == name
    ensures Stale(StopProcess(g, name, graceful), due)
  {
    hide EntriesOk, KernelOk, ExecsOk, StopsOk, EmitsOk, StopProcess;
    var r := Named(g.procs, name);
    StopProcessEdits(g, name, graceful);
    if r.Some? {
      OnlyNamed(g.procs, r.value, name);
      assert TimerOk(g.procs[r.value], g.pending, false);
      assert due == Due(name, due.gen, due.kill);
    }
  }

  lemma OnlyNamed(procs: seq<Proc>, i: nat, name: string)
    requires TableOk(procs) && i < |procs| && procs[i].name == name
    ensures forall j | 0 <= j < |procs| && j != i :: procs[j].name != name
  {
  }

  /** What a sandbox stop cancels: every timer. */
  lemma StopCancels(g: Guest, kernel: Kernel, signal: int, due: Due)
    requires Inv(g, kernel, false) && due in g.pending
    ensures Stale(Stop(g, signal), due)
  {
  }

  /** What a batch that hit the memory bound cancels: every timer armed before it, and every one armed in it before the
      hit. */
  lemma {:induction false} OomCancels(g: Guest, kernel: Kernel, events: seq<KernelEvent>, due: Due)
    requires Inv(g, kernel, false) && Allowed(kernel, events)
    requires var b := ReapAll(g, Deaths(events)); b.oom && (due in g.pending || due in b.g.pending)
    ensures Stale(Closed(ReapAll(g, Deaths(events))), due)
  {
    ReapMoves(g, Deaths(events));
    BatchKeeps(g, kernel, events);
    hide ReapAll;
  }

  /** What an exit cancels: every timer armed for that name before it. */
  lemma ExitCancels(g: Guest, kernel: Kernel, d: Death, i: nat, due: Due)
    requires Inv(g, kernel, false) && due in g.pending && d.pid !in g.waiters && ByPid(g.procs, d.pid) == Some(i)
    requires due.name == g.procs[i].name
    ensures Stale(Route(g, d, false), due)
  {
    OnlyNamed(g.procs, i, due.name);
    RouteExitIs(g, d, i);
  }

  /** What a run of a name cancels: every timer armed for an earlier process of it. */
  lemma RunCancels(g: Guest, kernel: Kernel, name: string, restart: RestartPolicy, forked: Option<nat>, due: Due)
    requires Inv(g, kernel, false) && due in g.pending && due.name == name
    requires Run(g, false, name, restart, true, forked).1.Started?
    ensures Stale(Run(g, false, name, restart, true, forked).0, due)
  {
    hide EntriesOk, KernelOk, ExecsOk, StopsOk, EmitsOk;
    RunMakesRoom(g, name);
  }

  // Eviction.

  /** A run drops at most one entry, and only one that ended; every other entry stays as it was. */
  lemma RunKeepsLive(g: Guest, frozen: bool, name: string, restart: RestartPolicy, piped: bool, forked: Option<nat>,
                     p: Proc)
    requires p in g.procs && !p.state.Ended()
    ensures p in Run(g, frozen, name, restart, piped, forked).0.procs
  {
    var h := Run(g, frozen, name, restart, piped, forked).0;
    var r := Replaced(g.procs, name);
    if h.procs != g.procs {
      var i :| 0 <= i < |g.procs| && g.procs[i] == p;
      assert r.Some? ==> i != r.value;
      assert h.procs[if r.None? || i < r.value then i else i - 1] == p;
    }
  }

  /** A request that waits is held by a process that runs. */
  lemma WaitingMeansRunning(g: Guest, kernel: Kernel, i: nat)
    requires Inv(g, kernel, false) && i < |g.procs| && g.procs[i].reaped != []
    ensures g.procs[i].state.Running? && g.procs[i].pid in kernel && kernel[g.procs[i].pid] == NamedRun(g.procs[i].run)
  {
    EntryAt(g, kernel, false, i);
  }

  // After a stop or an OOM.

  /** No process starts, and no entry gains a pid. */
  ghost predicate Shrinks(g: Guest, h: Guest) {
    && h.runs == g.runs && |h.procs| == |g.procs|
    && (g.stopping ==> h.stopping) && (g.oom ==> h.oom)
    && forall i | 0 <= i < |g.procs| ::
         h.procs[i].name == g.procs[i].name && h.procs[i].run == g.procs[i].run && h.procs[i].pid in {0, g.procs[i].pid}
  }

  lemma {:induction false} ReapShrinks(g: Guest, deaths: seq<Death>)
    ensures Shrinks(g, ReapAll(g, deaths).g)
  {
    if deaths != [] {
      var n := |deaths| - 1;
      var b := ReapAll(g, deaths[..n]);
      ReapShrinks(g, deaths[..n]);
      hide ReapAll;
      RouteShrinks(b.g, deaths[n], b.oom || (deaths[n].exit.signal == SIGKILL && deaths[n].hit));
    }
  }

  lemma RouteShrinks(g: Guest, d: Death, oom: bool)
    ensures Shrinks(g, Route(g, d, oom))
  {
    hide Route;
    RouteEdits(g, d, oom);
  }

  lemma StopProcessShrinks(g: Guest, name: string, graceful: bool)
    ensures Shrinks(g, StopProcess(g, name, graceful))
  {
    hide StopProcess, IsNamed;
    StopProcessEdits(g, name, graceful);
  }

  lemma SameShrinks(g: Guest)
    ensures Shrinks(g, g)
  {
  }

  lemma RunShrinks(g: Guest, frozen: bool, name: string, restart: RestartPolicy, piped: bool, forked: Option<nat>)
    requires g.stopping || g.oom
    ensures Shrinks(g, Run(g, frozen, name, restart, piped, forked).0)
  {
  }

  lemma ClosedShrinks(g: Guest, b: Batch)
    requires Shrinks(g, b.g)
    ensures Shrinks(g, Closed(b))
  {
  }

  lemma WakeShrinks(g: Guest, frozen: bool, due: Due, forked: Option<nat>)
    requires g.stopping || g.oom
    ensures Shrinks(g, Wake(g, frozen, due, forked).0)
  {
  }

  lemma StopShrinks(g: Guest, signal: int)
    ensures Shrinks(g, Stop(g, signal))
  {
  }

  lemma SpawnShrinks(g: Guest, pid: nat)
    ensures Shrinks(g, Spawned(g, pid))
  {
  }

  lemma NextShrinks(w: World, s: Step)
    requires w.g.stopping || w.g.oom
    ensures Shrinks(w.g, Next(w, s).g)
  {
    hide ReapAll, StopProcess, Wake, Run, Stop, Shrinks, Spawned, Deaths;
    SameShrinks(w.g);
    match s {
      case RunStep(name, restart, piped, forked) => RunShrinks(w.g, w.frozen, name, restart, piped, forked);
      case ReapStep(events) =>
        ReapShrinks(w.g, Deaths(events));
        ClosedShrinks(w.g, ReapAll(w.g, Deaths(events)));
      case DueStep(due, forked) => WakeShrinks(w.g, w.frozen, due, forked);
      case StopProcessStep(name, graceful) => StopProcessShrinks(w.g, name, graceful);
      case StopStep(signal, _, _) => StopShrinks(w.g, signal);
      case SpawnStep(forked) =>
        if forked.Some? {
          SpawnShrinks(w.g, forked.value);
        }
      case _ =>
    }
  }

  /** Once a stop or an OOM is recorded, over every run no named process starts again and live pids only shrink. */
  lemma {:induction false} NothingStartsAfterStop(w: World, steps: seq<Step>)
    requires w.g.stopping || w.g.oom
    ensures Shrinks(w.g, After(w, steps).g)
    decreases |steps|
  {
    hide Next;
    if steps != [] {
      NextShrinks(w, steps[0]);
      NothingStartsAfterStop(Next(w, steps[0]), steps[1..]);
    }
  }

  // What the invariant says of whole runs from boot.

  /** In every run a name has one entry, its live pid is its own, at most one timer of it counts, and the retries hold.
      */
  lemma {:induction false} EveryRun(steps: seq<Step>, i: nat)
    requires IsRun(BOOT, steps) && i < |After(BOOT, steps).g.procs|
    ensures var w := After(BOOT, steps);
            var p := w.g.procs[i];
            && |w.g.procs| <= MAX_PROCESSES
            && (forall j | 0 <= j < |w.g.procs| && j != i ::
                  w.g.procs[j].name != p.name && (p.pid != 0 ==> w.g.procs[j].pid != p.pid))
            && (p.pid != 0 ==> p.pid in w.kernel && w.kernel[p.pid] == NamedRun(p.run) && p.pid !in w.g.waiters)
            && TimerOk(p, w.g.pending, false)
            && (p.restart.Limited() ==> RetriesBounded(p.life, p.restart.retries))
  {
    hide After, IsRun, Streak, Starts, StreaksWithin, RetriesBounded;
    BootIsSound();
    RunsAreSound(BOOT, steps);
    var w := After(BOOT, steps);
    var p := w.g.procs[i];
    EntryAt(w.g, w.kernel, false, i);
    if p.restart.Limited() {
      StreaksBoundRetries(p.life, p.restart.retries);
    }
  }

  // Stop requests, step by step.

  /** The request waits at the entry of `run`. */
  ghost predicate WaitsAt(g: Guest, run: nat, id: nat) {
    exists i | 0 <= i < |g.procs| :: g.procs[i].run == run && id in g.procs[i].reaped
  }

  /** The request is answered, and the entry of `run` has no pid. */
  ghost predicate LetGo(g: Guest, run: nat, id: nat) {
    g.released[id] >= 1 && exists i | 0 <= i < |g.procs| :: g.procs[i].run == run && g.procs[i].pid == 0
  }

  /** The run of a named process is unreaped. */
  ghost predicate Unreaped(kernel: Kernel, run: nat) {
    exists pid | pid in kernel :: kernel[pid] == NamedRun(run)
  }

  lemma {:induction false} HeldSomewhere(procs: seq<Proc>, id: nat)
    ensures Held(procs, id) > 0 <==> exists i | 0 <= i < |procs| :: id in procs[i].reaped
  {
    if procs != [] {
      var n := |procs| - 1;
      HeldSomewhere(procs[..n], id);
      if id in procs[n].reaped {
        assert 0 <= n < |procs| && id in procs[n].reaped;
      } else if Held(procs[..n], id) > 0 {
        var i :| 0 <= i < n && id in procs[..n][i].reaped;
        assert id in procs[i].reaped;
      } else {
        assert forall i | 0 <= i < n :: procs[i] == procs[..n][i];
      }
    }
  }

  lemma WaitsMeansUnreaped(g: Guest, kernel: Kernel, run: nat, id: nat)
    requires Inv(g, kernel, false) && WaitsAt(g, run, id)
    ensures g.released[id] == 0 && Unreaped(kernel, run)
  {
    hide EntriesOk, TimersOk, ExecsOk, EmitsOk, TableOk;
    HeldSomewhere(g.procs, id);
    var i :| 0 <= i < |g.procs| && g.procs[i].run == run && id in g.procs[i].reaped;
    WaitingMeansRunning(g, kernel, i);
  }

  lemma LetGoMeansReaped(g: Guest, kernel: Kernel, run: nat, id: nat)
    requires Inv(g, kernel, false) && LetGo(g, run, id)
    ensures g.released[id] == 1 && !Unreaped(kernel, run)
  {
    hide EntriesOk, TimersOk, ExecsOk, EmitsOk;
    assert g.released[id] + Held(g.procs, id) == if id < g.issued then 1 else 0;
    var i :| 0 <= i < |g.procs| && g.procs[i].run == run && g.procs[i].pid == 0;
    forall pid | pid in kernel && kernel[pid].NamedRun? ensures kernel[pid].run != run {
      var j :| 0 <= j < |g.procs| && g.procs[j].pid == pid;
      assert j != i;
    }
  }

  /** Over a batch the entry at `i` keeps its requests until its pid is reaped, and then they are answered. */
  lemma {:induction false} ReapLetsGo(g: Guest, deaths: seq<Death>, i: nat, id: nat)
    requires i < |g.procs| && id in g.procs[i].reaped
    ensures var h := ReapAll(g, deaths).g;
            && g.released <= h.released && |h.procs| == |g.procs| && h.procs[i].run == g.procs[i].run
            && (id in h.procs[i].reaped || (h.released[id] >= 1 && h.procs[i].pid == 0))
  {
    hide Route, ByPid;
    if deaths != [] {
      var n := |deaths| - 1;
      var b := ReapAll(g, deaths[..n]);
      ReapLetsGo(g, deaths[..n], i, id);
      RouteEdits(b.g, deaths[n], b.oom || (deaths[n].exit.signal == SIGKILL && deaths[n].hit));
    }
  }

  lemma {:induction false} ReapTells(g: Guest, deaths: seq<Death>, run: nat, id: nat)
    requires WaitsAt(g, run, id)
    ensures var h := Closed(ReapAll(g, deaths)); WaitsAt(h, run, id) || LetGo(h, run, id)
  {
    hide ReapAll;
    var i :| 0 <= i < |g.procs| && g.procs[i].run == run && id in g.procs[i].reaped;
    ReapLetsGo(g, deaths, i, id);
    var h := Closed(ReapAll(g, deaths));
    assert h.procs[i].run == run;
  }

  lemma RunWaits(g: Guest, kernel: Kernel, frozen: bool, name: string, restart: RestartPolicy, piped: bool,
                 forked: Option<nat>,
                 run: nat, id: nat)
    requires Inv(g, kernel, false) && WaitsAt(g, run, id)
    ensures WaitsAt(Run(g, frozen, name, restart, piped, forked).0, run, id)
  {
    hide Run, Inv;
    var i :| 0 <= i < |g.procs| && g.procs[i].run == run && id in g.procs[i].reaped;
    WaitingMeansRunning(g, kernel, i);
    RunKeepsLive(g, frozen, name, restart, piped, forked, g.procs[i]);
  }

  lemma WakeWaits(g: Guest, kernel: Kernel, frozen: bool, due: Due, forked: Option<nat>, run: nat, id: nat)
    requires Inv(g, kernel, false) && due in g.pending && WaitsAt(g, run, id)
    ensures WaitsAt(Wake(g, frozen, due, forked).0, run, id)
  {
    hide EntriesOk, KernelOk, ExecsOk, StopsOk, EmitsOk, TableOk;
    var i :| 0 <= i < |g.procs| && g.procs[i].run == run && id in g.procs[i].reaped;
    WaitingMeansRunning(g, kernel, i);
    var h := Wake(g, frozen, due, forked).0;
    assert TimerOk(g.procs[i], g.pending, false);
    assert h.procs[i].run == run && h.procs[i].reaped == g.procs[i].reaped;
  }

  lemma StopProcessWaits(g: Guest, name: string, graceful: bool, run: nat, id: nat)
    requires WaitsAt(g, run, id)
    ensures WaitsAt(StopProcess(g, name, graceful), run, id)
  {
    hide StopProcess, IsNamed;
    StopProcessEdits(g, name, graceful);
    var i :| 0 <= i < |g.procs| && g.procs[i].run == run && id in g.procs[i].reaped;
    var h := StopProcess(g, name, graceful);
    assert g.procs[i].reaped <= h.procs[i].reaped;
    assert h.procs[i].run == run;
  }

  lemma StopWaits(g: Guest, signal: int, run: nat, id: nat)
    requires WaitsAt(g, run, id)
    ensures WaitsAt(Stop(g, signal), run, id)
  {
    var i :| 0 <= i < |g.procs| && g.procs[i].run == run && id in g.procs[i].reaped;
    assert Stop(g, signal).procs[i].run == run;
  }

  lemma SpawnWaits(g: Guest, pid: nat, run: nat, id: nat)
    requires WaitsAt(g, run, id)
    ensures WaitsAt(Spawned(g, pid), run, id)
  {
    var i :| 0 <= i < |g.procs| && g.procs[i].run == run && id in g.procs[i].reaped;
    assert Spawned(g, pid).procs[i].run == run;
  }

  /** Whatever the step, a request goes on waiting at its run, or a batch of deaths let it go with the run's pid. */
  lemma NextWaits(w: World, s: Step, run: nat, id: nat)
    requires Sound(w) && Enabled(w, s) && WaitsAt(w.g, run, id)
    ensures var h := Next(w, s).g; WaitsAt(h, run, id) || (s.ReapStep? && LetGo(h, run, id))
  {
    hide Inv, Run, Wake, StopProcess, Stop, ReapAll, Closed, Deaths, Allowed, KernelAfter, WaitsAt, LetGo, Spawned;
    match s {
      case RunStep(name, restart, piped, forked) =>
        RunWaits(w.g, w.kernel, w.frozen, name, restart, piped, forked, run, id);
      case ReapStep(events) => ReapTells(w.g, Deaths(events), run, id);
      case DueStep(due, forked) => WakeWaits(w.g, w.kernel, w.frozen, due, forked, run, id);
      case StopProcessStep(name, graceful) => StopProcessWaits(w.g, name, graceful, run, id);
      case StopStep(signal, _, _) => StopWaits(w.g, signal, run, id);
      case SpawnStep(forked) =>
        if forked.Some? {
          SpawnWaits(w.g, forked.value, run, id);
        }
      case _ =>
    }
  }

  lemma {:induction false} ReapKeepsReleased(g: Guest, deaths: seq<Death>)
    ensures g.released <= ReapAll(g, deaths).g.released
  {
    hide Route, ByPid;
    if deaths != [] {
      var n := |deaths| - 1;
      var b := ReapAll(g, deaths[..n]);
      ReapKeepsReleased(g, deaths[..n]);
      RouteEdits(b.g, deaths[n], b.oom || (deaths[n].exit.signal == SIGKILL && deaths[n].hit));
    }
  }

  /** No step takes an answer back. */
  lemma NextKeepsReleased(w: World, s: Step)
    ensures w.g.released <= Next(w, s).g.released
  {
    hide ReapAll, StopProcess, Deaths, KernelAfter, AnyRuns;
    match s {
      case ReapStep(events) => ReapKeepsReleased(w.g, Deaths(events));
      case StopProcessStep(name, graceful) => StopProcessEdits(w.g, name, graceful);
      case _ =>
    }
  }

  lemma AnsweredOnce(g: Guest, kernel: Kernel, id: nat)
    requires Inv(g, kernel, false)
    ensures g.released[id] <= 1
    ensures id < g.issued && g.released[id] == 0 ==> exists run :: WaitsAt(g, run, id)
  {
    hide EntriesOk, TimersOk, ExecsOk, EmitsOk, TableOk, KernelOk;
    assert g.released[id] + Held(g.procs, id) == if id < g.issued then 1 else 0;
    if id < g.issued && g.released[id] == 0 {
      HeldSomewhere(g.procs, id);
      var i :| 0 <= i < |g.procs| && id in g.procs[i].reaped;
      assert WaitsAt(g, g.procs[i].run, id);
    }
  }

  /** What a step does to a stop request. One that waits does so at a process whose run is unreaped, and is answered
      exactly if the step reaps that run, which only a batch of deaths does; one answered before was answered once, and
      stays so. */
  ghost predicate RequestTold(w: World, s: Step, id: nat) {
    var w' := Next(w, s);
    if w.g.released[id] > 0 then w.g.released[id] == w'.g.released[id] == 1
    else
      exists run ::
        && WaitsAt(w.g, run, id) && Unreaped(w.kernel, run)
        && (w'.g.released[id] == 0 <==> Unreaped(w'.kernel, run))
        && (w'.g.released[id] == 0 <==> WaitsAt(w'.g, run, id))
        && (w'.g.released[id] != 0 ==> w'.g.released[id] == 1 && s.ReapStep?)
  }

  lemma RequestStep(w: World, s: Step, id: nat)
    requires Sound(w) && Enabled(w, s) && id < w.g.issued
    ensures RequestTold(w, s, id)
  {
    hide Next, Inv, Enabled, WaitsAt, LetGo, Unreaped;
    NextKeeps(w, s);
    NextKeepsReleased(w, s);
    var w' := Next(w, s);
    AnsweredOnce(w.g, w.kernel, id);
    AnsweredOnce(w'.g, w'.kernel, id);
    if w.g.released[id] == 0 {
      var run :| WaitsAt(w.g, run, id);
      WaitsMeansUnreaped(w.g, w.kernel, run, id);
      NextWaits(w, s, run, id);
      if WaitsAt(w'.g, run, id) {
        WaitsMeansUnreaped(w'.g, w'.kernel, run, id);
      } else {
        LetGoMeansReaped(w'.g, w'.kernel, run, id);
      }
    }
  }

  /** In every run, at every step, every stop request asked so far is told so. */
  lemma {:induction false} EveryRequest(steps: seq<Step>, s: Step, id: nat)
    requires IsRun(BOOT, steps) && Enabled(After(BOOT, steps), s) && id < After(BOOT, steps).g.issued
    ensures RequestTold(After(BOOT, steps), s, id)
  {
    hide After, IsRun, Next, Sound, Enabled, RequestTold;
    BootIsSound();
    RunsAreSound(BOOT, steps);
    RequestStep(After(BOOT, steps), s, id);
  }

  /** In every run, of every batch of deaths, every exit goes to the child it is of. */
  lemma {:induction false} EveryExit(steps: seq<Step>, events: seq<KernelEvent>, k: nat)
    requires IsRun(BOOT, steps) && Enabled(After(BOOT, steps), ReapStep(events)) && k < |events| && events[k].Died?
    ensures var w := After(BOOT, steps); DeathTold(w.g, w.kernel, events, k)
  {
    hide After, IsRun, Inv, DeathTold, Allowed;
    BootIsSound();
    RunsAreSound(BOOT, steps);
    var w := After(BOOT, steps);
    EveryDeathGoesToOwner(w.g, w.kernel, events, k);
  }

  /** In every run what a batch of deaths sends is kills for runs that ended in it, and each meets an unreaped process
      exactly if its number was given out again before, then a stranger's. */
  lemma {:induction false} EveryKill(steps: seq<Step>, events: seq<KernelEvent>, n: nat)
    requires IsRun(BOOT, steps) && Enabled(After(BOOT, steps), ReapStep(events))
    requires var w := After(BOOT, steps); |w.g.sent| <= n < |Next(w, ReapStep(events)).g.sent|
    ensures var w := After(BOOT, steps);
            var w' := Next(w, ReapStep(events));
            var x := w'.g.sent[n];
            && w.g.sent <= w'.g.sent
            && (x.leader in w'.kernel ==> w'.kernel[x.leader].Stranger?)
            && exists k: nat ::
                 KillFor(w.kernel, events, k, x) && (x.leader in w'.kernel <==> GivenOutAgain(events, k))
  {
    hide After, IsRun, Inv, ReapAll, Allowed, KernelAfter, Deaths, GivenOutAgain, AnyRuns, StopTimers;
    BootIsSound();
    RunsAreSound(BOOT, steps);
    var w := After(BOOT, steps);
    CollectKills(w.g, w.kernel, events);
    ClosedSends(ReapAll(w.g, Deaths(events)));
    var w' := Next(w, ReapStep(events));
    assert KillForOne(w.kernel, events, w'.g.sent[n]);
    var k: nat :| KillFor(w.kernel, events, k, w'.g.sent[n]);
    KillMeetsIff(w.kernel, events, k);
  }

  lemma ClosedSends(b: Batch)
    ensures Closed(b).sent == b.g.sent
  {
  }

  lemma FirstRunStarts(name: string, restart: RestartPolicy, pid: nat)
    ensures var (h, ran) := Run(NEW_GUEST, false, name, restart, true, Some(pid));
            ran.Started? && !h.stopping && h.sent == []
  {
  }

  /** A run that does it: a process starts as number 5, ends, and the kill for it meets a stranger. */
  lemma {:induction false} StrangerIsKilled(d: Death, restart: RestartPolicy, run: seq<Step>)
    requires d == Death(5, Exit(1, 0), false, false) && restart == RestartPolicy(No, 0, 1, 1)
    requires run == [RunStep("web", restart, true, Some(5)), ReapStep([Died(d), Born(5)])]
    ensures IsRun(BOOT, run)
    ensures After(BOOT, run).kernel == map[5 := Stranger] && After(BOOT, run).g.sent == [Sent(5, SIGKILL)]
  {
    hide Inv, Run;
    var w := Next(BOOT, run[0]);
    BootIsSound();
    NextKeeps(BOOT, run[0]);
    FirstRunStarts("web", restart, 5);
    KillCanMeetStranger(w.g, w.kernel, d);
    hide ReapAll, Allowed, KernelAfter, Deaths, Closed, AnyRuns;
    var w' := Next(w, run[1]);
    assert run[1..] == [run[1]] && [run[1]][1..] == [];
    assert After(w', []) == w' && IsRun(w', []);
    assert After(w, [run[1]]) == w' && IsRun(w, [run[1]]);
  }

  /** In every run an exec is answered exactly once after its process is reaped, and until then waited for under its own
      pid. */
  lemma {:induction false} EveryExec(steps: seq<Step>, e: nat)
    requires IsRun(BOOT, steps) && e < After(BOOT, steps).g.execs
    ensures var w := After(BOOT, steps);
            && Answers(w.g.answered, e) <= 1
            && (Answers(w.g.answered, e) == 0 <==> exists pid | pid in w.kernel :: w.kernel[pid] == Exec(e))
  {
    hide After, IsRun, EntriesOk, TimersOk, StopsOk, EmitsOk, TableOk, Answers;
    BootIsSound();
    RunsAreSound(BOOT, steps);
    var w := After(BOOT, steps);
    assert KernelOk(w.g.procs, w.g.waiters, w.kernel) && ExecsOk(w.g.waiters, w.g.execs, w.g.answered);
    if Waiting(w.g.waiters, e) {
      var pid :| pid in w.g.waiters && w.g.waiters[pid] == e;
      assert w.kernel[pid] == Exec(e);
    }
  }
}
