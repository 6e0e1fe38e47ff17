/** What each operation of the guest does to its state, field by field, for every state it can be in. */
module GuestEffects {

  import opened Common
  import opened Restart
  import opened Guest
  import opened GuestInvariant
  import opened GuestSteps
  import opened GuestRuns

  // Timers.

  /** What a due of entry `i` does outside a stop and an OOM. A kill goes to the run's group. A start again waits on
      under a freeze, gives up if it cannot start, and else runs under the new pid, one start more. */
  ghost predicate DueDone(g: Guest, frozen: bool, due: Due, forked: Option<nat>, i: nat, h: Guest, started: bool)
    requires i < |g.procs|
  {
    var p, rest := g.procs[i], g.pending - multiset{due};
    && (started <==> !due.kill && !frozen && forked.Some?)
    && if due.kill then h == g.(pending := rest, sent := g.sent + [Sent(p.pid, SIGKILL)])
       else if frozen then h == g && Due(p.name, p.gen, false) in h.pending
       else
         var q := if forked.None? then p.(state := GaveUp, stamp := g.stamp + 1)
                  else p.(state := Running, stamp := g.stamp + 1, pid := forked.value, run := g.runs,
                          count := p.count + 1, restarts := p.restarts + 1, life := p.life + [StartedAgain]);
         h == g.(pending := rest, procs := g.procs[i := q], stamp := g.stamp + 1,
                 runs := if started then g.runs + 1 else g.runs,
                 emitted := g.emitted + [Status(Report(p.name, q.state, p.exit, q.restarts, g.stamp + 1))])
  }

  lemma DueDoes(g: Guest, kernel: Kernel, frozen: bool, due: Due, forked: Option<nat>, i: nat)
    requires Inv(g, kernel, false) && due in g.pending && i < |g.procs| && Matches(g, due, i)
    requires !g.stopping && !g.oom
    ensures var (h, started) := Wake(g, frozen, due, forked); DueDone(g, frozen, due, forked, i, h, started)
  {
    hide EntriesOk, TimersOk, KernelOk, ExecsOk, StopsOk, EmitsOk, Settle, Edit, StartAgain, TableOk;
    MatchingDue(g, kernel, due, i);
    OnlyNamed(g.procs, i, due.name);
    assert Named(g.procs, due.name) == Some(i);
    hide Inv, Named, IsNamed;
    var rest := g.pending - multiset{due};
    var left := g.(pending := rest);
    assert rest + multiset{due} == g.pending;
    assert due == Due(due.name, due.gen, due.kill);
    GivesUpIs(left, i);
    if forked.Some? {
      StartsIs(left, i, forked.value);
    }
  }

  lemma GivesUpIs(g: Guest, i: nat)
    requires i < |g.procs|
    ensures var p := g.procs[i];
            Settle(Edit(g, i, p.(state := GaveUp)), i) ==
            g.(procs := g.procs[i := p.(state := GaveUp, stamp := g.stamp + 1)], stamp := g.stamp + 1,
               emitted := g.emitted + [Status(Report(p.name, GaveUp, p.exit, p.restarts, g.stamp + 1))])
  {
    Twice(g.procs, i, g.procs[i].(state := GaveUp), g.procs[i].(state := GaveUp, stamp := g.stamp + 1));
  }

  lemma StartsIs(g: Guest, i: nat, pid: nat)
    requires i < |g.procs|
    ensures var p := g.procs[i];
            Settle(StartAgain(g, i, pid), i) ==
            g.(procs := g.procs[i := p.(state := Running, stamp := g.stamp + 1, pid := pid, run := g.runs,
                                        count := p.count + 1, restarts := p.restarts + 1,
                                        life := p.life + [StartedAgain])],
               runs := g.runs + 1, stamp := g.stamp + 1,
               emitted := g.emitted + [Status(Report(p.name, Running, p.exit, p.restarts + 1, g.stamp + 1))])
  {
    var q := StartAgain(g, i, pid).procs[i];
    Twice(g.procs, i, q, q.(stamp := g.stamp + 1));
  }

  /** Every due that does not match an entry, or comes after a stop or an OOM, does nothing. */
  lemma OtherDueDoes(g: Guest, frozen: bool, due: Due, forked: Option<nat>)
    requires g.stopping || g.oom || forall i | 0 <= i < |g.procs| :: !Matches(g, due, i)
    ensures Wake(g, frozen, due, forked) == (g.(pending := g.pending - multiset{due}), false)
  {
    var r := Named(g.procs, due.name);
    assert r.Some? && !g.stopping && !g.oom ==> !Matches(g, due, r.value);
  }

  // Runs.

  ghost predicate HasLive(procs: seq<Proc>, name: string) {
    exists i | 0 <= i < |procs| :: procs[i].name == name && !procs[i].state.Ended()
  }

  ghost predicate NoRoom(procs: seq<Proc>, name: string) {
    |procs| >= 16 && forall i | 0 <= i < |procs| :: procs[i].name != name && !procs[i].state.Ended()
  }

  /** The table without what a run of `name` takes the place of: the entry of that name, or of a full table the first
      one that ended, or nothing. */
  ghost predicate LeftFor(procs: seq<Proc>, name: string, kept: seq<Proc>) {
    if i :| 0 <= i < |procs| && procs[i].name == name then
      exists k | 0 <= k < |procs| :: procs[k].name == name && kept == procs[..k] + procs[k + 1..]
    else if |procs| >= 16 then
      exists k | 0 <= k < |procs| ::
        && procs[k].state.Ended() && (forall j | 0 <= j < k :: !procs[j].state.Ended())
        && kept == procs[..k] + procs[k + 1..]
    else kept == procs
  }

  /** What a run that is not refused leaves: a new running entry behind those kept, under fresh numbers, and the names
      and the status reported. */
  ghost predicate RunDone(g: Guest, name: string, restart: RestartPolicy, pid: nat, kept: seq<Proc>, h: Guest) {
    var p := Proc(name, restart, pid, g.runs, 0, Running, None, 0, g.stamp + 1, g.gens + 1, false, [], []);
    h == g.(procs := kept + [p], gens := g.gens + 1, stamp := g.stamp + 1, runs := g.runs + 1,
            emitted := g.emitted + [Keep(Names(kept + [p])), Status(Report(name, Running, None, 0, g.stamp + 1))])
  }

  /** Which answer a run gets, each exactly when, and what it leaves. */
  ghost predicate RunAnswered(g: Guest, frozen: bool, name: string, restart: RestartPolicy, piped: bool,
                              forked: Option<nat>, h: Guest, ran: Ran) {
    && (ran.Halting? <==> g.stopping)
    && (ran.OutOfMemory? <==> !g.stopping && g.oom)
    && (ran.Taken? <==> !g.stopping && !g.oom && HasLive(g.procs, name))
    && (ran.Full? <==> !g.stopping && !g.oom && NoRoom(g.procs, name))
    && (ran.NoOutput? ==> !piped) && (ran in {NotStarted, Started} ==> piped)
    && (ran.Started? ==> !frozen && forked.Some?) && (ran.NotStarted? ==> frozen || forked.None?)
    && (ran.NotStarted? ==> h == g.(emitted := g.emitted + [Keep(Names(g.procs))]))
    && (ran.Started? ==>
          exists kept :: LeftFor(g.procs, name, kept) && RunDone(g, name, restart, forked.value, kept, h))
    && (!ran.NotStarted? && !ran.Started? ==> h == g)
  }

  lemma RunAnswers(g: Guest, kernel: Kernel, frozen: bool, name: string, restart: RestartPolicy, piped: bool,
                   forked: Option<nat>)
    requires Inv(g, kernel, false)
    ensures var (h, ran) := Run(g, frozen, name, restart, piped, forked);
            RunAnswered(g, frozen, name, restart, piped, forked, h, ran)
  {
    hide EntriesOk, TimersOk, KernelOk, ExecsOk, StopsOk, EmitsOk, Replace, LeftFor, RunDone, OldestEnded, Names;
    var r := Named(g.procs, name);
    if r.Some? {
      OnlyNamed(g.procs, r.value, name);
    }
    if Run(g, frozen, name, restart, piped, forked).1.Started? {
      RunDoes(g, kernel, name, restart, forked);
    }
  }

  lemma RunDoes(g: Guest, kernel: Kernel, name: string, restart: RestartPolicy, forked: Option<nat>)
    requires Inv(g, kernel, false)
    ensures var (h, ran) := Run(g, false, name, restart, true, forked);
            ran.Started? ==>
              exists kept :: LeftFor(g.procs, name, kept) && RunDone(g, name, restart, forked.value, kept, h)
  {
    hide Inv, Replace, LeftFor, RunDone, OldestEnded, Named, Without;
    var (h, ran) := Run(g, false, name, restart, true, forked);
    if ran.Started? {
      var r := Replaced(g.procs, name);
      ReplacedAt(g.procs, name);
      var kept := if r.Some? then Without(g.procs, r.value) else g.procs;
      ReplaceDoes(g, r, name, restart, forked.value, kept);
      LeavesRoom(g.procs, name, r, kept);
    }
  }

  lemma ReplacedAt(procs: seq<Proc>, name: string)
    ensures var r := Replaced(procs, name); r.Some? ==> r.value < |procs|
  {
  }

  lemma ReplaceDoes(g: Guest, was: Option<nat>, name: string, restart: RestartPolicy, pid: nat, kept: seq<Proc>)
    requires was.Some? ==> was.value < |g.procs|
    requires kept == if was.Some? then Without(g.procs, was.value) else g.procs
    ensures RunDone(g, name, restart, pid, kept, Replace(g, was, name, restart, pid))
  {
    ReplaceIs(g, was, name, restart, pid);
    hide Replace, Without, Names;
  }

  lemma {:induction false} LeavesRoom(procs: seq<Proc>, name: string, r: Option<nat>, kept: seq<Proc>)
    requires r == Replaced(procs, name) && kept == (if r.Some? then Without(procs, r.value) else procs)
    requires |procs| >= MAX_PROCESSES && Named(procs, name).None? ==> OldestEnded(procs).Some?
    ensures LeftFor(procs, name, kept)
  {
    if r.Some? {
      assert kept == procs[..r.value] + procs[r.value + 1..];
    }
  }

  // Exits.

  /** What an exit makes of an entry. Under a sandbox stop it ends stopped; under a stop of its own, killed; and else
      its policy decides, the count starting over after a healthy run. */
  ghost predicate EntryEnded(p: Proc, stopping: bool, exit: Exit, healthy: bool, gen: nat, stamp: nat, q: Proc) {
    && (q.name, q.restart, q.pid, q.run, q.restarts) == (p.name, p.restart, 0, p.run, p.restarts)
    && (q.exit, q.stamp, q.gen, q.reaped) == (Some(exit), stamp, gen, [])
    && if stopping then q.state.Stopped? && (q.count, q.life, q.stopping) == (p.count, p.life, p.stopping)
       else if p.stopping then q.state.Killed? && !q.stopping && (q.count, q.life) == (p.count, p.life)
       else
         && !q.stopping && q.count == (if healthy then 0 else p.count)
         && q.life == p.life + [if healthy then HealthyExit else ShortExit]
         && (q.state.Exited? <==> !p.restart.Applies(exit))
         && (q.state.GaveUp? <==> p.restart.Applies(exit) && p.restart.Limited() && q.count >= p.restart.retries)
         && (q.state.Restarting? <==> !q.state.Exited? && !q.state.GaveUp?)
  }

  /** A run's end outside a spent memory bound: its entry ends, a start again is armed exactly if it restarts, everyone
      who waited is answered, and the status is reported. */
  lemma ExitDoes(g: Guest, d: Death, i: nat)
    requires d.pid !in g.waiters && ByPid(g.procs, d.pid) == Some(i)
    ensures var h := Route(g, d, false);
            |h.procs| == |g.procs| &&
            var p, q := g.procs[i], h.procs[i];
            && EntryEnded(p, g.stopping, d.exit, d.healthy, g.gens + 1, g.stamp + 1, q)
            && h == g.(procs := g.procs[i := q], gens := g.gens + 1, stamp := g.stamp + 1,
                       released := g.released + multiset(p.reaped),
                       sent := if g.stopping then g.sent else g.sent + [Sent(d.pid, SIGKILL)],
                       pending := if q.state.Restarting? then g.pending + multiset{Due(p.name, g.gens + 1, false)}
                                  else g.pending,
                       emitted := g.emitted + [Status(Report(p.name, q.state, Some(d.exit), p.restarts, g.stamp + 1))])
  {
    hide Route, ByPid, EntryEnded, ExitedEntry;
    RouteExitIs(g, d, i);
    EndedEntry(g, g.procs[i], d.exit, d.healthy);
    assert Route(g, d, false).procs[i] == ExitedEntry(g, g.procs[i], d.exit, d.healthy);
    EndedReport(g.procs[i], g.stopping, d.exit, d.healthy, g.gens + 1, g.stamp + 1, Route(g, d, false).procs[i]);
  }

  lemma EndedEntry(g: Guest, p: Proc, exit: Exit, healthy: bool)
    ensures EntryEnded(p, g.stopping, exit, healthy, g.gens + 1, g.stamp + 1, ExitedEntry(g, p, exit, healthy))
  {
  }

  lemma EndedReport(p: Proc, stopping: bool, exit: Exit, healthy: bool, gen: nat, stamp: nat, q: Proc)
    requires EntryEnded(p, stopping, exit, healthy, gen, stamp, q)
    ensures ReportOf(q) == Report(p.name, q.state, Some(exit), p.restarts, stamp) && q.gen == gen && q.name == p.name
  {
  }

  /** A run's end under a spent memory bound: the entry only loses its pid, its group is killed and its waiters
      answered. */
  lemma SpentDoes(g: Guest, d: Death, i: nat)
    requires d.pid !in g.waiters && ByPid(g.procs, d.pid) == Some(i)
    ensures var p := g.procs[i];
            Route(g, d, true) ==
            g.(procs := g.procs[i := p.(pid := 0, reaped := [])], released := g.released + multiset(p.reaped),
               sent := g.sent + [Sent(d.pid, SIGKILL)])
  {
    var p := g.procs[i].(pid := 0);
    Twice(g.procs, i, p, p.(reaped := []));
  }

  /** The memory bound counts as hit from the first kill the probe owns up to. */
  lemma {:induction false} BatchHits(g: Guest, deaths: seq<Death>)
    ensures ReapAll(g, deaths).oom <==>
              exists k | 0 <= k < |deaths| :: deaths[k].exit.signal == SIGKILL && deaths[k].hit
  {
    if deaths != [] {
      var n := |deaths| - 1;
      BatchHits(g, deaths[..n]);
      hide Route, ByPid;
      assert forall k | 0 <= k < n :: deaths[..n][k] == deaths[k];
    }
  }

  /** Event `k` is the death of a named process's run. */
  ghost predicate RunDied(kernel: Kernel, events: seq<KernelEvent>, k: nat) {
    && k < |events| && events[k].Died?
    && var at := KernelAfter(kernel, events[..k]);
       events[k].death.pid in at && at[events[k].death.pid].NamedRun?
  }

  ghost predicate SomeRunDied(kernel: Kernel, events: seq<KernelEvent>) {
    exists k: nat :: RunDied(kernel, events, k)
  }

  lemma RunDiedOn(kernel: Kernel, events: seq<KernelEvent>)
    requires events != []
    ensures SomeRunDied(kernel, events) <==>
            SomeRunDied(kernel, events[..|events| - 1]) || RunDied(kernel, events, |events| - 1)
  {
    var n := |events| - 1;
    forall k: nat | k < n ensures RunDied(kernel, events, k) <==> RunDied(kernel, events[..n], k) {
      assert events[..n][..k] == events[..k];
    }
    if SomeRunDied(kernel, events) {
      var k: nat :| RunDied(kernel, events, k);
      assert k < n ==> RunDied(kernel, events[..n], k);
    }
    if SomeRunDied(kernel, events[..n]) {
      var k: nat :| RunDied(kernel, events[..n], k);
      assert RunDied(kernel, events, k);
    }
  }

  lemma {:induction false} NoneDied(kernel: Kernel)
    ensures !SomeRunDied(kernel, [])
  {
  }

  /** A batch counts as one that reaped a process exactly if a named process's run died in it. */
  lemma {:induction false} BatchReaps(g: Guest, kernel: Kernel, events: seq<KernelEvent>)
    requires Inv(g, kernel, false) && Allowed(kernel, events)
    ensures ReapAll(g, Deaths(events)).reaped <==> SomeRunDied(kernel, events)
  {
    hide Inv, Route, SomeRunDied;
    if events == [] {
      NoneDied(kernel);
    } else {
      var n := |events| - 1;
      BatchReaps(g, kernel, events[..n]);
      RunDiedOn(kernel, events);
      if events[n].Died? {
        BatchKeeps(g, kernel, events[..n]);
        var b := ReapAll(g, Deaths(events[..n]));
        assert Deaths(events)[..|Deaths(events)| - 1] == Deaths(events[..n]);
        OwnedRun(b.g, KernelAfter(kernel, events[..n]), b.oom, events[n].death.pid);
      }
    }
  }

  lemma {:induction false} OwnedRun(g: Guest, kernel: Kernel, hit: bool, pid: nat)
    requires Inv(g, kernel, hit) && pid in kernel
    ensures pid !in g.waiters && ByPid(g.procs, pid).Some? <==> kernel[pid].NamedRun?
  {
    hide TableOk, EntriesOk, TimersOk, ExecsOk, StopsOk, EmitsOk;
  }

  /** A batch leaves the guest out of memory exactly if it was or the bound was hit, and then every timer is stale. */
  lemma CloseDoes(b: Batch)
    ensures var h := Closed(b);
            && (h.oom <==> b.g.oom || b.oom) && |h.procs| == |b.g.procs|
            && (b.oom ==> forall i | 0 <= i < |h.procs| :: h.procs[i].gen > b.g.gens)
            && (forall i | 0 <= i < |h.procs| :: h.procs[i] == b.g.procs[i].(gen := h.procs[i].gen))
            && h == b.g.(oom := h.oom, procs := h.procs, gens := h.gens) && (!b.oom ==> h == b.g)
  {
  }

  // Stops.

  /** What a stop of one process does: answered at once if none runs, with a wait to start again ended; else the run is
      told to end, the request waits with it, and a kill is armed exactly with a grace. */
  ghost predicate StopDone(g: Guest, name: string, graceful: bool, h: Guest) {
    if HasLive(g.procs, name) then
      exists i | 0 <= i < |g.procs| && g.procs[i].name == name && !g.procs[i].state.Ended() ::
        if g.procs[i].pid == 0 then WaitEnded(g, i, h) else RunTold(g, i, graceful, h)
    else h == g.(issued := g.issued + 1, released := g.released + multiset{g.issued})
  }

  ghost predicate WaitEnded(g: Guest, i: nat, h: Guest)
    requires i < |g.procs|
  {
    var p := g.procs[i];
    h == g.(issued := g.issued + 1, released := g.released + multiset{g.issued}, gens := g.gens + 1,
            stamp := g.stamp + 1,
            procs := g.procs[i := p.(state := Killed, gen := g.gens + 1, stamp := g.stamp + 1)],
            emitted := g.emitted + [Status(Report(p.name, Killed, p.exit, p.restarts, g.stamp + 1))])
  }

  ghost predicate RunTold(g: Guest, i: nat, graceful: bool, h: Guest)
    requires i < |g.procs|
  {
    var p := g.procs[i];
    h == g.(issued := g.issued + 1, gens := g.gens + 1,
            procs := g.procs[i := p.(stopping := true, reaped := p.reaped + [g.issued], gen := g.gens + 1)],
            sent := g.sent + [Sent(p.pid, if graceful then SIGTERM else SIGKILL)],
            pending := if graceful then g.pending + multiset{Due(p.name, g.gens + 1, true)} else g.pending)
  }

  lemma StopProcessDoes(g: Guest, kernel: Kernel, name: string, graceful: bool)
    requires Inv(g, kernel, false)
    ensures StopDone(g, name, graceful, StopProcess(g, name, graceful))
  {
    hide EntriesOk, TimersOk, KernelOk, ExecsOk, StopsOk, EmitsOk, StopWaiting, StopRunning, WaitEnded, RunTold, Answer;
    var r, h := Named(g.procs, name), StopProcess(g, name, graceful);
    if r.Some? {
      OnlyNamed(g.procs, r.value, name);
      if !g.procs[r.value].state.Ended() {
        LiveStopDoes(g, r.value, graceful);
      } else {
        AnswerIs(g.(issued := g.issued + 1), g.issued);
      }
    } else {
      AnswerIs(g.(issued := g.issued + 1), g.issued);
    }
  }

  lemma AnswerIs(g: Guest, request: nat)
    ensures Answer(g, request) == g.(released := g.released + multiset{request})
  {
  }

  lemma LiveStopDoes(g: Guest, i: nat, graceful: bool)
    requires i < |g.procs|
    ensures WaitEnded(g, i, StopWaiting(Answer(g.(issued := g.issued + 1), g.issued), i))
    ensures RunTold(g, i, graceful, StopRunning(g.(issued := g.issued + 1), i, g.issued, graceful))
  {
    StopWaitingIs(Answer(g.(issued := g.issued + 1), g.issued), i);
    StopRunningIs(g.(issued := g.issued + 1), i, g.issued, graceful);
    hide StopWaiting, StopRunning;
  }

  /** A sandbox stop marks the guest, gives every entry a fresh generation, and signals each run once; no more. */
  ghost predicate Halted(g: Guest, signal: int, h: Guest) {
    && h == g.(stopping := true, procs := h.procs, gens := h.gens, sent := h.sent) && |h.procs| == |g.procs|
    && (forall i | 0 <= i < |h.procs| :: h.procs[i] == g.procs[i].(gen := h.procs[i].gen) && h.procs[i].gen > g.gens)
    && g.sent <= h.sent
    && var f := h.sent[|g.sent|..];
       && (forall i | 0 <= i < |g.procs| && g.procs[i].pid != 0 :: multiset(f)[Sent(g.procs[i].pid, signal)] == 1)
       && forall x | x in f :: x.signal == signal && exists i | 0 <= i < |g.procs| :: g.procs[i].pid == x.leader != 0
  }

  lemma StopDoes(g: Guest, kernel: Kernel, signal: int)
    requires Inv(g, kernel, false)
    ensures Halted(g, signal, Stop(g, signal))
  {
    var f := Forwarded(g.procs, signal);
    ForwardedReaches(g.procs, signal);
    assert Stop(g, signal).sent[|g.sent|..] == f;
    forall i | 0 <= i < |g.procs| && g.procs[i].pid != 0 ensures multiset(f)[Sent(g.procs[i].pid, signal)] == 1 {
      assert DistinctPids(g.procs) by { PidsDiffer(g, kernel); }
      ForwardedOnce(g.procs, signal, i);
    }
  }

  ghost predicate DistinctPids(procs: seq<Proc>) {
    forall i, j | 0 <= i < j < |procs| && procs[i].pid != 0 :: procs[i].pid != procs[j].pid
  }

  lemma PidsDiffer(g: Guest, kernel: Kernel)
    requires Inv(g, kernel, false)
    ensures DistinctPids(g.procs)
  {
    hide EntriesOk, TimersOk, ExecsOk, StopsOk, EmitsOk;
    forall i, j | 0 <= i < j < |g.procs| && g.procs[i].pid != 0 ensures g.procs[i].pid != g.procs[j].pid {
      assert g.procs[i].run != g.procs[j].run;
    }
  }

  lemma {:induction false} ForwardedOnce(procs: seq<Proc>, signal: int, i: nat)
    requires i < |procs| && procs[i].pid != 0 && DistinctPids(procs)
    ensures multiset(Forwarded(procs, signal))[Sent(procs[i].pid, signal)] == 1
  {
    var n := |procs| - 1;
    var x := Sent(procs[i].pid, signal);
    var rest := Forwarded(procs[..n], signal);
    ForwardedReaches(procs[..n], signal);
    if i < n {
      ForwardedOnce(procs[..n], signal, i);
    } else {
      assert x !in rest;
    }
  }
}
