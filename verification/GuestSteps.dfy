/** Each operation of the guest keeps the invariant. */
module GuestSteps {

  import opened Common
  import opened Restart
  import opened Guest
  import opened GuestInvariant

  lemma HitWeakens(g: Guest, kernel: Kernel, hit: bool, hit': bool)
    requires Inv(g, kernel, hit) && (hit ==> hit')
    ensures Inv(g, kernel, hit')
  {
    hide RetriesOk, TableOk, KernelOk, ExecsOk, StopsOk, EmitsOk;
  }

  lemma Twice(procs: seq<Proc>, i: nat, p: Proc, q: Proc)
    requires i < |procs|
    ensures procs[i := p][i := q] == procs[i := q]
  {
  }

  // Reaping one child.

  /** Two entries never share a live pid: their runs would be one. */
  lemma PidsDistinct(procs: seq<Proc>, waiters: map<nat, nat>, kernel: Kernel, i: nat, j: nat)
    requires TableOk(procs) && KernelOk(procs, waiters, kernel) && i < |procs| && j < |procs| && i != j
    requires procs[i].pid != 0
    ensures procs[i].pid != procs[j].pid && procs[i].pid !in waiters
  {
  }

  lemma KernelReaped(procs: seq<Proc>, i: nat, q: Proc, waiters: map<nat, nat>, kernel: Kernel)
    requires TableOk(procs) && KernelOk(procs, waiters, kernel) && i < |procs| && procs[i].pid != 0 && q.pid == 0
    ensures KernelOk(procs[i := q], waiters, kernel - {procs[i].pid})
  {
    var pid, r, k := procs[i].pid, procs[i := q], kernel - {procs[i].pid};
    forall j | 0 <= j < |r| && r[j].pid != 0 ensures r[j].pid in k && k[r[j].pid] == NamedRun(r[j].run) {
      PidsDistinct(procs, waiters, kernel, i, j);
    }
    forall x | x in k && k[x].NamedRun? ensures exists j | 0 <= j < |r| :: r[j].pid == x {
      var j :| 0 <= j < |procs| && procs[j].pid == x;
      assert r[j].pid == x;
    }
    assert pid !in waiters by { assert kernel[pid].NamedRun?; }
  }

  lemma {:induction false} AnswersOf(answered: seq<(nat, Exit)>, a: (nat, Exit), e: nat)
    ensures Answers(answered + [a], e) == Answers(answered, e) + if a.0 == e then 1 else 0
  {
    assert (answered + [a])[..|answered|] == answered;
  }

  lemma ExecReaped(waiters: map<nat, nat>, execs: nat, answered: seq<(nat, Exit)>, pid: nat, exit: Exit)
    requires ExecsOk(waiters, execs, answered) && pid in waiters
    ensures ExecsOk(waiters - {pid}, execs, answered + [(waiters[pid], exit)])
  {
    var w := waiters - {pid};
    forall e: nat
      ensures Answers(answered + [(waiters[pid], exit)], e) == if e < execs && !Waiting(w, e) then 1 else 0 {
      AnswersOf(answered, (waiters[pid], exit), e);
      if e != waiters[pid] && Waiting(waiters, e) {
        var x :| x in waiters && waiters[x] == e;
        assert x in w && w[x] == e;
      }
      assert waiters[pid] == e ==> Waiting(waiters, e);
    }
  }

  lemma KernelForgets(procs: seq<Proc>, waiters: map<nat, nat>, kernel: Kernel, pid: nat)
    requires KernelOk(procs, waiters, kernel) && pid in kernel && !kernel[pid].NamedRun?
    ensures KernelOk(procs, waiters - {pid}, kernel - {pid})
  {
  }

  lemma RouteExecKeeps(g: Guest, kernel: Kernel, d: Death, hit: bool, oom: bool)
    requires Inv(g, kernel, hit) && d.pid in g.waiters
    ensures Inv(Route(g, d, oom), kernel - {d.pid}, hit)
  {
    KernelForgets(g.procs, g.waiters, kernel, d.pid);
    ExecReaped(g.waiters, g.execs, g.answered, d.pid, d.exit);
    hide TableOk, EntriesOk, TimersOk, KernelOk, ExecsOk, StopsOk, EmitsOk;
  }

  lemma RouteStrangerKeeps(g: Guest, kernel: Kernel, d: Death, hit: bool, oom: bool)
    requires Inv(g, kernel, hit) && d.pid in kernel && d.pid !in g.waiters && ByPid(g.procs, d.pid).None?
    ensures kernel[d.pid].Stranger? && Route(g, d, oom) == g
    ensures Inv(g, kernel - {d.pid}, hit)
  {
    assert kernel[d.pid].Stranger?;
    KernelForgets(g.procs, g.waiters, kernel, d.pid);
    assert g.waiters - {d.pid} == g.waiters;
    hide TableOk, EntriesOk, TimersOk, KernelOk, ExecsOk, StopsOk, EmitsOk;
  }

  /** The memory bound took the run: its entry keeps its state without a pid, and its stop requests go. */
  lemma RouteSpentKeeps(g: Guest, kernel: Kernel, d: Death, i: nat)
    requires Inv(g, kernel, true) && d.pid !in g.waiters && ByPid(g.procs, d.pid) == Some(i) && d.pid != 0
    ensures Inv(Route(g, d, true), kernel - {d.pid}, true)
  {
    var p := g.procs[i];
    var q := p.(pid := 0, reaped := []);
    Twice(g.procs, i, p.(pid := 0), q);
    TableEdit(g.procs, i, q);
    EntriesEdit(g.procs, i, q, g.gens, g.stamp, g.runs, true, g.gens, g.stamp, g.runs);
    assert TimersOk(g.procs[i := q], g.gens, g.pending, true);
    KernelReaped(g.procs, i, q, g.waiters, kernel);
    StopsReleased(g.procs, i, q, g.issued, g.released);
    EmitsEdit(g.procs, i, q, g.stamp, g.emitted);
    hide TableOk, EntriesOk, TimersOk, KernelOk, ExecsOk, StopsOk, EmitsOk;
  }

  /** The entry an exit makes of `p`. */
  function ExitedEntry(g: Guest, p: Proc, exit: Exit, healthy: bool): Proc {
    var q := p.(pid := 0, gen := g.gens + 1, exit := Some(exit), reaped := [], stamp := g.stamp + 1);
    if g.stopping then q.(state := Stopped)
    else if p.stopping then q.(stopping := false, state := Killed)
    else
      var count := if healthy then 0 else p.count;
      q.(count := count, state := p.restart.Next(exit, count),
         life := p.life + [if healthy then HealthyExit else ShortExit])
  }

  lemma ExitedEntryOk(g: Guest, p: Proc, exit: Exit, healthy: bool, spent: bool)
    requires EntryOk(p, g.gens, g.stamp, g.runs, spent)
    ensures EntryOk(ExitedEntry(g, p, exit, healthy), g.gens + 1, g.stamp + 1, g.runs, spent)
  {
    var l := if healthy then HealthyExit else ShortExit;
    StreakOf(p.life, l);
    if p.restart.Limited() {
      assert Streak(p.life) <= p.restart.retries by { assert p.life[..|p.life|] == p.life; }
      StreakGrows(p.life, l, p.restart.retries);
    }
  }

  lemma ExitedEntryIs(g: Guest, p: Proc, exit: Exit, healthy: bool)
    ensures var q := ExitedEntry(g, p, exit, healthy);
            q.name == p.name && q.run == p.run && q.pid == 0 && q.gen == g.gens + 1 && q.stamp == g.stamp + 1
            && q.reaped == []
  {
  }

  lemma EntryAt(g: Guest, kernel: Kernel, hit: bool, i: nat)
    requires Inv(g, kernel, hit) && i < |g.procs|
    ensures EntryOk(g.procs[i], g.gens, g.stamp, g.runs, g.oom || hit)
  {
  }

  lemma JudgeIs(g: Guest, i: nat, exit: Exit, healthy: bool)
    requires i < |g.procs|
    ensures var p, h := g.procs[i], Judge(g, i, exit, healthy);
            var count := if healthy then 0 else p.count;
            var q := if p.stopping then p.(exit := Some(exit), stopping := false, state := Killed)
                     else p.(exit := Some(exit), count := count, state := p.restart.Next(exit, count),
                             life := p.life + [if healthy then HealthyExit else ShortExit]);
            h == g.(procs := g.procs[i := q],
                    pending := if q.state.Restarting? then g.pending + multiset{Due(q.name, q.gen, false)}
                               else g.pending)
  {
  }

  lemma SettleIs(g: Guest, procs: seq<Proc>, i: nat, p: Proc)
    requires i < |procs| && g.procs == procs[i := p]
    ensures var q := p.(stamp := g.stamp + 1);
            Release(Settle(g, i), i) ==
            g.(procs := procs[i := q.(reaped := [])], stamp := g.stamp + 1, released := g.released + multiset(p.reaped),
               emitted := g.emitted + [Status(ReportOf(q))])
  {
    var q := p.(stamp := g.stamp + 1);
    Twice(procs, i, p, q);
    Twice(procs, i, q, q.(reaped := []));
  }

  /** What routing an exit to entry `i` comes to. */
  lemma RouteExitIs(g: Guest, d: Death, i: nat)
    requires d.pid !in g.waiters && ByPid(g.procs, d.pid) == Some(i)
    ensures var q := ExitedEntry(g, g.procs[i], d.exit, d.healthy);
            var h := Route(g, d, false);
            && h.procs == g.procs[i := q] && h.gens == g.gens + 1 && h.stamp == g.stamp + 1 && h.runs == g.runs
            && h.execs == g.execs
            && h.oom == g.oom && h.stopping == g.stopping && h.waiters == g.waiters && h.answered == g.answered
            && h.issued == g.issued && h.released == g.released + multiset(g.procs[i].reaped)
            && h.emitted == g.emitted + [Status(ReportOf(q))]
            && h.sent == (if g.stopping then g.sent else g.sent + [Sent(d.pid, SIGKILL)])
            && h.pending == if q.state.Restarting? then g.pending + multiset{Due(q.name, q.gen, false)} else g.pending
  {
    hide ByPid, IsByPid, ReportOf, NewGen, Edit, Send;
    var p := g.procs[i].(pid := 0);
    var a := NewGen(Edit(g, i, p), i);
    ClearedIs(g, i);
    ExitedIs(g, a, i, d);
    ReportUnreaped();
  }

  lemma ReportUnreaped()
    ensures forall p: Proc :: ReportOf(p.(reaped := [])) == ReportOf(p)
  {
  }

  lemma ClearedIs(g: Guest, i: nat)
    requires i < |g.procs|
    ensures NewGen(Edit(g, i, g.procs[i].(pid := 0)), i) ==
            g.(gens := g.gens + 1, procs := g.procs[i := g.procs[i].(pid := 0, gen := g.gens + 1)])
    ensures Edit(g, i, g.procs[i].(pid := 0)).stopping == g.stopping
  {
    Twice(g.procs, i, g.procs[i].(pid := 0), g.procs[i].(pid := 0, gen := g.gens + 1));
  }

  /** An exit from the state with the pid cleared and the timer cancelled. */
  lemma ExitedIs(g: Guest, a: Guest, i: nat, d: Death)
    requires i < |g.procs|
             && a == g.(gens := g.gens + 1, procs := g.procs[i := g.procs[i].(pid := 0, gen := g.gens + 1)])
    ensures var b := if g.stopping then Edit(a, i, a.procs[i].(exit := Some(d.exit), state := Stopped))
                     else Judge(Send(a, d.pid, SIGKILL), i, d.exit, d.healthy);
            var q := ExitedEntry(g, g.procs[i], d.exit, d.healthy);
            Release(Settle(b, i), i) ==
            g.(gens := g.gens + 1, procs := g.procs[i := q], stamp := g.stamp + 1,
               released := g.released + multiset(g.procs[i].reaped),
               emitted := g.emitted + [Status(ReportOf(q.(reaped := g.procs[i].reaped)))],
               sent := if g.stopping then g.sent else g.sent + [Sent(d.pid, SIGKILL)],
               pending := if q.state.Restarting? then g.pending + multiset{Due(q.name, q.gen, false)} else g.pending)
  {
    hide Judge, Settle, Release, ReportOf;
    var r := a.procs[i];
    if g.stopping {
      var p := r.(exit := Some(d.exit), state := Stopped);
      Twice(g.procs, i, r, p);
      SettleIs(Edit(a, i, p), g.procs, i, p);
    } else {
      var c := Send(a, d.pid, SIGKILL);
      JudgeIs(c, i, d.exit, d.healthy);
      var b := Judge(c, i, d.exit, d.healthy);
      Twice(g.procs, i, r, b.procs[i]);
      SettleIs(b, g.procs, i, b.procs[i]);
    }
  }

  lemma RouteExitKeeps(g: Guest, kernel: Kernel, d: Death, i: nat)
    requires Inv(g, kernel, false) && d.pid !in g.waiters && ByPid(g.procs, d.pid) == Some(i) && d.pid != 0
    ensures Inv(Route(g, d, false), kernel - {d.pid}, false)
  {
    hide TableOk, EntriesOk, TimersOk, KernelOk, ExecsOk, StopsOk, EmitsOk, EntryOk, Route, ExitedEntry;
    var q := ExitedEntry(g, g.procs[i], d.exit, d.healthy);
    EntryAt(g, kernel, false, i);
    ExitedEntryOk(g, g.procs[i], d.exit, d.healthy, g.oom);
    ExitedEntryIs(g, g.procs[i], d.exit, d.healthy);
    RouteExitIs(g, d, i);
    TableEdit(g.procs, i, q);
    EntriesEdit(g.procs, i, q, g.gens, g.stamp, g.runs, g.oom, g.gens + 1, g.stamp + 1, g.runs);
    TimersFresh(g.procs, i, q, g.gens, g.pending, false);
    KernelReaped(g.procs, i, q, g.waiters, kernel);
    StopsReleased(g.procs, i, q, g.issued, g.released);
    EmitsSettle(g.procs, i, q, g.stamp, g.emitted);
  }

  lemma RouteKeeps(g: Guest, kernel: Kernel, d: Death, hit: bool, oom: bool)
    requires Inv(g, kernel, hit) && (hit ==> oom) && d.pid in kernel
    ensures Inv(Route(g, d, oom), kernel - {d.pid}, oom)
  {
    HitWeakens(g, kernel, hit, oom);
    assert d.pid != 0 by { assert KernelOk(g.procs, g.waiters, kernel); }
    var r := ByPid(g.procs, d.pid);
    if d.pid in g.waiters {
      RouteExecKeeps(g, kernel, d, oom, oom);
    } else if r.None? {
      RouteStrangerKeeps(g, kernel, d, oom, oom);
    } else if oom {
      RouteSpentKeeps(g, kernel, d, r.value);
    } else {
      RouteExitKeeps(g, kernel, d, r.value);
    }
  }

  // Every timer is cancelled.

  lemma StopTimersKeeps(g: Guest, kernel: Kernel, hit: bool, stopping: bool, oom: bool, sent: seq<Sent>)
    requires Inv(g, kernel, hit) && (g.oom || hit ==> oom)
    ensures Inv(StopTimers(g).(stopping := stopping, oom := oom, sent := sent), kernel, false)
  {
    hide TableOk, EntriesOk, TimersOk, KernelOk, ExecsOk, StopsOk, EmitsOk;
    EntriesRegenerated(g.procs, g.gens, g.stamp, g.runs, g.oom || hit, oom);
    TableRegenerated(g.procs, g.gens, g.pending, hit);
    KernelRegenerated(g.procs, g.gens, g.waiters, kernel);
    HeldRegenerated(g.procs, g.gens, g.issued, g.released);
    EmitsRegenerated(g.procs, g.gens, g.stamp, g.emitted);
  }

  lemma EntriesRegenerated(procs: seq<Proc>, gens: nat, stamp: nat, runs: nat, spent: bool, oom: bool)
    requires EntriesOk(procs, gens, stamp, runs, spent) && (spent ==> oom)
    ensures EntriesOk(Regenerated(procs, gens), gens + |procs|, stamp, runs, oom)
  {
    var r := Regenerated(procs, gens);
    forall i | 0 <= i < |r| ensures EntryOk(r[i], gens + |procs|, stamp, runs, oom) {
      assert EntryOk(procs[i], gens, stamp, runs, spent);
    }
  }

  lemma TableRegenerated(procs: seq<Proc>, gens: nat, pending: multiset<Due>, hit: bool)
    requires TableOk(procs) && TimersOk(procs, gens, pending, hit)
    ensures TableOk(Regenerated(procs, gens)) && TimersOk(Regenerated(procs, gens), gens + |procs|, pending, false)
  {
  }

  lemma EmitsRegenerated(procs: seq<Proc>, gens: nat, stamp: nat, emitted: seq<Emit>)
    requires EmitsOk(procs, stamp, emitted)
    ensures EmitsOk(Regenerated(procs, gens), stamp, emitted)
  {
    assert Names(Regenerated(procs, gens)) == Names(procs);
  }

  lemma KernelRegenerated(procs: seq<Proc>, gens: nat, waiters: map<nat, nat>, kernel: Kernel)
    requires KernelOk(procs, waiters, kernel)
    ensures KernelOk(Regenerated(procs, gens), waiters, kernel)
  {
    var r := Regenerated(procs, gens);
    forall x | x in kernel && kernel[x].NamedRun? ensures exists j | 0 <= j < |r| :: r[j].pid == x {
      var j :| 0 <= j < |procs| && procs[j].pid == x;
      assert r[j].pid == x;
    }
  }

  lemma {:induction false} HeldSame(a: seq<Proc>, b: seq<Proc>, id: nat)
    requires |a| == |b| && forall i | 0 <= i < |a| :: a[i].reaped == b[i].reaped
    ensures Held(a, id) == Held(b, id)
  {
    if a != [] {
      HeldSame(a[..|a| - 1], b[..|b| - 1], id);
    }
  }

  lemma HeldRegenerated(procs: seq<Proc>, gens: nat, issued: nat, released: multiset<nat>)
    requires StopsOk(procs, issued, released)
    ensures StopsOk(Regenerated(procs, gens), issued, released)
  {
    forall id: nat ensures released[id] + Held(Regenerated(procs, gens), id) == if id < issued then 1 else 0 {
      HeldSame(procs, Regenerated(procs, gens), id);
    }
  }

  // Timers that come due.

  lemma WakeDropKeeps(g: Guest, kernel: Kernel, due: Due)
    requires Inv(g, kernel, false)
    ensures Inv(g.(pending := g.pending - multiset{due}), kernel, false)
  {
    hide TableOk, EntriesOk, KernelOk, ExecsOk, StopsOk, EmitsOk;
  }

  /** A start-again due whose generation matches finds its process restarting with no pid; a matching kill due finds a
      stop in flight on a process that runs. */
  lemma MatchingDue(g: Guest, kernel: Kernel, due: Due, i: nat)
    requires Inv(g, kernel, false) && due in g.pending && i < |g.procs| && Matches(g, due, i)
    ensures !due.kill ==> g.procs[i].state.Restarting? && g.procs[i].pid == 0
    ensures due.kill ==> g.procs[i].state.Running? && g.procs[i].stopping && g.procs[i].pid != 0
    ensures g.pending[due] == 1 && g.pending[due.(kill := !due.kill)] == 0
  {
    var p := g.procs[i];
    assert TimerOk(p, g.pending, false) && EntryOk(p, g.gens, g.stamp, g.runs, g.oom);
    assert due == Due(p.name, p.gen, due.kill);
  }

  lemma WakeAgainKeeps(g: Guest, kernel: Kernel, i: nat)
    requires Inv(g, kernel, false) && i < |g.procs| && g.procs[i].state.Restarting?
    requires Due(g.procs[i].name, g.procs[i].gen, false) !in g.pending
             && Due(g.procs[i].name, g.procs[i].gen, true) !in g.pending
    ensures Inv(Arm(g, i, false), kernel, false)
  {
    var p := g.procs[i];
    assert TimersOk(g.procs, g.gens, g.pending + multiset{Due(p.name, p.gen, false)}, false) by {
      assert p.gen <= g.gens by { assert EntryOk(p, g.gens, g.stamp, g.runs, g.oom); }
    }
    hide TableOk, EntriesOk, TimersOk, KernelOk, ExecsOk, StopsOk, EmitsOk;
  }

  lemma TimersSame(procs: seq<Proc>, i: nat, q: Proc, gens: nat, pending: multiset<Due>)
    requires TimersOk(procs, gens, pending, false) && i < |procs| && q.name == procs[i].name && q.gen == procs[i].gen
    requires Due(q.name, q.gen, false) !in pending && Due(q.name, q.gen, true) !in pending
    ensures TimersOk(procs[i := q], gens, pending, false)
  {
  }

  lemma WakeGivesUpKeeps(g: Guest, kernel: Kernel, i: nat)
    requires Inv(g, kernel, false) && i < |g.procs| && g.procs[i].state.Restarting? && g.procs[i].pid == 0
    requires Due(g.procs[i].name, g.procs[i].gen, false) !in g.pending
             && Due(g.procs[i].name, g.procs[i].gen, true) !in g.pending
    ensures Inv(Settle(Edit(g, i, g.procs[i].(state := GaveUp)), i), kernel, false)
  {
    hide TableOk, EntriesOk, TimersOk, KernelOk, ExecsOk, StopsOk, EmitsOk, EntryOk;
    var p := g.procs[i];
    var q := p.(state := GaveUp, stamp := g.stamp + 1);
    Twice(g.procs, i, p.(state := GaveUp), q);
    EntryAt(g, kernel, false, i);
    KilledEntryOk(p, g.gens, g.stamp, g.runs, g.oom);
    TableEdit(g.procs, i, q);
    EntriesEdit(g.procs, i, q, g.gens, g.stamp, g.runs, g.oom, g.gens, g.stamp + 1, g.runs);
    TimersSame(g.procs, i, q, g.gens, g.pending);
    KernelEdit(g.procs, i, q, g.waiters, kernel);
    StopsEdit(g.procs, i, q, g.issued, g.released);
    EmitsSettle(g.procs, i, q, g.stamp, g.emitted);
  }

  lemma KernelStarted(procs: seq<Proc>, i: nat, q: Proc, waiters: map<nat, nat>, kernel: Kernel)
    requires KernelOk(procs, waiters, kernel) && i < |procs| && procs[i].pid == 0 && q.pid != 0 && q.pid !in kernel
    ensures KernelOk(procs[i := q], waiters, kernel[q.pid := NamedRun(q.run)])
  {
    var r, k := procs[i := q], kernel[q.pid := NamedRun(q.run)];
    forall x | x in k && k[x].NamedRun? ensures exists j | 0 <= j < |r| :: r[j].pid == x {
      if x == q.pid {
        assert r[i].pid == x;
      } else {
        var j :| 0 <= j < |procs| && procs[j].pid == x;
        assert x != 0;
        assert r[j].pid == x;
      }
    }
  }

  function RestartedEntry(g: Guest, p: Proc, pid: nat): Proc {
    p.(pid := pid, run := g.runs, count := p.count + 1, state := Running, restarts := p.restarts + 1,
    life := p.life + [StartedAgain], stamp := g.stamp + 1)
  }

  lemma RestartedEntryOk(g: Guest, p: Proc, pid: nat, spent: bool)
    requires EntryOk(p, g.gens, g.stamp, g.runs, spent) && p.state.Restarting? && pid != 0
    ensures EntryOk(RestartedEntry(g, p, pid), g.gens, g.stamp + 1, g.runs + 1, spent)
  {
    StreakOf(p.life, StartedAgain);
    if p.restart.Limited() {
      StreakGrows(p.life, StartedAgain, p.restart.retries);
    }
  }

  lemma WakeStartsKeeps(g: Guest, kernel: Kernel, i: nat, pid: nat)
    requires Inv(g, kernel, false) && i < |g.procs| && g.procs[i].state.Restarting? && g.procs[i].pid == 0
    requires Due(g.procs[i].name, g.procs[i].gen, false) !in g.pending
             && Due(g.procs[i].name, g.procs[i].gen, true) !in g.pending
    requires pid != 0 && pid !in kernel
    ensures Inv(Settle(StartAgain(g, i, pid), i), kernel[pid := NamedRun(g.runs)], false)
  {
    hide TableOk, EntriesOk, TimersOk, KernelOk, ExecsOk, StopsOk, EmitsOk, EntryOk;
    var p := g.procs[i];
    var q := RestartedEntry(g, p, pid);
    Twice(g.procs, i, StartAgain(g, i, pid).procs[i], q);
    EntryAt(g, kernel, false, i);
    RunsBelow(g, kernel);
    RestartedEntryOk(g, p, pid, g.oom);
    TableEdit(g.procs, i, q);
    EntriesEdit(g.procs, i, q, g.gens, g.stamp, g.runs, g.oom, g.gens, g.stamp + 1, g.runs + 1);
    TimersSame(g.procs, i, q, g.gens, g.pending);
    KernelStarted(g.procs, i, q, g.waiters, kernel);
    StopsEdit(g.procs, i, q, g.issued, g.released);
    EmitsSettle(g.procs, i, q, g.stamp, g.emitted);
  }

  lemma RunsBelow(g: Guest, kernel: Kernel)
    requires Inv(g, kernel, false)
    ensures forall j | 0 <= j < |g.procs| :: g.procs[j].run < g.runs
  {
    forall j | 0 <= j < |g.procs| ensures g.procs[j].run < g.runs {
      assert EntryOk(g.procs[j], g.gens, g.stamp, g.runs, g.oom);
    }
  }

  function WithStart(kernel: Kernel, started: bool, forked: Option<nat>, o: Owner): Kernel {
    if started && forked.Some? then kernel[forked.value := o] else kernel
  }

  lemma NoneLeft(pending: multiset<Due>, due: Due)
    requires pending[due] == 1 && pending[due.(kill := !due.kill)] == 0
    ensures Due(due.name, due.gen, false) !in pending - multiset{due}
            && Due(due.name, due.gen, true) !in pending - multiset{due}
  {
    assert due == Due(due.name, due.gen, due.kill) && due.(kill := !due.kill) == Due(due.name, due.gen, !due.kill);
  }

  lemma WakeKeeps(g: Guest, kernel: Kernel, frozen: bool, due: Due, forked: Option<nat>)
    requires Inv(g, kernel, false) && due in g.pending
             && (forked.Some? ==> forked.value != 0 && forked.value !in kernel)
    ensures var (h, started) := Wake(g, frozen, due, forked);
            Inv(h, WithStart(kernel, started, forked, NamedRun(g.runs)), false)
  {
    hide Inv, Settle, StartAgain, Edit, Arm;
    WakeDropKeeps(g, kernel, due);
    var k := g.(pending := g.pending - multiset{due});
    var r := Named(k.procs, due.name);
    if r.Some? && k.procs[r.value].gen == due.gen && !k.stopping && !k.oom {
      var p := k.procs[r.value];
      MatchingDue(g, kernel, due, r.value);
      NoneLeft(g.pending, due);
      assert due == Due(p.name, p.gen, due.kill);
      if due.kill {
        SendKeeps(k, kernel, p.pid, SIGKILL);
      } else if frozen {
        WakeAgainKeeps(k, kernel, r.value);
      } else if forked.None? {
        WakeGivesUpKeeps(k, kernel, r.value);
      } else {
        WakeStartsKeeps(k, kernel, r.value, forked.value);
      }
    }
  }

  lemma SendKeeps(g: Guest, kernel: Kernel, leader: nat, signal: int)
    requires Inv(g, kernel, false)
    ensures Inv(Send(g, leader, signal), kernel, false)
  {
  }

  // Stopping one process.

  lemma StopsAnswered(procs: seq<Proc>, issued: nat, released: multiset<nat>)
    requires StopsOk(procs, issued, released)
    ensures StopsOk(procs, issued + 1, released + multiset{issued})
  {
  }

  lemma StopsHeld(procs: seq<Proc>, i: nat, q: Proc, issued: nat, released: multiset<nat>)
    requires StopsOk(procs, issued, released) && i < |procs| && q.reaped == procs[i].reaped + [issued]
    ensures StopsOk(procs[i := q], issued + 1, released)
  {
    forall id: nat ensures released[id] + Held(procs[i := q], id) == if id < issued + 1 then 1 else 0 {
      HeldEdit(procs, i, q, id);
    }
  }

  lemma StopAnsweredKeeps(g: Guest, kernel: Kernel)
    requires Inv(g, kernel, false)
    ensures Inv(Answer(g.(issued := g.issued + 1), g.issued), kernel, false)
  {
    StopsAnswered(g.procs, g.issued, g.released);
    hide TableOk, EntriesOk, TimersOk, KernelOk, ExecsOk, StopsOk, EmitsOk;
  }

  lemma KilledEntryOk(p: Proc, gens: nat, stamp: nat, runs: nat, spent: bool)
    requires EntryOk(p, gens, stamp, runs, spent) && p.pid == 0
    ensures EntryOk(p.(gen := gens + 1, state := Killed, stamp := stamp + 1), gens + 1, stamp + 1, runs, spent)
    ensures EntryOk(p.(state := GaveUp, stamp := stamp + 1), gens, stamp + 1, runs, spent)
  {
  }

  lemma StopWaitingIs(g: Guest, i: nat)
    requires i < |g.procs|
    ensures var q := g.procs[i].(gen := g.gens + 1, state := Killed, stamp := g.stamp + 1);
            StopWaiting(g, i) == g.(gens := g.gens + 1, stamp := g.stamp + 1, procs := g.procs[i := q],
                                    emitted := g.emitted + [Status(ReportOf(q))])
  {
    var p := g.procs[i].(gen := g.gens + 1);
    Twice(g.procs, i, p, p.(state := Killed));
    Twice(g.procs, i, p.(state := Killed), p.(state := Killed, stamp := g.stamp + 1));
  }

  lemma StopRunningIs(g: Guest, i: nat, request: nat, graceful: bool)
    requires i < |g.procs|
    ensures var q := g.procs[i].(gen := g.gens + 1, stopping := true, reaped := g.procs[i].reaped + [request]);
            StopRunning(g, i, request, graceful) ==
            g.(gens := g.gens + 1, procs := g.procs[i := q],
               sent := g.sent + [Sent(q.pid, if graceful then SIGTERM else SIGKILL)],
               pending := if graceful then g.pending + multiset{Due(q.name, q.gen, true)} else g.pending)
  {
    Twice(g.procs, i, g.procs[i].(gen := g.gens + 1),
          g.procs[i].(gen := g.gens + 1, stopping := true, reaped := g.procs[i].reaped + [request]));
  }

  lemma StopWaitingKeeps(g: Guest, kernel: Kernel, i: nat)
    requires Inv(g, kernel, false) && i < |g.procs| && !g.procs[i].state.Ended() && g.procs[i].pid == 0
    ensures Inv(StopWaiting(g, i), kernel, false)
  {
    hide TableOk, EntriesOk, TimersOk, KernelOk, ExecsOk, StopsOk, EmitsOk, EntryOk;
    var p := g.procs[i];
    var q := p.(gen := g.gens + 1, state := Killed, stamp := g.stamp + 1);
    StopWaitingIs(g, i);
    EntryAt(g, kernel, false, i);
    KilledEntryOk(p, g.gens, g.stamp, g.runs, g.oom);
    TableEdit(g.procs, i, q);
    EntriesEdit(g.procs, i, q, g.gens, g.stamp, g.runs, g.oom, g.gens + 1, g.stamp + 1, g.runs);
    TimersFresh(g.procs, i, q, g.gens, g.pending, false);
    KernelEdit(g.procs, i, q, g.waiters, kernel);
    StopsEdit(g.procs, i, q, g.issued, g.released);
    EmitsSettle(g.procs, i, q, g.stamp, g.emitted);
  }

  lemma StoppingEntryOk(p: Proc, gens: nat, stamp: nat, runs: nat, spent: bool, request: nat)
    requires EntryOk(p, gens, stamp, runs, spent) && p.pid != 0
    ensures EntryOk(p.(gen := gens + 1, stopping := true, reaped := p.reaped + [request]), gens + 1, stamp, runs, spent)
    ensures p.state.Running?
  {
  }

  lemma StopRunningKeeps(g: Guest, kernel: Kernel, i: nat, graceful: bool)
    requires Inv(g, kernel, false) && i < |g.procs| && !g.procs[i].state.Ended() && g.procs[i].pid != 0
    ensures Inv(StopRunning(g.(issued := g.issued + 1), i, g.issued, graceful), kernel, false)
  {
    hide TableOk, EntriesOk, TimersOk, KernelOk, ExecsOk, StopsOk, EmitsOk, EntryOk;
    var p := g.procs[i];
    var q := p.(gen := g.gens + 1, stopping := true, reaped := p.reaped + [g.issued]);
    StopRunningIs(g.(issued := g.issued + 1), i, g.issued, graceful);
    EntryAt(g, kernel, false, i);
    StoppingEntryOk(p, g.gens, g.stamp, g.runs, g.oom, g.issued);
    TableEdit(g.procs, i, q);
    EntriesEdit(g.procs, i, q, g.gens, g.stamp, g.runs, g.oom, g.gens + 1, g.stamp, g.runs);
    TimersFresh(g.procs, i, q, g.gens, g.pending, false);
    KernelEdit(g.procs, i, q, g.waiters, kernel);
    StopsHeld(g.procs, i, q, g.issued, g.released);
    EmitsEdit(g.procs, i, q, g.stamp, g.emitted);
  }

  lemma StopProcessKeeps(g: Guest, kernel: Kernel, name: string, graceful: bool)
    requires Inv(g, kernel, false)
    ensures Inv(StopProcess(g, name, graceful), kernel, false)
  {
    hide Inv, StopWaiting, StopRunning;
    var r := Named(g.procs, name);
    if r.None? || g.procs[r.value].state.Ended() {
      StopAnsweredKeeps(g, kernel);
    } else if g.procs[r.value].pid == 0 {
      StopAnsweredKeeps(g, kernel);
      StopWaitingKeeps(Answer(g.(issued := g.issued + 1), g.issued), kernel, r.value);
    } else {
      StopRunningKeeps(g, kernel, r.value, graceful);
    }
  }

  lemma StopKeeps(g: Guest, kernel: Kernel, signal: int)
    requires Inv(g, kernel, false)
    ensures Inv(Stop(g, signal), kernel, false)
  {
    StopTimersKeeps(g, kernel, false, true, g.oom, g.sent + Forwarded(g.procs, signal));
  }

  // Execs.

  lemma ExecSpawned(waiters: map<nat, nat>, execs: nat, answered: seq<(nat, Exit)>, pid: nat)
    requires ExecsOk(waiters, execs, answered) && pid !in waiters
    ensures ExecsOk(waiters[pid := execs], execs + 1, answered)
  {
    var w := waiters[pid := execs];
    forall e: nat ensures Answers(answered, e) == if e < execs + 1 && !Waiting(w, e) then 1 else 0 {
      assert w[pid] == execs;
      if Waiting(waiters, e) {
        var x :| x in waiters && waiters[x] == e;
        assert w[x] == e;
      }
    }
  }

  lemma SpawnKeeps(g: Guest, kernel: Kernel, pid: nat)
    requires Inv(g, kernel, false) && pid != 0 && pid !in kernel
    ensures Inv(Spawned(g, pid), kernel[pid := Exec(g.execs)], false)
  {
    hide TableOk, EntriesOk, TimersOk, ExecsOk, StopsOk, EmitsOk;
    assert pid !in g.waiters;
    ExecSpawned(g.waiters, g.execs, g.answered, pid);
    assert KernelOk(g.procs, g.waiters[pid := g.execs], kernel[pid := Exec(g.execs)]);
  }

  lemma BornKeeps(g: Guest, kernel: Kernel, pid: nat, hit: bool)
    requires Inv(g, kernel, hit) && pid != 0 && pid !in kernel
    ensures Inv(g, kernel[pid := Stranger], hit)
  {
    assert KernelOk(g.procs, g.waiters, kernel[pid := Stranger]);
    hide TableOk, EntriesOk, TimersOk, KernelOk, ExecsOk, StopsOk, EmitsOk;
  }

  // A run of a name.

  lemma {:induction false} HeldWithout(procs: seq<Proc>, i: nat, id: nat)
    requires i < |procs|
    ensures Held(Without(procs, i), id) == Held(procs, id) - multiset(procs[i].reaped)[id]
  {
    var n := |procs| - 1;
    if i == n {
      assert Without(procs, i) == procs[..n];
    } else {
      assert Without(procs, i)[..n - 1] == Without(procs[..n], i);
      assert Without(procs, i)[n - 1] == procs[n];
      HeldWithout(procs[..n], i, id);
    }
  }

  lemma TableWithout(procs: seq<Proc>, i: nat, gens: nat, stamp: nat, runs: nat, spent: bool, pending: multiset<Due>)
    requires TableOk(procs) && EntriesOk(procs, gens, stamp, runs, spent) && TimersOk(procs, gens, pending, false)
             && i < |procs|
    ensures TableOk(Without(procs, i)) && EntriesOk(Without(procs, i), gens, stamp, runs, spent)
    ensures TimersOk(Without(procs, i), gens, pending, false)
  {
    hide EntryOk, TimerOk;
  }

  lemma StopsWithout(procs: seq<Proc>, i: nat, issued: nat, released: multiset<nat>)
    requires StopsOk(procs, issued, released) && i < |procs| && procs[i].reaped == []
    ensures StopsOk(Without(procs, i), issued, released)
  {
    forall id: nat ensures released[id] + Held(Without(procs, i), id) == if id < issued then 1 else 0 {
      HeldWithout(procs, i, id);
    }
  }

  lemma RecordWithout(procs: seq<Proc>, i: nat, s: seq<Report>)
    requires OnRecord(procs, s) && i < |procs|
    ensures OnRecord(Without(procs, i), s)
  {
    hide ReportOf;
  }

  /** The parts of the invariant that speak of the table. */
  ghost predicate TableInv(g: Guest, kernel: Kernel, procs: seq<Proc>) {
    && TableOk(procs) && EntriesOk(procs, g.gens, g.stamp, g.runs, g.oom) && TimersOk(procs, g.gens, g.pending, false)
    && KernelOk(procs, g.waiters, kernel) && StopsOk(procs, g.issued, g.released)
    && |Statuses(g.emitted)| == g.stamp && OnRecord(procs, Statuses(g.emitted)) && WellTold(g.emitted)
  }

  lemma InvTable(g: Guest, kernel: Kernel)
    requires Inv(g, kernel, false)
    ensures TableInv(g, kernel, g.procs)
  {
    assert OnRecord(g.procs, Statuses(g.emitted));
    hide TableOk, EntriesOk, TimersOk, KernelOk, StopsOk, OnRecord, WellTold;
  }

  /** An entry that ended leaves the table: nobody waits at it, and it has no pid. */
  lemma WithoutKeeps(g: Guest, kernel: Kernel, i: nat)
    requires TableInv(g, kernel, g.procs) && i < |g.procs| && g.procs[i].state.Ended()
    ensures TableInv(g, kernel, Without(g.procs, i))
  {
    hide TableOk, TimersOk, KernelOk, StopsOk, OnRecord, Without, WellTold;
    assert EntryOk(g.procs[i], g.gens, g.stamp, g.runs, g.oom);
    hide EntriesOk, EntryOk;
    TableWithout(g.procs, i, g.gens, g.stamp, g.runs, g.oom, g.pending);
    KernelWithout(g.procs, i, g.waiters, kernel);
    StopsWithout(g.procs, i, g.issued, g.released);
    RecordWithout(g.procs, i, Statuses(g.emitted));
  }

  lemma KernelWithout(procs: seq<Proc>, i: nat, waiters: map<nat, nat>, kernel: Kernel)
    requires KernelOk(procs, waiters, kernel) && i < |procs| && procs[i].pid == 0
    ensures KernelOk(Without(procs, i), waiters, kernel)
  {
    var r := Without(procs, i);
    forall x | x in kernel && kernel[x].NamedRun? ensures exists j | 0 <= j < |r| :: r[j].pid == x {
      var j :| 0 <= j < |procs| && procs[j].pid == x;
      assert x != 0;
      assert r[if j < i then j else j - 1].pid == x;
    }
  }

  lemma KernelRan(procs: seq<Proc>, p: Proc, waiters: map<nat, nat>, kernel: Kernel)
    requires KernelOk(procs, waiters, kernel) && p.pid != 0 && p.pid !in kernel
    ensures KernelOk(procs + [p], waiters, kernel[p.pid := NamedRun(p.run)])
  {
    var r, k := procs + [p], kernel[p.pid := NamedRun(p.run)];
    forall x | x in k && k[x].NamedRun? ensures exists j | 0 <= j < |r| :: r[j].pid == x {
      if x == p.pid {
        assert r[|procs|].pid == x;
      } else {
        var j :| 0 <= j < |procs| && procs[j].pid == x;
        assert r[j].pid == x;
      }
    }
  }

  function FirstRun(g: Guest, name: string, restart: RestartPolicy, pid: nat): Proc {
    Proc(name, restart, pid, g.runs, 0, Running, None, 0, g.stamp + 1, g.gens + 1, false, [], [])
  }

  lemma ReplaceIs(g: Guest, was: Option<nat>, name: string, restart: RestartPolicy, pid: nat)
    requires was.Some? ==> was.value < |g.procs|
    ensures var kept := if was.Some? then Without(g.procs, was.value) else g.procs;
            var p := FirstRun(g, name, restart, pid);
            Replace(g, was, name, restart, pid) ==
            g.(procs := kept + [p], gens := g.gens + 1, stamp := g.stamp + 1, runs := g.runs + 1,
               emitted := g.emitted + [Keep(Names(kept + [p])), Status(ReportOf(p))])
  {
    var kept := if was.Some? then Without(g.procs, was.value) else g.procs;
    var p := FirstRun(g, name, restart, pid);
    var h := KeepNames(Enter(if was.Some? then Drop(g, was.value) else g, name, restart, pid));
    assert Names(h.procs) == Names(kept + [p]);
    assert h.procs[|kept| := p] == kept + [p];
    assert g.emitted + [Keep(Names(kept + [p]))] + [Status(ReportOf(p))] ==
             g.emitted + [Keep(Names(kept + [p])), Status(ReportOf(p))];
  }

  lemma FirstRunOk(g: Guest, p: Proc)
    requires p == FirstRun(g, p.name, p.restart, p.pid) && p.restart.Valid() && p.pid != 0
    ensures EntryOk(p, g.gens + 1, g.stamp + 1, g.runs + 1, g.oom)
  {
    assert Streak(p.life) == 0 && (forall k | 0 <= k <= |p.life| :: p.life[..k] == []);
  }

  lemma EntriesRan(kept: seq<Proc>, p: Proc, gens: nat, stamp: nat, runs: nat, spent: bool)
    requires EntriesOk(kept, gens, stamp, runs, spent) && EntryOk(p, gens + 1, stamp + 1, runs + 1, spent)
    ensures EntriesOk(kept + [p], gens + 1, stamp + 1, runs + 1, spent)
    ensures forall j | 0 <= j < |kept| :: kept[j].run < runs
  {
    hide RetriesOk;
    assert forall j | 0 <= j < |kept| :: EntryOk(kept[j], gens, stamp, runs, spent);
  }

  lemma TableRan(kept: seq<Proc>, p: Proc, gens: nat, pending: multiset<Due>)
    requires TableOk(kept) && |kept| < MAX_PROCESSES && TimersOk(kept, gens, pending, false)
    requires (forall j | 0 <= j < |kept| :: kept[j].name != p.name && kept[j].run != p.run) && p.gen == gens + 1
    ensures TableOk(kept + [p]) && TimersOk(kept + [p], gens + 1, pending, false)
  {
  }

  lemma StopsRan(kept: seq<Proc>, p: Proc, issued: nat, released: multiset<nat>)
    requires StopsOk(kept, issued, released) && p.reaped == []
    ensures StopsOk(kept + [p], issued, released)
  {
    forall id: nat ensures released[id] + Held(kept + [p], id) == if id < issued then 1 else 0 {
      assert (kept + [p])[..|kept|] == kept;
    }
  }

  lemma RecordRan(kept: seq<Proc>, p: Proc, s: seq<Report>)
    requires OnRecord(kept, s) && p.stamp == |s| + 1
    ensures OnRecord(kept + [p], s + [ReportOf(p)])
  {
  }

  lemma {:induction false} RanEmits(kept: seq<Proc>, p: Proc, stamp: nat, emitted: seq<Emit>)
    requires |Statuses(emitted)| == stamp && OnRecord(kept, Statuses(emitted)) && p.stamp == stamp + 1
             && WellTold(emitted)
    ensures EmitsOk(kept + [p], stamp + 1, emitted + [Keep(Names(kept + [p])), Status(ReportOf(p))])
  {
    assert ReportOf(p).stamp == p.stamp && ReportOf(p).name == p.name;
    hide OnRecord, Statuses, LastKept, ReportOf, WellTold;
    var a, b := Keep(Names(kept + [p])), Status(ReportOf(p));
    StatusesOf(emitted, a);
    StatusesOf(emitted + [a], b);
    assert emitted + [a, b] == emitted + [a] + [b];
    assert Names(kept + [p])[|kept|] == p.name;
    WellToldOn(emitted, a);
    WellToldOn(emitted + [a], b);
    RecordRan(kept, p, Statuses(emitted));
  }

  lemma RanKeeps(g: Guest, kernel: Kernel, kept: seq<Proc>, p: Proc)
    requires Inv(g, kernel, false) && TableInv(g, kernel, kept) && |kept| < MAX_PROCESSES
    requires forall j | 0 <= j < |kept| :: kept[j].name != p.name
    requires p == FirstRun(g, p.name, p.restart, p.pid) && p.restart.Valid() && p.pid != 0 && p.pid !in kernel
    ensures Inv(g.(procs := kept + [p], gens := g.gens + 1, stamp := g.stamp + 1, runs := g.runs + 1,
                emitted := g.emitted + [Keep(Names(kept + [p])), Status(ReportOf(p))]),
                kernel[p.pid := NamedRun(g.runs)], false)
  {
    hide TableOk, EntriesOk, TimersOk, KernelOk, ExecsOk, StopsOk, EmitsOk, EntryOk, OnRecord, WellTold;
    FirstRunOk(g, p);
    EntriesRan(kept, p, g.gens, g.stamp, g.runs, g.oom);
    TableRan(kept, p, g.gens, g.pending);
    KernelRan(kept, p, g.waiters, kernel);
    StopsRan(kept, p, g.issued, g.released);
    RanEmits(kept, p, g.stamp, g.emitted);
  }

  /** What a run that is not refused keeps of the table: room for one more entry, and none of its name. */
  lemma RunMakesRoom(g: Guest, name: string)
    requires TableOk(g.procs) && RunRefused(g, name).None?
    ensures var r := Replaced(g.procs, name);
            && (r.Some? ==> r.value < |g.procs| && g.procs[r.value].state.Ended())
            && var kept := if r.Some? then Without(g.procs, r.value) else g.procs;
               |kept| < MAX_PROCESSES && forall j | 0 <= j < |kept| :: kept[j].name != name
  {
  }

  lemma RunStartsKeeps(g: Guest, kernel: Kernel, name: string, restart: RestartPolicy, pid: nat)
    requires Inv(g, kernel, false) && RunRefused(g, name).None? && restart.Valid() && pid != 0 && pid !in kernel
    ensures Inv(Run(g, false, name, restart, true, Some(pid)).0, kernel[pid := NamedRun(g.runs)], false)
  {
    hide EntriesOk, TimersOk, KernelOk, ExecsOk, StopsOk, EmitsOk, TableOk, TableInv, Replaced, Without, RunRefused,
         Replace;
    RunMakesRoom(g, name);
    InvTable(g, kernel);
    var p := FirstRun(g, name, restart, pid);
    var r := Replaced(g.procs, name);
    var kept := if r.Some? then Without(g.procs, r.value) else g.procs;
    if r.Some? {
      WithoutKeeps(g, kernel, r.value);
    }
    hide Inv;
    ReplaceIs(g, r, name, restart, pid);
    RanKeeps(g, kernel, kept, p);
  }

  lemma RunKeeps(g: Guest, kernel: Kernel, frozen: bool, name: string, restart: RestartPolicy, piped: bool,
                 forked: Option<nat>)
    requires Inv(g, kernel, false) && restart.Valid() && (forked.Some? ==> forked.value != 0 && forked.value !in kernel)
    ensures var (h, ran) := Run(g, frozen, name, restart, piped, forked);
            Inv(h, WithStart(kernel, ran.Started?, forked, NamedRun(g.runs)), false)
  {
    hide Inv, Replace, KeepNames, Named, IsNamed, OldestEnded, IsOldestEnded;
    if RunRefused(g, name).None? && piped {
      if !frozen && forked.Some? {
        RunStartsKeeps(g, kernel, name, restart, forked.value);
      } else {
        KeepNamesKeeps(g, kernel);
      }
    }
  }

  lemma {:induction false} KeepNamesKeeps(g: Guest, kernel: Kernel)
    requires Inv(g, kernel, false)
    ensures Inv(KeepNames(g), kernel, false)
  {
    hide TableOk, EntriesOk, TimersOk, KernelOk, ExecsOk, StopsOk, WellTold, OnRecord, Statuses, LastKept;
    StatusesOf(g.emitted, Keep(Names(g.procs)));
    WellToldOn(g.emitted, Keep(Names(g.procs)));
  }
}
