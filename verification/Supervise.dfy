/** The guest supervisor as its one goroutine runs it: each method changes the state as its value-level operation says,
    and every request, due and batch of deaths keeps the guest's invariant. */
module Supervise {

  import opened Common
  import opened Restart
  import G = Guest
  import opened GuestInvariant
  import opened GuestSteps
  import opened GuestRuns
  import opened GuestEffects

  class Supervisor {
    var procs: seq<G.Proc>
    var gens: nat
    var stamp: nat
    var stopping: bool
    var oom: bool
    var waiters: map<nat, nat>
    var runs: nat
    var execs: nat
    var pending: multiset<G.Due>
    var issued: nat
    var released: multiset<nat>
    var answered: seq<(nat, Exit)>
    var emitted: seq<G.Emit>
    var sent: seq<G.Sent>
    /** Whose each unreaped pid is, as the kernel knows it. */
    ghost var kernel: Kernel

    ghost predicate Valid()
      reads this
    {
      Inv(Value(), kernel, false)
    }

    /** No run of a named process is unreaped. */
    ghost predicate NoneLeft()
      reads this
    {
      forall pid | pid in kernel :: !kernel[pid].NamedRun?
    }

    ghost function Value(): G.Guest
      reads this
    {
      G.Guest(procs, gens, stamp, stopping, oom, waiters, runs, execs, pending, issued, released, answered, emitted,
              sent)
    }

    constructor ()
      ensures Value() == G.NEW_GUEST && kernel == map[]
      ensures Valid()
    {
      procs, gens, stamp, stopping, oom, waiters := [], 0, 0, false, false, map[];
      runs, execs, pending, issued, released := 0, 0, multiset{}, 0, multiset{};
      answered, emitted, sent := [], [], [];
      kernel := map[];
      new;
      BootIsSound();
    }

    method Named(name: string) returns (r: Option<nat>)
      ensures r == G.Named(procs, name)
    {
      for i := 0 to |procs|
        invariant forall j | 0 <= j < i :: procs[j].name != name
      {
        if procs[i].name == name {
          G.FirstIsUnique(procs, name, 0, Some(i));
          return Some(i);
        }
      }
      return None;
    }

    method ByPid(pid: nat) returns (r: Option<nat>)
      ensures r == G.ByPid(procs, pid)
    {
      for i := 0 to |procs|
        invariant forall j | 0 <= j < i :: procs[j].pid != pid
      {
        if procs[i].pid == pid {
          G.FirstIsUnique(procs, "", pid, Some(i));
          return Some(i);
        }
      }
      return None;
    }

    method OldestEnded() returns (r: Option<nat>)
      ensures r == G.OldestEnded(procs)
    {
      for i := 0 to |procs|
        invariant forall j | 0 <= j < i :: !procs[j].state.Ended()
      {
        if procs[i].state.Ended() {
          G.FirstIsUnique(procs, "", 0, Some(i));
          return Some(i);
        }
      }
      return None;
    }

    method Running() returns (b: bool)
      ensures b <==> G.AnyRuns(procs)
    {
      for i := 0 to |procs|
        invariant forall j | 0 <= j < i :: procs[j].pid == 0
      {
        if procs[i].pid != 0 {
          return true;
        }
      }
      return false;
    }

    method NextGen() returns (gen: nat)
      modifies this`gens
      ensures gen == old(gens) + 1 == gens
    {
      gens := gens + 1;
      return gens;
    }

    method StopTimer(i: nat)
      requires i < |procs|
      modifies this`gens, this`procs
      ensures Value() == G.NewGen(old(Value()), i)
    {
      var gen := NextGen();
      procs := procs[i := procs[i].(gen := gen)];
    }

    method Put(i: nat, p: G.Proc)
      requires i < |procs|
      modifies this`procs
      ensures Value() == G.Edit(old(Value()), i, p)
    {
      procs := procs[i := p];
    }

    method Arm(i: nat, kill: bool)
      requires i < |procs|
      modifies this`pending
      ensures Value() == G.Arm(old(Value()), i, kill)
    {
      pending := pending + multiset{G.Due(procs[i].name, procs[i].gen, kill)};
    }

    method SignalGroup(leader: nat, signal: int)
      modifies this`sent
      ensures Value() == G.Send(old(Value()), leader, signal)
    {
      sent := sent + [G.Sent(leader, signal)];
    }

    /** Wakes every stop request that waits for this exit. */
    method Release(i: nat)
      requires i < |procs|
      modifies this`released, this`procs
      ensures Value() == G.Release(old(Value()), i)
    {
      var waiting := procs[i].reaped;
      for k := 0 to |waiting|
        invariant released == old(released) + multiset(waiting[..k]) && procs == old(procs)
      {
        assert waiting[..k + 1] == waiting[..k] + [waiting[k]];
        released := released + multiset{waiting[k]};
      }
      assert waiting[..|waiting|] == waiting;
      procs := procs[i := procs[i].(reaped := [])];
    }

    /** Numbers the entry's new status and reports it. */
    method Changed(i: nat)
      requires i < |procs|
      modifies this`procs, this`stamp, this`emitted
      ensures Value() == G.Settle(old(Value()), i)
    {
      stamp := stamp + 1;
      procs := procs[i := procs[i].(stamp := stamp)];
      emitted := emitted + [G.Status(G.ReportOf(procs[i]))];
    }

    method KeepNames()
      modifies this`emitted
      ensures Value() == G.KeepNames(old(Value()))
    {
      emitted := emitted + [G.Keep(G.Names(procs))];
    }

    method RunProcess(frozen: bool, name: string, restart: RestartPolicy, piped: bool, forked: Option<nat>)
      returns (ran: G.Ran)
      requires Valid() && restart.Valid() && Forkable(kernel, forked)
      modifies this
      ensures Valid() && kernel == WithStart(old(kernel), ran.Started?, forked, NamedRun(old(runs)))
      ensures (Value(), ran) == G.Run(old(Value()), frozen, name, restart, piped, forked)
      ensures RunAnswered(old(Value()), frozen, name, restart, piped, forked, Value(), ran)
    {
      hide Inv, G.Run, RunAnswered;
      RunAnswers(Value(), kernel, frozen, name, restart, piped, forked);
      RunKeeps(Value(), kernel, frozen, name, restart, piped, forked);
      ran := RunNow(frozen, name, restart, piped, forked);
      kernel := WithStart(kernel, ran.Started?, forked, NamedRun(old(runs)));
    }

    method RunNow(frozen: bool, name: string, restart: RestartPolicy, piped: bool, forked: Option<nat>)
      returns (ran: G.Ran)
      modifies this`procs, this`gens, this`runs, this`stamp, this`emitted
      ensures (Value(), ran) == G.Run(old(Value()), frozen, name, restart, piped, forked)
    {
      hide G.Named, G.IsNamed, G.OldestEnded, G.IsOldestEnded, G.Replace, G.KeepNames;
      if stopping {
        return G.Halting;
      }
      if oom {
        return G.OutOfMemory;
      }
      var was := Named(name);
      if was.Some? && !procs[was.value].state.Ended() {
        return G.Taken;
      }
      var ended := OldestEnded();
      if was.None? && |procs| >= G.MAX_PROCESSES && ended.None? {
        return G.Full;
      }
      if !piped {
        return G.NoOutput;
      }
      if frozen || forked.None? {
        KeepNames();
        return G.NotStarted;
      }
      if was.None? && |procs| >= G.MAX_PROCESSES {
        was := ended;
      }
      Replace(was, name, restart, forked.value);
      return G.Started;
    }

    /** The run's entry goes to the end of the table, in place of the one it replaces. */
    method Replace(was: Option<nat>, name: string, restart: RestartPolicy, pid: nat)
      requires was.Some? ==> was.value < |procs|
      modifies this`procs, this`gens, this`runs, this`stamp, this`emitted
      ensures Value() == G.Replace(old(Value()), was, name, restart, pid)
    {
      hide G.Drop, G.Enter, G.KeepNames, G.Settle;
      if was.Some? {
        Drop(was.value);
      }
      Enter(name, restart, pid);
      KeepNames();
      Changed(|procs| - 1);
    }

    method Drop(i: nat)
      requires i < |procs|
      modifies this`procs
      ensures Value() == G.Drop(old(Value()), i)
    {
      procs := procs[..i] + procs[i + 1..];
    }

    method Enter(name: string, restart: RestartPolicy, pid: nat)
      modifies this`procs, this`gens, this`runs
      ensures Value() == G.Enter(old(Value()), name, restart, pid)
    {
      var gen := NextGen();
      procs := procs + [G.Proc(name, restart, pid, runs, 0, State.Running, None, 0, 0, gen, false, [], [])];
      runs := runs + 1;
    }

    method Exited(i: nat, pid: nat, exit: Exit, healthy: bool)
      requires i < |procs|
      modifies this`procs, this`gens, this`stamp, this`emitted, this`released, this`pending, this`sent
      ensures Value() == G.Exited(old(Value()), i, pid, exit, healthy)
    {
      hide G.NewGen, G.Edit, G.Judge, G.Send, G.Settle, G.Release;
      NewGenKeeps(i);
      StopTimer(i);
      if stopping {
        Put(i, procs[i].(exit := Some(exit), state := Stopped));
      } else {
        SignalGroup(pid, G.SIGKILL);
        Judge(i, exit, healthy);
      }
      Changed(i);
      Release(i);
    }

    lemma NewGenKeeps(i: nat)
      requires i < |procs|
      ensures G.NewGen(Value(), i).stopping == stopping
    {
    }

    /** The state an exit leaves the process in, and the start again it asks for. */
    method Judge(i: nat, exit: Exit, healthy: bool)
      requires i < |procs|
      modifies this`procs, this`pending
      ensures Value() == G.Judge(old(Value()), i, exit, healthy)
    {
      hide G.Edit, G.Arm;
      var p := procs[i].(exit := Some(exit));
      if p.stopping {
        Put(i, p.(stopping := false, state := Killed));
        return;
      }
      var count := if healthy then 0 else p.count;
      Put(i, p.(count := count, state := p.restart.Next(exit, count),
                life := p.life + [if healthy then G.HealthyExit else G.ShortExit]));
      if procs[i].state.Restarting? {
        Arm(i, false);
      }
    }

    /** A timer runs out. */
    method Wake(frozen: bool, due: G.Due, forked: Option<nat>) returns (started: bool)
      requires Valid() && due in pending && Forkable(kernel, forked)
      modifies this
      ensures Valid() && kernel == WithStart(old(kernel), started, forked, NamedRun(old(runs)))
      ensures (Value(), started) == G.Wake(old(Value()), frozen, due, forked)
      ensures SignalsOwn(old(Value()), Value(), old(kernel))
      ensures !old(stopping) && !old(oom) ==>
                forall i | 0 <= i < |old(procs)| && G.Matches(old(Value()), due, i) ::
                  DueDone(old(Value()), frozen, due, forked, i, Value(), started)
      ensures old(stopping) || old(oom) || (forall i | 0 <= i < |old(procs)| :: !G.Matches(old(Value()), due, i)) ==>
                !started && Value() == old(Value()).(pending := old(pending) - multiset{due})
    {
      hide Inv, G.Wake, SignalsOwn, DueDone, G.Matches;
      ghost var was := Value();
      if stopping || oom || forall i | 0 <= i < |procs| :: !G.Matches(was, due, i) {
        OtherDueDoes(was, frozen, due, forked);
      } else {
        forall i | 0 <= i < |procs| && G.Matches(was, due, i)
          ensures var (h, s) := G.Wake(was, frozen, due, forked); DueDone(was, frozen, due, forked, i, h, s)
        {
          DueDoes(was, kernel, frozen, due, forked, i);
        }
      }
      WakeKeeps(Value(), kernel, frozen, due, forked);
      DueSignalsOwn(Value(), kernel, frozen, due, forked);
      started := WakeNow(frozen, due, forked);
      kernel := WithStart(kernel, started, forked, NamedRun(old(runs)));
    }

    method WakeNow(frozen: bool, due: G.Due, forked: Option<nat>) returns (started: bool)
      modifies this`procs, this`runs, this`stamp, this`emitted, this`pending, this`sent
      ensures (Value(), started) == G.Wake(old(Value()), frozen, due, forked)
    {
      hide G.Named, G.IsNamed, G.Settle, G.Arm, G.Send, G.Edit, G.StartAgain;
      pending := pending - multiset{due};
      var at := Named(due.name);
      if at.None? || procs[at.value].gen != due.gen || stopping || oom {
        return false;
      }
      if due.kill {
        if procs[at.value].pid != 0 {
          SignalGroup(procs[at.value].pid, G.SIGKILL);
        }
        return false;
      }
      if frozen {
        Arm(at.value, false);
        return false;
      }
      if forked.None? {
        Put(at.value, procs[at.value].(state := GaveUp));
        Changed(at.value);
        return false;
      }
      StartAgain(at.value, forked.value);
      Changed(at.value);
      return true;
    }

    method StartAgain(i: nat, pid: nat)
      requires i < |procs|
      modifies this`procs, this`runs
      ensures Value() == G.StartAgain(old(Value()), i, pid)
    {
      var p := procs[i].(pid := pid, run := runs, count := procs[i].count + 1,
                         life := procs[i].life + [G.StartedAgain]);
      procs := procs[i := p.(state := State.Running, restarts := p.restarts + 1)];
      runs := runs + 1;
    }

    /** A stop of one process. */
    method StopProcess(name: string, graceful: bool)
      requires Valid()
      modifies this
      ensures Valid() && kernel == old(kernel)
      ensures Value() == G.StopProcess(old(Value()), name, graceful)
      ensures SignalsOwn(old(Value()), Value(), kernel)
      ensures StopDone(old(Value()), name, graceful, Value())
    {
      hide Inv, G.StopProcess, SignalsOwn, StopDone;
      StopProcessDoes(Value(), kernel, name, graceful);
      StopProcessKeeps(Value(), kernel, name, graceful);
      StopProcessSignalsOwn(Value(), kernel, name, graceful);
      StopNow(name, graceful);
    }

    method StopNow(name: string, graceful: bool)
      modifies this`procs, this`gens, this`stamp, this`emitted, this`issued, this`released, this`pending, this`sent
      ensures Value() == G.StopProcess(old(Value()), name, graceful)
    {
      hide G.Named, G.IsNamed, G.StopWaiting, G.StopRunning;
      var request := issued;
      issued := issued + 1;
      var at := Named(name);
      if at.None? || procs[at.value].state.Ended() {
        released := released + multiset{request};
      } else if procs[at.value].pid == 0 {
        released := released + multiset{request};
        StopWaiting(at.value);
      } else {
        StopRunning(at.value, request, graceful);
      }
    }

    method StopWaiting(i: nat)
      requires i < |procs|
      modifies this`procs, this`gens, this`stamp, this`emitted
      ensures Value() == G.StopWaiting(old(Value()), i)
    {
      hide G.NewGen, G.Edit, G.Settle;
      StopTimer(i);
      Put(i, procs[i].(state := Killed));
      Changed(i);
    }

    method StopRunning(i: nat, request: nat, graceful: bool)
      requires i < |procs|
      modifies this`procs, this`gens, this`pending, this`sent
      ensures Value() == G.StopRunning(old(Value()), i, request, graceful)
    {
      hide G.NewGen, G.Edit, G.Send, G.Arm;
      StopTimer(i);
      var p := procs[i];
      Put(i, p.(stopping := true, reaped := p.reaped + [request]));
      SignalGroup(p.pid, if graceful then G.SIGTERM else G.SIGKILL);
      if graceful {
        Arm(i, true);
      }
    }

    /** Cancels every timer. */
    method StopTimers()
      modifies this`procs, this`gens
      ensures Value() == G.StopTimers(old(Value()))
    {
      for i := 0 to |procs|
        invariant |procs| == |old(procs)| && gens == old(gens) + i
        invariant forall j | 0 <= j < |procs| ::
                    procs[j] == if j < i then old(procs[j]).(gen := old(gens) + j + 1) else old(procs[j])
      {
        StopTimer(i);
      }
      assert procs == G.Regenerated(old(procs), old(gens));
    }

    /** Cancels every timer, and passes the signal on to the group of each process that runs. */
    method Forward(signal: int)
      modifies this`procs, this`gens, this`sent
      ensures Value() == G.Forward(old(Value()), signal)
    {
      hide G.Forwarded;
      ghost var was := procs;
      assert G.Forwarded(was[..0], signal) == [] by { G.ForwardedNone(signal); }
      for i := 0 to |procs|
        invariant |procs| == |was| && gens == old(gens) + i && sent == old(sent) + G.Forwarded(was[..i], signal)
        invariant forall j | 0 <= j < |procs| :: procs[j] == if j < i then was[j].(gen := old(gens) + j + 1) else was[j]
      {
        StopTimer(i);
        if procs[i].pid != 0 {
          SignalGroup(procs[i].pid, signal);
        }
        G.ForwardedNext(was, i, signal);
      }
      assert was[..|was|] == was;
      assert procs == G.Regenerated(was, old(gens));
    }

    /** `failed` says a signal did not go through. Nothing left to forward to ends the supervisor. */
    method Stop(signal: int, failed: bool) returns (done: bool)
      requires Valid()
      modifies this
      ensures Valid() && kernel == old(kernel)
      ensures Value() == G.Stop(old(Value()), signal)
      ensures SignalsOwn(old(Value()), Value(), kernel)
      ensures Halted(old(Value()), signal, Value())
      ensures done <==> failed || NoneLeft()
    {
      hide Inv, G.AnyRuns, G.Forward, SignalsOwn, Halted;
      StopDoes(Value(), kernel, signal);
      StopKeeps(Value(), kernel, signal);
      StopSignalsOwn(Value(), kernel, signal);
      RunsAreUnreaped(G.Stop(Value(), signal), kernel);
      stopping := true;
      Forward(signal);
      if failed {
        return true;
      }
      var running := Running();
      return !running;
    }

    /** One batch of reaped children, in the order the kernel gave them. */
    method Collect(deaths: seq<G.Death>, ghost events: seq<KernelEvent>) returns (done: bool)
      requires Valid() && Allowed(kernel, events) && deaths == Deaths(events)
      modifies this
      ensures Valid() && kernel == KernelAfter(old(kernel), events)
      ensures Value() == G.Closed(G.ReapAll(old(Value()), deaths))
      ensures forall k | 0 <= k < |events| && events[k].Died? :: DeathTold(old(Value()), old(kernel), events, k)
      ensures KillsEnded(old(Value()), Value(), old(kernel), events)
      ensures done <==> stopping && NoneLeft() && SomeRunDied(old(kernel), events) &&
                        !exists k | 0 <= k < |deaths| :: deaths[k].exit.signal == G.SIGKILL && deaths[k].hit
    {
      hide Inv, G.ReapAll, G.Closed, DeathTold, Allowed, KernelAfter, Deaths, G.AnyRuns, SomeRunDied;
      ghost var was, before, b := Value(), kernel, G.ReapAll(Value(), deaths);
      ReapStepKeeps(was, before, events);
      forall k | 0 <= k < |events| && events[k].Died? ensures DeathTold(was, before, events, k) {
        EveryDeathGoesToOwner(was, before, events, k);
      }
      BatchReaps(was, before, events);
      BatchHits(was, deaths);
      CollectKills(was, before, events);
      assert KillsEnded(was, G.Closed(b), before, events) by { ClosedSends(b); }
      hide KillsEnded;
      ClosedRuns(b);
      done := CollectAll(deaths);
      kernel := KernelAfter(kernel, events);
      RunsAreUnreaped(Value(), kernel);
    }

    method CollectAll(deaths: seq<G.Death>) returns (done: bool)
      modifies this`procs, this`gens, this`stamp, this`oom, this`waiters, this`emitted, this`released, this`answered,
               this`pending, this`sent
      ensures Value() == G.Closed(G.ReapAll(old(Value()), deaths))
      ensures var b := G.ReapAll(old(Value()), deaths);
              done <==> !b.oom && b.reaped && b.g.stopping && !G.AnyRuns(b.g.procs)
    {
      hide G.Route, G.AnyRuns, G.StopTimers;
      var hit, reaped := false, false;
      for k := 0 to |deaths|
        invariant G.Batch(Value(), hit, reaped) == G.ReapAll(old(Value()), deaths[..k])
      {
        assert deaths[..k + 1][..k] == deaths[..k];
        var ours := CollectOne(deaths[k], hit);
        hit := hit || (deaths[k].exit.signal == G.SIGKILL && deaths[k].hit);
        reaped := reaped || ours;
      }
      assert deaths[..|deaths|] == deaths;
      if !hit {
        var running := Running();
        return reaped && stopping && !running;
      }
      StopTimers();
      oom := true;
      return false;
    }

    method CollectOne(d: G.Death, hit: bool) returns (ours: bool)
      modifies this`procs, this`gens, this`stamp, this`waiters, this`emitted, this`released, this`answered,
               this`pending, this`sent
      ensures Value() == G.Route(old(Value()), d, hit || (d.exit.signal == G.SIGKILL && d.hit))
      ensures ours <==> d.pid !in old(waiters) && G.ByPid(old(procs), d.pid).Some?
    {
      hide G.ByPid, G.IsByPid, G.Exited, G.Edit, G.Send, G.Release;
      var spent := hit;
      if d.exit.signal == G.SIGKILL && !spent {
        spent := d.hit;
      }
      if d.pid in waiters {
        answered := answered + [(waiters[d.pid], d.exit)];
        waiters := waiters - {d.pid};
        return false;
      }
      var at := ByPid(d.pid);
      if at.None? {
        return false;
      }
      Put(at.value, procs[at.value].(pid := 0));
      if spent {
        SignalGroup(d.pid, G.SIGKILL);
        Release(at.value);
      } else {
        Exited(at.value, d.pid, d.exit, d.healthy);
      }
      return true;
    }

    method Spawn(frozen: bool, forked: Option<nat>) returns (ok: bool)
      requires Valid() && Forkable(kernel, forked)
      modifies this
      ensures ok <==> !frozen && forked.Some?
      ensures Valid() && kernel == if ok then old(kernel)[forked.value := Exec(old(execs))] else old(kernel)
      ensures Value() == if ok then G.Spawned(old(Value()), forked.value) else old(Value())
    {
      hide Inv;
      if frozen || forked.None? {
        return false;
      }
      SpawnKeeps(Value(), kernel, forked.value);
      kernel := kernel[forked.value := Exec(execs)];
      waiters := waiters[forked.value := execs];
      execs := execs + 1;
      return true;
    }

    /** Whether a signal by pid is passed on: exactly to an unreaped child the guest started. */
    method Signal(pid: int) returns (ok: bool)
      requires Valid()
      ensures ok <==> pid > 0 && pid in kernel && !kernel[pid].Stranger?
    {
      hide Inv;
      SignalReachesOwnOnly(Value(), kernel, pid);
      if pid <= 0 {
        return false;
      }
      var at := ByPid(pid);
      return at.Some? || pid in waiters;
    }

    /** Whether the kill of an exec the host let go of is sent: exactly to an unreaped process of an exec. */
    method Kill(pid: nat) returns (ok: bool)
      requires Valid()
      ensures ok <==> pid in kernel && kernel[pid].Exec?
    {
      hide Inv;
      KillReachesExecOnly(Value(), kernel, pid);
      return pid in waiters;
    }
  }
}
