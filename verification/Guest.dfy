/** The guest supervisor's state as a value, and what each operation of its one goroutine makes of it. */
module Guest {

  import opened Common
  import opened Restart

  const MAX_PROCESSES := 16
  const SIGKILL := 9
  const SIGTERM := 15

  /** What happened to a process since it was run, as far as its retries are concerned. */
  datatype Life = StartedAgain | ShortExit | HealthyExit

  /** One named process. `run` is the fork that `pid` came from; `reaped` are the stop requests that wait for the exit.
      */
  datatype Proc = Proc(name: string, restart: RestartPolicy, pid: nat, run: nat, count: nat, state: State,
                       exit: Option<Exit>,
                       restarts: nat, stamp: nat, gen: nat, stopping: bool, reaped: seq<nat>, life: seq<Life>)

  /** A timer that ran out, for one generation of one process. */
  datatype Due = Due(name: string, gen: nat, kill: bool)

  datatype Report = Report(name: string, state: State, exit: Option<Exit>, restarts: nat, stamp: nat)

  /** What the guest hands its reporter: the names it still holds, or one numbered status. */
  datatype Emit = Keep(names: seq<string>) | Status(report: Report)

  /** A signal to the group a process leads. */
  datatype Sent = Sent(leader: nat, signal: int)

  /** One reaped child. `healthy` says it ran for the reset window; `hit` is what the memory probe answers if asked. */
  datatype Death = Death(pid: nat, exit: Exit, healthy: bool, hit: bool)

  /** `pending` are the timers armed and not yet delivered: a cancelled one may still fire. `runs` and `execs` number
      the forks, `issued` the stop requests; `released`, `answered`, `emitted` and `sent` are what the guest told the
      outside so far. */
  datatype Guest = Guest(procs: seq<Proc>, gens: nat, stamp: nat, stopping: bool, oom: bool, waiters: map<nat, nat>,
                         runs: nat, execs: nat, pending: multiset<Due>, issued: nat, released: multiset<nat>,
                         answered: seq<(nat, Exit)>, emitted: seq<Emit>, sent: seq<Sent>)

  const NEW_GUEST := Guest([], 0, 0, false, false, map[], 0, 0, multiset{}, 0, multiset{}, [], [], [])

  // The table.

  ghost predicate IsNamed(procs: seq<Proc>, name: string, r: Option<nat>) {
    match r
    case None => forall j | 0 <= j < |procs| :: procs[j].name != name
    case Some(i) => i < |procs| && procs[i].name == name && forall j | 0 <= j < i :: procs[j].name != name
  }

  function Named(procs: seq<Proc>, name: string): (r: Option<nat>)
    ensures IsNamed(procs, name, r)
    ensures r.Some? ==> r.value < |procs| && procs[r.value].name == name
  {
    if procs == [] then None
    else if procs[0].name == name then Some(0)
    else match Named(procs[1..], name) case None => None case Some(i) => Some(i + 1)
  }

  ghost predicate IsByPid(procs: seq<Proc>, pid: nat, r: Option<nat>) {
    match r
    case None => forall j | 0 <= j < |procs| :: procs[j].pid != pid
    case Some(i) => i < |procs| && procs[i].pid == pid && forall j | 0 <= j < i :: procs[j].pid != pid
  }

  function ByPid(procs: seq<Proc>, pid: nat): (r: Option<nat>)
    ensures IsByPid(procs, pid, r)
    ensures r.Some? ==> r.value < |procs| && procs[r.value].pid == pid
  {
    if procs == [] then None
    else if procs[0].pid == pid then Some(0)
    else match ByPid(procs[1..], pid) case None => None case Some(i) => Some(i + 1)
  }

  ghost predicate IsOldestEnded(procs: seq<Proc>, r: Option<nat>) {
    match r
    case None => forall j | 0 <= j < |procs| :: !procs[j].state.Ended()
    case Some(i) => i < |procs| && procs[i].state.Ended() && forall j | 0 <= j < i :: !procs[j].state.Ended()
  }

  function OldestEnded(procs: seq<Proc>): (r: Option<nat>)
    ensures IsOldestEnded(procs, r)
    ensures r.Some? ==> r.value < |procs| && procs[r.value].state.Ended()
  {
    if procs == [] then None
    else if procs[0].state.Ended() then Some(0)
    else match OldestEnded(procs[1..]) case None => None case Some(i) => Some(i + 1)
  }

  /** A first match is the only first match. */
  lemma {:induction false} FirstIsUnique(procs: seq<Proc>, name: string, pid: nat, r: Option<nat>)
    ensures IsNamed(procs, name, r) ==> r == Named(procs, name)
    ensures IsByPid(procs, pid, r) ==> r == ByPid(procs, pid)
    ensures IsOldestEnded(procs, r) ==> r == OldestEnded(procs)
  {
  }

  ghost predicate AnyRuns(procs: seq<Proc>) {
    exists i | 0 <= i < |procs| :: procs[i].pid != 0
  }

  function Names(procs: seq<Proc>): (n: seq<string>)
    ensures |n| == |procs| && forall i | 0 <= i < |n| :: n[i] == procs[i].name
  {
    seq(|procs|, i requires 0 <= i < |procs| => procs[i].name)
  }

  function Without(procs: seq<Proc>, i: nat): seq<Proc>
    requires i < |procs|
  {
    procs[..i] + procs[i + 1..]
  }

  // The steps.

  function ReportOf(p: Proc): Report {
    Report(p.name, p.state, p.exit, p.restarts, p.stamp)
  }

  function Edit(g: Guest, i: nat, p: Proc): (h: Guest)
    requires i < |g.procs|
    ensures |h.procs| == |g.procs|
  {
    g.(procs := g.procs[i := p])
  }

  /** Entry `i` gets a fresh generation, so a timer armed for it before is stale. */
  function NewGen(g: Guest, i: nat): (h: Guest)
    requires i < |g.procs|
    ensures |h.procs| == |g.procs|
  {
    g.(gens := g.gens + 1, procs := g.procs[i := g.procs[i].(gen := g.gens + 1)])
  }

  /** Entry `i` gets the next number, and the reporter hears where it stands. */
  function Settle(g: Guest, i: nat): (h: Guest)
    requires i < |g.procs|
    ensures |h.procs| == |g.procs|
  {
    var p := g.procs[i].(stamp := g.stamp + 1);
    g.(procs := g.procs[i := p], stamp := g.stamp + 1, emitted := g.emitted + [Status(ReportOf(p))])
  }

  /** The stop requests that waited for entry `i` go. */
  function Release(g: Guest, i: nat): (h: Guest)
    requires i < |g.procs|
    ensures |h.procs| == |g.procs|
  {
    g.(released := g.released + multiset(g.procs[i].reaped), procs := g.procs[i := g.procs[i].(reaped := [])])
  }

  function Arm(g: Guest, i: nat, kill: bool): Guest
    requires i < |g.procs|
  {
    g.(pending := g.pending + multiset{Due(g.procs[i].name, g.procs[i].gen, kill)})
  }

  function Send(g: Guest, leader: nat, signal: int): (h: Guest)
    ensures |h.procs| == |g.procs|
  {
    g.(sent := g.sent + [Sent(leader, signal)])
  }

  datatype Ran = Started | Halting | OutOfMemory | Taken | Full | NoOutput | NotStarted

  /** Which entry a run of `name` replaces: the ended one of that name, or the oldest ended one of a full table. */
  function Replaced(procs: seq<Proc>, name: string): Option<nat> {
    match Named(procs, name)
    case Some(i) => Some(i)
    case None => if |procs| >= MAX_PROCESSES then OldestEnded(procs) else None
  }

  function Drop(g: Guest, i: nat): Guest
    requires i < |g.procs|
  {
    g.(procs := Without(g.procs, i))
  }

  /** A new entry at the end of the table, for the fork that made `pid`. */
  function Enter(g: Guest, name: string, restart: RestartPolicy, pid: nat): (h: Guest)
    ensures |h.procs| == |g.procs| + 1
  {
    g.(procs := g.procs + [Proc(name, restart, pid, g.runs, 0, Running, None, 0, 0, g.gens + 1, false, [], [])],
       gens := g.gens + 1, runs := g.runs + 1)
  }

  function KeepNames(g: Guest): (h: Guest)
    ensures |h.procs| == |g.procs|
  {
    g.(emitted := g.emitted + [Keep(Names(g.procs))])
  }

  function Replace(g: Guest, was: Option<nat>, name: string, restart: RestartPolicy, pid: nat): Guest
    requires was.Some? ==> was.value < |g.procs|
  {
    var h := KeepNames(Enter(if was.Some? then Drop(g, was.value) else g, name, restart, pid));
    Settle(h, |h.procs| - 1)
  }

  function RunRefused(g: Guest, name: string): Option<Ran> {
    if g.stopping then Some(Halting)
    else if g.oom then Some(OutOfMemory)
    else match Named(g.procs, name)
      case Some(i) => if g.procs[i].state.Ended() then None else Some(Taken)
      case None => if |g.procs| >= MAX_PROCESSES && OldestEnded(g.procs).None? then Some(Full) else None
  }

  /** `forked` is the pid the kernel gave, if the start went through; a frozen bound refuses every start. */
  function Run(g: Guest, frozen: bool, name: string, restart: RestartPolicy, piped: bool, forked: Option<nat>)
      : (Guest, Ran)
  {
    var refused := RunRefused(g, name);
    if refused.Some? then (g, refused.value)
    else if !piped then (g, NoOutput)
    else if frozen || forked.None? then (KeepNames(g), NotStarted)
    else (Replace(g, Replaced(g.procs, name), name, restart, forked.value), Started)
  }

  /** What an exit makes of entry `i` outside a sandbox stop: killed under a stop of its own, and else what its policy
      says, with a start again armed if it asks for one. */
  function Judge(g: Guest, i: nat, exit: Exit, healthy: bool): (h: Guest)
    requires i < |g.procs|
    ensures |h.procs| == |g.procs|
  {
    var p := g.procs[i].(exit := Some(exit));
    if p.stopping then Edit(g, i, p.(stopping := false, state := Killed))
    else
      var count := if healthy then 0 else p.count;
      var h := Edit(g, i, p.(count := count, state := p.restart.Next(exit, count),
                             life := p.life + [if healthy then HealthyExit else ShortExit]));
      if h.procs[i].state.Restarting? then Arm(h, i, false) else h
  }

  /** The exit of entry `i`, whose pid the caller already cleared. Outside a sandbox stop what the run left in its group
      ends too. */
  function Exited(g: Guest, i: nat, pid: nat, exit: Exit, healthy: bool): Guest
    requires i < |g.procs|
  {
    var a := NewGen(g, i);
    var b := if g.stopping then Edit(a, i, a.procs[i].(exit := Some(exit), state := Stopped))
             else Judge(Send(a, pid, SIGKILL), i, exit, healthy);
    Release(Settle(b, i), i)
  }

  predicate Matches(g: Guest, due: Due, i: nat)
    requires i < |g.procs|
  {
    g.procs[i].name == due.name && g.procs[i].gen == due.gen
  }

  /** A due that the runtime delivers; `forked` is the pid of the start again, if it went through. */
  function Wake(g: Guest, frozen: bool, due: Due, forked: Option<nat>): (Guest, bool) {
    var g := g.(pending := g.pending - multiset{due});
    match Named(g.procs, due.name)
    case None => (g, false)
    case Some(i) =>
      var p := g.procs[i];
      if p.gen != due.gen || g.stopping || g.oom then (g, false)
      else if due.kill then (if p.pid != 0 then Send(g, p.pid, SIGKILL) else g, false)
      else if frozen then (Arm(g, i, false), false)
      else if forked.None? then (Settle(Edit(g, i, p.(state := GaveUp)), i), false)
      else (Settle(StartAgain(g, i, forked.value), i), true)
  }

  function StartAgain(g: Guest, i: nat, pid: nat): (h: Guest)
    requires i < |g.procs|
    ensures |h.procs| == |g.procs|
  {
    var p := g.procs[i];
    var q := p.(pid := pid, run := g.runs, count := p.count + 1, state := Running, restarts := p.restarts + 1,
                life := p.life + [StartedAgain]);
    g.(runs := g.runs + 1, procs := g.procs[i := q])
  }

  function Answer(g: Guest, request: nat): Guest {
    g.(released := g.released + multiset{request})
  }

  /** A process in its backoff wait ends there. */
  function StopWaiting(g: Guest, i: nat): Guest
    requires i < |g.procs|
  {
    var h := NewGen(g, i);
    Settle(Edit(h, i, h.procs[i].(state := Killed)), i)
  }

  /** A process that runs is asked to end; the request waits for its exit, and a kill follows the grace. */
  function StopRunning(g: Guest, i: nat, request: nat, graceful: bool): Guest
    requires i < |g.procs|
  {
    var a := NewGen(g, i);
    var p := a.procs[i];
    var b := Edit(a, i, p.(stopping := true, reaped := p.reaped + [request]));
    var c := Send(b, p.pid, if graceful then SIGTERM else SIGKILL);
    if graceful then Arm(c, i, true) else c
  }

  /** A stop of one process. The request is answered at once when nothing runs, and else when the run is reaped. */
  function StopProcess(g: Guest, name: string, graceful: bool): Guest {
    var request, h := g.issued, g.(issued := g.issued + 1);
    match Named(g.procs, name)
    case None => Answer(h, request)
    case Some(i) =>
      if g.procs[i].state.Ended() then Answer(h, request)
      else if g.procs[i].pid == 0 then StopWaiting(Answer(h, request), i)
      else StopRunning(h, i, request, graceful)
  }

  /** Every entry gets a fresh generation, so every timer armed so far is stale. */
  function Regenerated(procs: seq<Proc>, gens: nat): (r: seq<Proc>)
    ensures |r| == |procs| && forall i | 0 <= i < |r| :: r[i] == procs[i].(gen := gens + i + 1)
  {
    seq(|procs|, i requires 0 <= i < |procs| => procs[i].(gen := gens + i + 1))
  }

  function StopTimers(g: Guest): Guest {
    g.(procs := Regenerated(g.procs, g.gens), gens := g.gens + |g.procs|)
  }

  /** A signal to the group of each process that runs, in table order. */
  function Forwarded(procs: seq<Proc>, signal: int): seq<Sent> {
    if procs == [] then []
    else
      var n := |procs| - 1;
      Forwarded(procs[..n], signal) + if procs[n].pid != 0 then [Sent(procs[n].pid, signal)] else []
  }

  lemma {:induction false} ForwardedReaches(procs: seq<Proc>, signal: int)
    ensures forall x | x in Forwarded(procs, signal) ::
              x.signal == signal && exists i | 0 <= i < |procs| :: procs[i].pid == x.leader != 0
    ensures forall i | 0 <= i < |procs| && procs[i].pid != 0 :: Sent(procs[i].pid, signal) in Forwarded(procs, signal)
  {
    if procs != [] {
      var n := |procs| - 1;
      var rest := Forwarded(procs[..n], signal);
      ForwardedReaches(procs[..n], signal);
      forall x | x in rest ensures exists i | 0 <= i < |procs| :: procs[i].pid == x.leader != 0 {
        var i :| 0 <= i < n && procs[..n][i].pid == x.leader != 0;
        assert procs[i].pid == x.leader;
      }
    }
  }

  lemma {:induction false} ForwardedNone(signal: int)
    ensures Forwarded([], signal) == []
  {
  }

  lemma {:induction false} ForwardedNext(procs: seq<Proc>, i: nat, signal: int)
    requires i < |procs|
    ensures Forwarded(procs[..i + 1], signal) ==
            Forwarded(procs[..i], signal) + if procs[i].pid != 0 then [Sent(procs[i].pid, signal)] else []
  {
    assert procs[..i + 1][..i] == procs[..i];
  }

  function Forward(g: Guest, signal: int): Guest {
    StopTimers(g).(sent := g.sent + Forwarded(g.procs, signal))
  }

  function Stop(g: Guest, signal: int): Guest {
    Forward(g.(stopping := true), signal)
  }

  /** Where one reaped exit goes: to the exec that waits for the pid, to the process that runs as it, or nowhere. */
  function Route(g: Guest, d: Death, oom: bool): Guest {
    if d.pid in g.waiters then
      g.(waiters := g.waiters - {d.pid}, answered := g.answered + [(g.waiters[d.pid], d.exit)])
    else match ByPid(g.procs, d.pid)
      case None => g
      case Some(i) =>
        var h := Edit(g, i, g.procs[i].(pid := 0));
        if oom then Release(Send(h, d.pid, SIGKILL), i) else Exited(h, i, d.pid, d.exit, d.healthy)
  }

  /** A batch of reaped children so far: the guest, whether the memory bound was hit, and whether a process was among
      them. */
  datatype Batch = Batch(g: Guest, oom: bool, reaped: bool)

  function Reap(b: Batch, d: Death): Batch {
    var oom := b.oom || (d.exit.signal == SIGKILL && d.hit);
    var ours := d.pid !in b.g.waiters && ByPid(b.g.procs, d.pid).Some?;
    Batch(Route(b.g, d, oom), oom, b.reaped || ours)
  }

  function ReapAll(g: Guest, deaths: seq<Death>): Batch {
    if deaths == [] then Batch(g, false, false)
    else Reap(ReapAll(g, deaths[..|deaths| - 1]), deaths[|deaths| - 1])
  }

  /** A batch in which the memory bound was hit ends every start again; the guest stays up until it is told to stop. */
  function Closed(b: Batch): Guest {
    if b.oom then StopTimers(b.g).(oom := true) else b.g
  }

  function Spawned(g: Guest, pid: nat): Guest {
    g.(waiters := g.waiters[pid := g.execs], execs := g.execs + 1)
  }

  /** A signal by pid is passed on only for a pid the guest tracks. */
  predicate Tracks(g: Guest, pid: int) {
    pid > 0 && (ByPid(g.procs, pid).Some? || pid in g.waiters)
  }
}
