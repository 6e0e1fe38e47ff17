/** What every operation of the guest keeps, with the kernel's view of which pid is whose beside it. */
module GuestInvariant {

  import opened Common
  import opened Restart
  import opened Guest

  /** Whose an unreaped pid is: the run of a named process, an exec, or something the guest never started. */
  datatype Owner = NamedRun(run: nat) | Exec(exec: nat) | Stranger

  type Kernel = map<nat, Owner>

  /** At most sixteen entries, one per name, and no fork behind two of them. */
  ghost predicate TableOk(procs: seq<Proc>) {
    && |procs| <= MAX_PROCESSES
    && (forall i, j | 0 <= i < j < |procs| :: procs[i].name != procs[j].name)
    && (forall i, j | 0 <= i < j < |procs| :: procs[i].run != procs[j].run)
  }

  // Retries.

  /** The starts again since the last healthy exit. */
  function Streak(life: seq<Life>): nat {
    if life == [] then 0
    else match life[|life| - 1]
      case StartedAgain => Streak(life[..|life| - 1]) + 1
      case ShortExit => Streak(life[..|life| - 1])
      case HealthyExit => 0
  }

  function Starts(life: seq<Life>): nat {
    if life == [] then 0
    else Starts(life[..|life| - 1]) + (if life[|life| - 1].StartedAgain? then 1 else 0)
  }

  ghost predicate StreaksWithin(life: seq<Life>, n: int) {
    forall k | 0 <= k <= |life| :: Streak(life[..k]) <= n
  }

  ghost predicate RetriesOk(p: Proc) {
    && p.count == Streak(p.life)
    && (p.restart.Limited() ==>
          StreaksWithin(p.life, p.restart.retries) && (p.state.Restarting? ==> p.count < p.restart.retries))
  }

  /** In any stretch of a process's life with no healthy exit, at most `n` starts again. */
  ghost predicate RetriesBounded(life: seq<Life>, n: int) {
    forall i, j | 0 <= i <= j <= |life| && HealthyExit !in life[i..j] :: Starts(life[i..j]) <= n
  }

  lemma {:induction false} StartsWithinStreak(life: seq<Life>, i: nat, j: nat)
    requires i <= j <= |life| && HealthyExit !in life[i..j]
    ensures Starts(life[i..j]) <= Streak(life[..j])
    decreases j
  {
    if i < j {
      assert life[i..j][..j - i - 1] == life[i..j - 1];
      assert life[i..j][j - i - 1] == life[j - 1];
      assert life[..j][..j - 1] == life[..j - 1];
      StartsWithinStreak(life, i, j - 1);
    }
  }

  lemma StreaksBoundRetries(life: seq<Life>, n: int)
    requires StreaksWithin(life, n)
    ensures RetriesBounded(life, n)
  {
    forall i, j | 0 <= i <= j <= |life| && HealthyExit !in life[i..j] ensures Starts(life[i..j]) <= n {
      StartsWithinStreak(life, i, j);
    }
  }

  lemma {:induction false} StreakGrows(life: seq<Life>, l: Life, n: int)
    requires StreaksWithin(life, n) && Streak(life + [l]) <= n
    ensures StreaksWithin(life + [l], n)
  {
    var longer := life + [l];
    forall k | 0 <= k <= |longer| ensures Streak(longer[..k]) <= n {
      if k <= |life| {
        assert longer[..k] == life[..k];
      } else {
        assert longer[..k] == longer;
      }
    }
  }

  lemma {:induction false} StreakOf(life: seq<Life>, l: Life)
    ensures Streak(life + [l]) ==
            match l case StartedAgain => Streak(life) + 1 case ShortExit => Streak(life) case HealthyExit => 0
  {
    assert (life + [l])[..|life|] == life;
  }

  // Entries.

  /** A process that does not run has no pid and nobody waits for it; one that runs has a pid, unless the memory bound
      took it. */
  ghost predicate EntryOk(p: Proc, gens: nat, stamp: nat, runs: nat, spent: bool) {
    && p.restart.Valid() && 1 <= p.gen <= gens && 1 <= p.stamp <= stamp && p.run < runs
    && (!p.state.Running? ==> p.pid == 0)
    && (p.state.Running? && p.pid == 0 ==> spent)
    && (p.pid == 0 ==> p.reaped == [])
    && (p.reaped != [] ==> p.stopping)
    && RetriesOk(p)
  }

  ghost predicate EntriesOk(procs: seq<Proc>, gens: nat, stamp: nat, runs: nat, spent: bool) {
    forall i | 0 <= i < |procs| :: EntryOk(procs[i], gens, stamp, runs, spent)
  }

  // Timers.

  /** At most one timer of `p` is not stale: a start again only while it restarts, a kill only while a stop is in
      flight. */
  ghost predicate TimerOk(p: Proc, pending: multiset<Due>, hit: bool) {
    && pending[Due(p.name, p.gen, false)] + pending[Due(p.name, p.gen, true)] <= 1
    && (Due(p.name, p.gen, false) in pending ==> p.state.Restarting?)
    && (Due(p.name, p.gen, true) in pending ==> p.state.Running? && p.stopping && (p.pid != 0 || hit))
  }

  ghost predicate TimersOk(procs: seq<Proc>, gens: nat, pending: multiset<Due>, hit: bool) {
    && (forall d | d in pending :: d.gen <= gens)
    && (forall i | 0 <= i < |procs| :: TimerOk(procs[i], pending, hit))
  }

  // Pids.

  /** Every pid the guest tracks is unreaped and is what the guest takes it for, and every child it started is tracked.
      */
  ghost predicate KernelOk(procs: seq<Proc>, waiters: map<nat, nat>, kernel: Kernel) {
    && 0 !in kernel
    && (forall i | 0 <= i < |procs| && procs[i].pid != 0 ::
          procs[i].pid in kernel && kernel[procs[i].pid] == NamedRun(procs[i].run))
    && (forall pid | pid in waiters :: pid in kernel && kernel[pid] == Exec(waiters[pid]))
    && (forall pid | pid in kernel && kernel[pid].NamedRun? :: exists i | 0 <= i < |procs| :: procs[i].pid == pid)
    && (forall pid | pid in kernel && kernel[pid].Exec? :: pid in waiters)
  }

  // Execs.

  function Answers(answered: seq<(nat, Exit)>, e: nat): nat {
    if answered == [] then 0
    else Answers(answered[..|answered| - 1], e) + (if answered[|answered| - 1].0 == e then 1 else 0)
  }

  ghost predicate Waiting(waiters: map<nat, nat>, e: nat) {
    exists pid | pid in waiters :: waiters[pid] == e
  }

  /** Each exec is either waited for under one pid and unanswered, or answered exactly once. */
  ghost predicate ExecsOk(waiters: map<nat, nat>, execs: nat, answered: seq<(nat, Exit)>) {
    && (forall p, q | p in waiters && q in waiters && waiters[p] == waiters[q] :: p == q)
    && (forall p | p in waiters :: waiters[p] < execs)
    && (forall e: nat :: Answers(answered, e) == if e < execs && !Waiting(waiters, e) then 1 else 0)
  }

  // Stop requests.

  function Held(procs: seq<Proc>, id: nat): nat {
    if procs == [] then 0 else Held(procs[..|procs| - 1], id) + multiset(procs[|procs| - 1].reaped)[id]
  }

  /** Each stop request is either released exactly once or waits, once, at exactly one entry. */
  ghost predicate StopsOk(procs: seq<Proc>, issued: nat, released: multiset<nat>) {
    forall id: nat :: released[id] + Held(procs, id) == if id < issued then 1 else 0
  }

  // Reports.

  function Statuses(emitted: seq<Emit>): seq<Report> {
    if emitted == [] then []
    else match emitted[|emitted| - 1]
      case Keep(_) => Statuses(emitted[..|emitted| - 1])
      case Status(r) => Statuses(emitted[..|emitted| - 1]) + [r]
  }

  function LastKept(emitted: seq<Emit>): seq<string> {
    if emitted == [] then []
    else match emitted[|emitted| - 1]
      case Keep(names) => names
      case Status(_) => LastKept(emitted[..|emitted| - 1])
  }

  /** Statuses are numbered 1, 2, 3 and so on; each entry's last one says where it stands, and the last kept names are
      the table's. */
  ghost predicate EmitsOk(procs: seq<Proc>, stamp: nat, emitted: seq<Emit>) {
    && |Statuses(emitted)| == stamp && OnRecord(procs, Statuses(emitted)) && LastKept(emitted) == Names(procs)
    && WellTold(emitted)
  }

  /** Each status has the next number, and is of a name kept at that point. */
  ghost predicate WellTold(emitted: seq<Emit>) {
    forall k | 0 <= k < |emitted| && emitted[k].Status? ::
      emitted[k].report.stamp == |Statuses(emitted[..k])| + 1 && emitted[k].report.name in LastKept(emitted[..k])
  }

  lemma {:induction false} WellToldOn(emitted: seq<Emit>, e: Emit)
    requires WellTold(emitted)
    requires e.Status? ==> e.report.stamp == |Statuses(emitted)| + 1 && e.report.name in LastKept(emitted)
    ensures WellTold(emitted + [e])
  {
    var all := emitted + [e];
    forall k | 0 <= k < |all| && all[k].Status?
      ensures all[k].report.stamp == |Statuses(all[..k])| + 1 && all[k].report.name in LastKept(all[..k]) {
      assert all[..k] == emitted[..k];
      assert emitted[..|emitted|] == emitted;
    }
  }

  ghost predicate OnRecord(procs: seq<Proc>, s: seq<Report>) {
    && (forall k | 0 <= k < |s| :: s[k].stamp == k + 1)
    && (forall j | 0 <= j < |procs| :: 1 <= procs[j].stamp <= |s| && s[procs[j].stamp - 1] == ReportOf(procs[j]))
  }

  ghost predicate Inv(g: Guest, kernel: Kernel, hit: bool) {
    && TableOk(g.procs)
    && EntriesOk(g.procs, g.gens, g.stamp, g.runs, g.oom || hit)
    && TimersOk(g.procs, g.gens, g.pending, hit)
    && KernelOk(g.procs, g.waiters, kernel)
    && ExecsOk(g.waiters, g.execs, g.answered)
    && StopsOk(g.procs, g.issued, g.released)
    && EmitsOk(g.procs, g.stamp, g.emitted)
  }

  // One entry changes.

  lemma TableEdit(procs: seq<Proc>, i: nat, q: Proc)
    requires TableOk(procs) && i < |procs| && q.name == procs[i].name
    requires q.run == procs[i].run || forall j | 0 <= j < |procs| :: procs[j].run != q.run
    ensures TableOk(procs[i := q])
  {
  }

  lemma EntriesEdit(procs: seq<Proc>, i: nat, q: Proc, gens: nat, stamp: nat, runs: nat, spent: bool, gens': nat,
                    stamp': nat, runs': nat)
    requires EntriesOk(procs, gens, stamp, runs, spent) && i < |procs|
    requires gens <= gens' && stamp <= stamp' && runs <= runs' && EntryOk(q, gens', stamp', runs', spent)
    ensures EntriesOk(procs[i := q], gens', stamp', runs', spent)
  {
    hide RetriesOk;
  }

  /** A fresh generation makes every timer armed before stale. */
  lemma TimersFresh(procs: seq<Proc>, i: nat, q: Proc, gens: nat, pending: multiset<Due>, hit: bool)
    requires TableOk(procs) && TimersOk(procs, gens, pending, hit) && i < |procs| && q.name == procs[i].name
             && q.gen == gens + 1
    ensures TimersOk(procs[i := q], gens + 1, pending, hit)
    ensures q.state.Restarting? ==>
              TimersOk(procs[i := q], gens + 1, pending + multiset{Due(q.name, q.gen, false)}, hit)
    ensures q.state.Running? && q.stopping && q.pid != 0 ==>
              TimersOk(procs[i := q], gens + 1, pending + multiset{Due(q.name, q.gen, true)}, hit)
  {
  }

  lemma KernelEdit(procs: seq<Proc>, i: nat, q: Proc, waiters: map<nat, nat>, kernel: Kernel)
    requires KernelOk(procs, waiters, kernel) && i < |procs| && q.pid == procs[i].pid && q.run == procs[i].run
    ensures KernelOk(procs[i := q], waiters, kernel)
  {
    var r := procs[i := q];
    forall pid | pid in kernel && kernel[pid].NamedRun? ensures exists j | 0 <= j < |r| :: r[j].pid == pid {
      var j :| 0 <= j < |procs| && procs[j].pid == pid;
      assert r[j].pid == pid;
    }
  }

  lemma {:induction false} HeldEdit(procs: seq<Proc>, i: nat, q: Proc, id: nat)
    requires i < |procs|
    ensures Held(procs[i := q], id) == Held(procs, id) - multiset(procs[i].reaped)[id] + multiset(q.reaped)[id]
  {
    var n := |procs| - 1;
    if i == n {
      assert procs[i := q][..n] == procs[..n];
    } else {
      assert procs[i := q][..n] == procs[..n][i := q];
      HeldEdit(procs[..n], i, q, id);
    }
  }

  /** The requests an entry held are released, and nothing else about them changes. */
  lemma StopsReleased(procs: seq<Proc>, i: nat, q: Proc, issued: nat, released: multiset<nat>)
    requires StopsOk(procs, issued, released) && i < |procs| && q.reaped == []
    ensures StopsOk(procs[i := q], issued, released + multiset(procs[i].reaped))
  {
    forall id: nat
      ensures (released + multiset(procs[i].reaped))[id] + Held(procs[i := q], id) == if id < issued then 1 else 0 {
      HeldEdit(procs, i, q, id);
    }
  }

  lemma StopsEdit(procs: seq<Proc>, i: nat, q: Proc, issued: nat, released: multiset<nat>)
    requires StopsOk(procs, issued, released) && i < |procs| && q.reaped == procs[i].reaped
    ensures StopsOk(procs[i := q], issued, released)
  {
    forall id: nat ensures released[id] + Held(procs[i := q], id) == if id < issued then 1 else 0 {
      HeldEdit(procs, i, q, id);
    }
  }

  lemma {:induction false} StatusesOf(emitted: seq<Emit>, e: Emit)
    ensures Statuses(emitted + [e]) == if e.Status? then Statuses(emitted) + [e.report] else Statuses(emitted)
    ensures LastKept(emitted + [e]) == if e.Keep? then e.names else LastKept(emitted)
  {
    assert (emitted + [e])[..|emitted|] == emitted;
  }

  lemma EmitsSettle(procs: seq<Proc>, i: nat, q: Proc, stamp: nat, emitted: seq<Emit>)
    requires EmitsOk(procs, stamp, emitted) && i < |procs| && q.name == procs[i].name && q.stamp == stamp + 1
    ensures EmitsOk(procs[i := q], stamp + 1, emitted + [Status(ReportOf(q))])
  {
    StatusesOf(emitted, Status(ReportOf(q)));
    assert Names(procs[i := q]) == Names(procs);
    assert Names(procs)[i] == q.name;
    WellToldOn(emitted, Status(ReportOf(q)));
  }

  lemma EmitsEdit(procs: seq<Proc>, i: nat, q: Proc, stamp: nat, emitted: seq<Emit>)
    requires EmitsOk(procs, stamp, emitted) && i < |procs| && ReportOf(q) == ReportOf(procs[i])
    ensures EmitsOk(procs[i := q], stamp, emitted)
  {
    assert Names(procs[i := q]) == Names(procs);
  }
}
