/** Freezes, forced stops, thaws and the hosts that replace each other meanwhile, as one machine over their atomic
    steps. */
module Freeze {

  import opened Common

  /** Where the one freeze or forced stop that has the lock stands. While it is `Freezing` it has the guest's goroutine
      too, so no attach and no child start runs then. */
  datatype Freezer = Idle | Freezing(conn: Conn) | Held(conn: Conn) | Undo | Undone

  /** `bound` says the processes are frozen and `flag` that a verb is marked for it. `epoch` numbers the freezes, and
      `knows` is the one the attached host got done for or read in its replay. `thawing` are the thaws past their ioctl
      with the flag still to clear, and `trapped` says a child was started into a frozen bound. */
  datatype State = State(flag: bool, bound: bool, control: Option<Conn>, epoch: nat, knows: nat, freezer: Freezer,
                         thawing: set<Conn>,
                         trapped: bool)

  const INIT := State(false, false, None, 0, 0, Idle, {}, false)

  datatype Step =
    | Attach(conn: Conn, wrote: bool)
    | Detach(conn: Conn)
    | HoldIoctl(conn: Conn)
    | HoldFails(thawed: bool)
    | HoldStore
    | Answer(wrote: bool)
    | UndoIoctl
    | UndoStore
    | ThawIoctl(conn: Conn)
    | ThawStore(conn: Conn)
    | Start

  predicate Enabled(s: State, step: Step) {
    match step
    case Attach(_, _) => !s.freezer.Freezing?
    case Detach(_) => true
    case HoldIoctl(_) => s.freezer.Idle?
    case HoldFails(_) => s.freezer.Idle?
    case HoldStore => s.freezer.Freezing?
    case Answer(_) => s.freezer.Held?
    case UndoIoctl => s.freezer.Undo?
    case UndoStore => s.freezer.Undone?
    case ThawIoctl(conn) => conn !in s.thawing
    case ThawStore(conn) => conn in s.thawing
    case Start => !s.freezer.Freezing?
  }

  function Next(s: State, step: Step): State {
    match step
    case Attach(conn, wrote) =>
      // The replay is written before the host is taken, and says Frozen off the flag.
      s.(control := if wrote then Some(conn) else None, knows := if s.flag then s.epoch else 0)
    case Detach(conn) => if s.control == Some(conn) then s.(control := None) else s
    case HoldIoctl(conn) => s.(bound := true, freezer := Freezing(conn))
    case HoldFails(thawed) => s.(bound := s.bound && !thawed)
    case HoldStore =>
      if s.freezer.Freezing? then s.(flag := true, epoch := s.epoch + 1, freezer := Held(s.freezer.conn)) else s
    case Answer(wrote) =>
      if s.freezer.Held? && s.control == Some(s.freezer.conn) && wrote then s.(knows := s.epoch, freezer := Idle)
      else s.(freezer := Undo)
    case UndoIoctl => s.(bound := false, freezer := Undone)
    case UndoStore => s.(flag := false, freezer := Idle)
    case ThawIoctl(conn) => s.(bound := false, thawing := s.thawing + {conn})
    case ThawStore(conn) => s.(flag := false, thawing := s.thawing - {conn})
    case Start => if s.flag then s else s.(trapped := s.trapped || s.bound)
  }

  /** With no freeze or forced stop in progress, a frozen guest is one its attached host was told of. */
  predicate HostKnows(s: State) {
    s.freezer.Idle? && (s.bound || s.flag) && s.control.Some? ==> s.knows == s.epoch > 0
  }

  /** A frozen bound is marked, but for the instant a freeze is about to mark it. */
  predicate Marked(s: State) {
    s.bound ==> s.flag || s.freezer.Freezing?
  }

  ghost predicate Sound(s: State) {
    && HostKnows(s) && Marked(s) && !s.trapped
    && (s.freezer.Undone? ==> !s.bound)
    && (s.freezer.Held? ==> s.epoch > 0)
    && (s.flag ==> s.epoch > 0)
  }

  /** A thaw whose mark clears a freeze that came after its ioctl. */
  predicate Late(s: State, step: Step) {
    step.ThawStore? && step.conn in s.thawing && s.bound && !s.freezer.Freezing?
  }

  lemma StepKeeps(s: State, step: Step)
    requires Sound(s) && Enabled(s, step) && !Late(s, step)
    ensures Sound(Next(s, step))
  {
  }

  function After(s: State, steps: seq<Step>): State
    decreases |steps|
  {
    if steps == [] then s else After(Next(s, steps[0]), steps[1..])
  }

  predicate IsRun(s: State, steps: seq<Step>)
    decreases |steps|
  {
    steps == [] || (Enabled(s, steps[0]) && IsRun(Next(s, steps[0]), steps[1..]))
  }

  predicate NoneLate(s: State, steps: seq<Step>)
    decreases |steps|
  {
    steps == [] || (!Late(s, steps[0]) && NoneLate(Next(s, steps[0]), steps[1..]))
  }

  /** Over every run in which no freeze overtakes a thaw, the attached host knows of the freeze and no child starts into
      it. */
  lemma {:induction false} RunsAreSound(s: State, steps: seq<Step>)
    requires Sound(s) && IsRun(s, steps) && NoneLate(s, steps)
    ensures Sound(After(s, steps))
    decreases |steps|
  {
    if steps != [] {
      StepKeeps(s, steps[0]);
      RunsAreSound(Next(s, steps[0]), steps[1..]);
    }
  }

  /** And one late thaw is enough: in every such state the next start is trapped and the next host reads a frozen guest
      as running. */
  lemma LateBreaks(s: State, conn: Conn, host: Conn)
    requires Sound(s) && Late(s, ThawStore(conn))
    ensures var t := Next(s, ThawStore(conn));
            && Enabled(t, Start) && Next(t, Start).trapped
            && (s.freezer.Idle? ==> Enabled(t, Attach(host, true)) && !HostKnows(Next(t, Attach(host, true))))
  {
  }

  /** Whoever asks can rule it out: a freeze is asked for only with every thaw answered. */
  predicate Orderly(s: State, steps: seq<Step>)
    decreases |steps|
  {
    steps == [] || ((steps[0].HoldIoctl? ==> s.thawing == {}) && Orderly(Next(s, steps[0]), steps[1..]))
  }

  /** The guarantees, and no thaw under way that a freeze overtook. */
  ghost predicate Good(s: State) {
    Sound(s) && (s.thawing != {} ==> !s.bound)
  }

  /** Every step but a freeze asked for with a thaw unanswered leaves the next freeze to decide. */
  lemma OrderlyStepKeeps(s: State, step: Step)
    requires Good(s) && Enabled(s, step) && (step.HoldIoctl? ==> s.thawing == {})
    ensures !Late(s, step) && Good(Next(s, step))
  {
    StepKeeps(s, step);
    assert Next(s, step).thawing <= s.thawing || step.ThawIoctl?;
  }

  lemma {:induction false} OrderlyRunsAreSound(s: State, steps: seq<Step>)
    requires Good(s) && IsRun(s, steps) && Orderly(s, steps)
    ensures Good(After(s, steps)) && NoneLate(s, steps)
    decreases |steps|
  {
    if steps != [] {
      OrderlyStepKeeps(s, steps[0]);
      OrderlyRunsAreSound(Next(s, steps[0]), steps[1..]);
    }
  }

  predicate NoFreeze(steps: seq<Step>) {
    forall step | step in steps :: !step.HoldIoctl?
  }

  /** However the steps already under way go on from here, with no more freezes asked for, the guarantees hold. */
  ghost predicate SafeFrom(s: State) {
    forall rest | IsRun(s, rest) && NoFreeze(rest) :: Sound(After(s, rest))
  }

  /** The run is safe at each of its states. */
  ghost predicate SafeAlong(s: State, steps: seq<Step>)
    decreases |steps|
  {
    SafeFrom(s) && (steps == [] || SafeAlong(Next(s, steps[0]), steps[1..]))
  }

  lemma {:induction false} NoFreezeIsOrderly(s: State, steps: seq<Step>)
    requires NoFreeze(steps)
    ensures Orderly(s, steps)
    decreases |steps|
  {
    if steps != [] {
      assert steps[0] in steps;
      NoFreezeIsOrderly(Next(s, steps[0]), steps[1..]);
    }
  }

  lemma GoodIsSafe(s: State)
    requires Good(s)
    ensures SafeFrom(s)
  {
    forall rest | IsRun(s, rest) && NoFreeze(rest) ensures Sound(After(s, rest)) {
      NoFreezeIsOrderly(s, rest);
      OrderlyRunsAreSound(s, rest);
    }
  }

  lemma {:induction false} OneStep(s: State, a: Step)
    ensures IsRun(s, [a]) <==> Enabled(s, a)
    ensures After(s, [a]) == Next(s, a)
  {
    assert [a][1..] == [];
  }

  lemma {:induction false} TwoSteps(s: State, a: Step, b: Step)
    ensures IsRun(s, [a, b]) <==> Enabled(s, a) && Enabled(Next(s, a), b)
    ensures After(s, [a, b]) == Next(Next(s, a), b)
  {
    hide Next, Enabled;
    assert [a, b][1..] == [b];
    OneStep(Next(s, a), b);
  }

  /** A freeze asked for while a thaw is unanswered is unsafe in every state: the thaw's mark may come last. */
  lemma FreezeOverThawIsUnsafe(s: State, conn: Conn, thaw: Conn)
    requires s.freezer.Idle? && thaw in s.thawing
    ensures !SafeFrom(Next(s, HoldIoctl(conn)))
  {
    var t := Next(s, HoldIoctl(conn));
    var rest := [HoldStore, ThawStore(thaw)];
    TwoSteps(t, HoldStore, ThawStore(thaw));
    assert IsRun(t, rest) && NoFreeze(rest) && !Marked(After(t, rest));
  }

  /** The rule a host can follow is exactly the safe one: a run is safe at each of its states if and only if every
      freeze in it was asked for with every thaw answered. */
  lemma {:induction false} OrderlyIsExactlySafe(s: State, steps: seq<Step>)
    requires Good(s) && IsRun(s, steps)
    ensures SafeAlong(s, steps) <==> Orderly(s, steps)
    decreases |steps|
  {
    hide SafeFrom;
    GoodIsSafe(s);
    if steps != [] {
      if steps[0].HoldIoctl? && s.thawing != {} {
        var thaw :| thaw in s.thawing;
        FreezeOverThawIsUnsafe(s, steps[0].conn, thaw);
      } else {
        OrderlyStepKeeps(s, steps[0]);
        OrderlyIsExactlySafe(Next(s, steps[0]), steps[1..]);
      }
    }
  }

  /** The race is real: host 1 thaws, host 2 takes over and freezes between the ioctl and the mark, and then a child
      starts into the frozen bound and host 3 reads it as running. */
  const RACE :=
    [Attach(1, true), HoldIoctl(1), HoldStore, Answer(true), ThawIoctl(1), Attach(2, true),
     HoldIoctl(2), HoldStore, Answer(true), ThawStore(1), Start, Attach(3, true)]

  /** Halfway: host 1 thawed and has not marked it, and host 2 is attached. */
  const MIDWAY := State(true, false, Some(2), 1, 1, Idle, {1}, false)

  lemma RaceIsReal()
    ensures IsRun(INIT, RACE) && Sound(INIT)
    ensures var t := After(INIT, RACE); t.trapped && !HostKnows(t)
  {
    hide After, IsRun;
    FirstHalf();
    SecondHalf();
    assert RACE[0..] == RACE;
  }

  lemma {:induction false} FirstHalf()
    ensures After(INIT, RACE[0..]) == After(MIDWAY, RACE[6..])
    ensures IsRun(INIT, RACE[0..]) <==> IsRun(MIDWAY, RACE[6..])
  {
    hide After, IsRun;
    var s1 := Next(INIT, RACE[0]);
    var s2 := Next(s1, RACE[1]);
    var s3 := Next(s2, RACE[2]);
    var s4 := Next(s3, RACE[3]);
    var s5 := Next(s4, RACE[4]);
    Unfold(INIT, 0); Unfold(s1, 1); Unfold(s2, 2); Unfold(s3, 3); Unfold(s4, 4); Unfold(s5, 5);
    assert Next(s5, RACE[5]) == MIDWAY;
  }

  lemma {:induction false} SecondHalf()
    ensures IsRun(MIDWAY, RACE[6..])
    ensures var t := After(MIDWAY, RACE[6..]); t.trapped && !HostKnows(t)
  {
    hide After, IsRun;
    var s7 := Next(MIDWAY, RACE[6]);
    var s8 := Next(s7, RACE[7]);
    var s9 := Next(s8, RACE[8]);
    var s10 := Next(s9, RACE[9]);
    var s11 := Next(s10, RACE[10]);
    var s12 := Next(s11, RACE[11]);
    assert RACE[12..] == [];
    Ended(s12);
    Unfold(s11, 11); Unfold(s10, 10); Unfold(s9, 9); Unfold(s8, 8); Unfold(s7, 7); Unfold(MIDWAY, 6);
  }

  lemma {:induction false} Ended(s: State)
    ensures After(s, []) == s && IsRun(s, [])
  {
  }

  lemma {:induction false} Unfold(s: State, k: nat)
    requires k < |RACE|
    ensures After(s, RACE[k..]) == After(Next(s, RACE[k]), RACE[k + 1..])
    ensures IsRun(s, RACE[k..]) <==> Enabled(s, RACE[k]) && IsRun(Next(s, RACE[k]), RACE[k + 1..])
  {
    assert RACE[k..][1..] == RACE[k + 1..];
  }
}
