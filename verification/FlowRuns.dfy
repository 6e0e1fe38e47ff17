/** All flows of a stack at once, each at any step of its way, while links are made and closed. */
module FlowRuns {

  import opened Flows

  /** Where an admitted flow stands: it dials, its splice runs, it is over with its share still to give back, a listener
      serves it, or it is gone. */
  datatype Stage = Dialing | Splicing | Leaving | Serving | Gone

  datatype Flow = Flow(link: nat, stage: Stage)

  /** Where the close of a link stands, with the sides it has still to end. */
  datatype Closing = Open | Ending(left: set<Side>) | Returned

  datatype State = State(net: Net, flows: seq<Flow>, closes: seq<Closing>)

  const INIT := State(Net(0, []), [], [])

  datatype Step =
    | NewLink
    | Enter(link: nat, served: bool)
    | Drop(flow: nat)
    | Track(flow: nat)
    | Finish(flow: nat)
    | GiveBack(flow: nat)
    | BeginClose(link: nat)
    | EndSide(link: nat, side: Side)
    | ReturnClose(link: nat)

  predicate At(s: State, f: nat, stage: Stage) {
    f < |s.flows| && s.flows[f].link < |s.net.links| && s.flows[f].stage == stage
  }

  /** `GiveBack` of a flow a listener serves is its first close; a later close is not a step. */
  predicate Enabled(s: State, step: Step) {
    match step
    case NewLink => true
    case Enter(i, _) => i < |s.net.links|
    case Drop(f) => At(s, f, Dialing)
    case Track(f) => At(s, f, Dialing)
    case Finish(f) => At(s, f, Splicing)
    case GiveBack(f) => At(s, f, Leaving) || At(s, f, Serving)
    case BeginClose(i) => i < |s.net.links| && i < |s.closes| && s.closes[i].Open?
    case EndSide(i, side) => i < |s.closes| && s.closes[i].Ending? && side in s.closes[i].left
    case ReturnClose(i) =>
      i < |s.net.links| && i < |s.closes| && s.closes[i].Ending? && s.closes[i].left == {}
      && s.net.links[i].splices == 0
  }

  function Move(s: State, f: nat, stage: Stage): State
    requires f < |s.flows|
  {
    s.(flows := s.flows[f := s.flows[f].(stage := stage)])
  }

  function Next(s: State, step: Step): State
    requires Enabled(s, step)
  {
    match step
    case NewLink => s.(net := s.net.(links := s.net.links + [NEW_LINK]), closes := s.closes + [Open])
    case Enter(i, served) =>
      if !HasRoom(s.net, i) then s
      else s.(net := Admitted(s.net, i), flows := s.flows + [Flow(i, if served then Serving else Dialing)])
    case Drop(f) => Move(s, f, Leaving)
    case Track(f) =>
      var i := s.flows[f].link;
      Move(s, f, if s.net.links[i].closing then Leaving else Splicing).(net := Tracked(s.net, i, f))
    case Finish(f) => Move(s, f, Leaving).(net := Untracked(s.net, s.flows[f].link, f))
    case GiveBack(f) => Move(s, f, Gone).(net := Released(s.net, s.flows[f].link))
    case BeginClose(i) =>
      var l := s.net.links[i];
      s.(net := Put(s.net, i, l.(closing := true)), closes := s.closes[i := Ending(l.flows)])
    case EndSide(i, side) => s.(closes := s.closes[i := Ending(s.closes[i].left - {side})])
    case ReturnClose(i) => s.(closes := s.closes[i := Returned])
  }

  // Counting.

  /** The flows of a link that are in one of the stages. */
  function Count(flows: seq<Flow>, link: nat, stages: set<Stage>): nat {
    if flows == [] then 0
    else
      var last := flows[|flows| - 1];
      Count(flows[..|flows| - 1], link, stages) + if last.link == link && last.stage in stages then 1 else 0
  }

  function One(f: Flow, link: nat, stages: set<Stage>): nat {
    if f.link == link && f.stage in stages then 1 else 0
  }

  lemma {:induction false} CountEdit(flows: seq<Flow>, k: nat, f: Flow, link: nat, stages: set<Stage>)
    requires k < |flows|
    ensures Count(flows[k := f], link, stages) ==
              Count(flows, link, stages) - One(flows[k], link, stages) + One(f, link, stages)
    ensures One(flows[k], link, stages) <= Count(flows, link, stages)
  {
    var n := |flows| - 1;
    if k == n {
      assert flows[k := f][..n] == flows[..n];
    } else {
      assert flows[k := f][..n] == flows[..n][k := f];
      CountEdit(flows[..n], k, f, link, stages);
    }
  }

  lemma {:induction false} CountOn(flows: seq<Flow>, f: Flow, link: nat, stages: set<Stage>)
    ensures Count(flows + [f], link, stages) == Count(flows, link, stages) + One(f, link, stages)
  {
    assert (flows + [f])[..|flows|] == flows;
  }

  lemma {:induction false} CountZero(flows: seq<Flow>, link: nat, stages: set<Stage>)
    ensures Count(flows, link, stages) == 0 <==>
              forall k | 0 <= k < |flows| :: !(flows[k].link == link && flows[k].stage in stages)
  {
    if flows != [] {
      var n := |flows| - 1;
      CountZero(flows[..n], link, stages);
      if forall k | 0 <= k < |flows| :: !(flows[k].link == link && flows[k].stage in stages) {
        assert forall k | 0 <= k < n :: flows[..n][k] == flows[k];
      }
    }
  }

  const LIVE: set<Stage> := {Dialing, Splicing, Leaving, Serving}
  const SPLICED: set<Stage> := {Splicing}

  function Sum(links: seq<Link>): int {
    if links == [] then 0 else Sum(links[..|links| - 1]) + links[|links| - 1].active
  }

  lemma {:induction false} SumEdit(links: seq<Link>, i: nat, l: Link)
    requires i < |links|
    ensures Sum(links[i := l]) == Sum(links) - links[i].active + l.active
  {
    var n := |links| - 1;
    if i == n {
      assert links[i := l][..n] == links[..n];
    } else {
      assert links[i := l][..n] == links[..n][i := l];
      SumEdit(links[..n], i, l);
    }
  }

  // What every step keeps.

  /** A link counts its admitted flows that have not given their share back, and the splices that run; it tracks exactly
      their sides. */
  ghost predicate LinkOk(s: State, i: nat)
    requires i < |s.net.links| && i < |s.closes|
  {
    var l := s.net.links[i];
    && l.active == Count(s.flows, i, LIVE) <= MAX_LINK_FLOWS
    && l.splices == Count(s.flows, i, SPLICED)
    && (forall side: Side :: side in l.flows <==> side.flow < |s.flows| && s.flows[side.flow] == Flow(i, Splicing))
    && (l.closing <==> !s.closes[i].Open?)
    && (s.closes[i].Returned? ==> l.splices == 0)
  }

  ghost predicate Inv(s: State) {
    && |s.closes| == |s.net.links|
    && (forall f | 0 <= f < |s.flows| :: s.flows[f].link < |s.net.links|)
    && (forall i | 0 <= i < |s.net.links| :: LinkOk(s, i))
    && s.net.active == Sum(s.net.links) <= MAX_STACK_FLOWS
  }

  lemma InitInv()
    ensures Inv(INIT)
  {
  }

  /** A flow moves on, and its link with it: every other link counts as before. */
  lemma OthersKeep(s: State, t: State, f: nat)
    requires Inv(s) && f < |s.flows| == |t.flows| && t.flows == s.flows[f := t.flows[f]]
             && t.flows[f].link == s.flows[f].link
    requires |t.net.links| == |s.net.links| && t.closes == s.closes
    requires forall j | 0 <= j < |s.net.links| && j != s.flows[f].link :: t.net.links[j] == s.net.links[j]
    ensures forall j | 0 <= j < |s.net.links| && j != s.flows[f].link :: LinkOk(t, j)
  {
    forall j | 0 <= j < |s.net.links| && j != s.flows[f].link ensures LinkOk(t, j) {
      assert LinkOk(s, j);
      CountEdit(s.flows, f, t.flows[f], j, LIVE);
      CountEdit(s.flows, f, t.flows[f], j, SPLICED);
    }
  }

  lemma MoveKeeps(s: State, t: State, f: nat)
    requires Inv(s) && f < |s.flows| == |t.flows| && |t.net.links| == |s.net.links|
    requires t == Move(s, f, t.flows[f].stage).(net := t.net)
    requires var i := s.flows[f].link;
             && t.net.links == s.net.links[i := t.net.links[i]]
             && var a, b, was, now := s.net.links[i], t.net.links[i], s.flows[f].stage, t.flows[f].stage;
                && b.closing == a.closing
                && b.active == a.active + (if now in LIVE then 1 else 0) - (if was in LIVE then 1 else 0) <= a.active
                && t.net.active == s.net.active + b.active - a.active
                && b.splices == a.splices + (if now.Splicing? then 1 else 0) - (if was.Splicing? then 1 else 0)
                && b.flows ==
                  (if now.Splicing? then a.flows + {Side(f, false), Side(f, true)}
                   else a.flows - {Side(f, false), Side(f, true)})
                && (now.Splicing? ==> !a.closing)
    ensures Inv(t)
  {
    var i := s.flows[f].link;
    OthersKeep(s, t, f);
    assert LinkOk(s, i);
    CountEdit(s.flows, f, t.flows[f], i, LIVE);
    CountEdit(s.flows, f, t.flows[f], i, SPLICED);
    SumEdit(s.net.links, i, t.net.links[i]);
    assert LinkOk(t, i) by {
      forall side: Side
        ensures side in t.net.links[i].flows <==> side.flow < |t.flows| && t.flows[side.flow] == Flow(i, Splicing) {
        assert side == Side(side.flow, side.host);
      }
    }
  }

  lemma EnterKeeps(s: State, i: nat, served: bool)
    requires Inv(s) && Enabled(s, Enter(i, served)) && HasRoom(s.net, i)
    ensures Inv(Next(s, Enter(i, served)))
  {
    var t := Next(s, Enter(i, served));
    var f := Flow(i, if served then Serving else Dialing);
    SumEdit(s.net.links, i, t.net.links[i]);
    forall j | 0 <= j < |t.net.links| ensures LinkOk(t, j) {
      assert LinkOk(s, j);
      CountOn(s.flows, f, j, LIVE);
      CountOn(s.flows, f, j, SPLICED);
    }
  }

  lemma NewLinkKeeps(s: State)
    requires Inv(s)
    ensures Inv(Next(s, NewLink))
  {
    var t := Next(s, NewLink);
    assert t.net.links[..|s.net.links|] == s.net.links;
    forall j | 0 <= j < |t.net.links| ensures LinkOk(t, j) {
      if j < |s.net.links| {
        assert LinkOk(s, j);
      } else {
        CountZero(s.flows, j, LIVE);
        CountZero(s.flows, j, SPLICED);
      }
    }
  }

  lemma CloseKeeps(s: State, step: Step)
    requires Inv(s) && Enabled(s, step) && (step.BeginClose? || step.EndSide? || step.ReturnClose?)
    ensures Inv(Next(s, step))
  {
    var t := Next(s, step);
    if step.BeginClose? {
      SumEdit(s.net.links, step.link, t.net.links[step.link]);
    }
    forall j | 0 <= j < |t.net.links| ensures LinkOk(t, j) {
      assert LinkOk(s, j);
    }
  }

  lemma NextKeeps(s: State, step: Step)
    requires Inv(s) && Enabled(s, step)
    ensures Inv(Next(s, step))
  {
    var t := Next(s, step);
    match step {
      case NewLink => NewLinkKeeps(s);
      case Enter(i, served) =>
        if HasRoom(s.net, i) {
          EnterKeeps(s, i, served);
        }
      case Drop(f) =>
        NotTracked(s, f);
        MoveKeeps(s, t, f);
      case Track(f) =>
        NotTracked(s, f);
        MoveKeeps(s, t, f);
      case Finish(f) => MoveKeeps(s, t, f);
      case GiveBack(f) =>
        NotTracked(s, f);
        MoveKeeps(s, t, f);
      case _ => CloseKeeps(s, step);
    }
  }

  lemma NotTracked(s: State, f: nat)
    requires Inv(s) && f < |s.flows| && !s.flows[f].stage.Splicing?
    ensures var l := s.net.links[s.flows[f].link];
            Side(f, false) !in l.flows && Side(f, true) !in l.flows
            && l.flows - {Side(f, false), Side(f, true)} == l.flows
  {
    assert LinkOk(s, s.flows[f].link);
  }

  // Whole runs.

  function After(s: State, steps: seq<Step>): State
    requires IsRun(s, steps)
    decreases |steps|
  {
    if steps == [] then s else After(Next(s, steps[0]), steps[1..])
  }

  predicate IsRun(s: State, steps: seq<Step>)
    decreases |steps|
  {
    steps == [] || (Enabled(s, steps[0]) && IsRun(Next(s, steps[0]), steps[1..]))
  }

  /** In every run the stack counts the sum over all links ever made, neither bound is passed, and each count is of
      flows that still owe their share, so each gives it back exactly once. */
  lemma {:induction false} RunsKeep(s: State, steps: seq<Step>)
    requires Inv(s) && IsRun(s, steps)
    ensures Inv(After(s, steps))
    decreases |steps|
  {
    hide Inv, Next, Enabled;
    if steps != [] {
      NextKeeps(s, steps[0]);
      RunsKeep(Next(s, steps[0]), steps[1..]);
    }
  }

  /** The sides a close sets out to end are both sides of every splice of the link, and no later track of the link
      succeeds. */
  lemma CloseEndsEverySplice(s: State, i: nat)
    requires Inv(s) && Enabled(s, BeginClose(i))
    ensures var t := Next(s, BeginClose(i));
            && t.net.links[i].closing
            && forall side: Side ::
                 side in t.closes[i].left <==> side.flow < |s.flows| && s.flows[side.flow] == Flow(i, Splicing)
  {
    assert LinkOk(s, i);
  }

  /** Once its close returned, over every run no splice of the link runs. */
  lemma {:induction false} NothingAfterClose(s: State, steps: seq<Step>, i: nat)
    requires Inv(s) && IsRun(s, steps) && i < |s.closes| && s.closes[i].Returned?
    ensures var t := After(s, steps);
            && i < |t.closes| && t.closes[i].Returned? && i < |t.net.links| && t.net.links[i].closing
            && forall f | 0 <= f < |t.flows| :: t.flows[f] != Flow(i, Splicing)
    decreases |steps|
  {
    if steps == [] {
      assert LinkOk(s, i);
      CountZero(s.flows, i, SPLICED);
    } else {
      NextKeeps(s, steps[0]);
      assert Next(s, steps[0]).closes[i].Returned?;
      hide Inv, Next, Enabled;
      NothingAfterClose(Next(s, steps[0]), steps[1..], i);
    }
  }

  // What a close does not wait for.

  /** The stages in which something of a flow still runs: past them it has only its share to give back. */
  const RUNNING: set<Stage> := {Dialing, Splicing, Serving}
  const UNWAITED: set<Stage> := {Dialing, Serving}

  predicate Unwaited(s: State, i: nat) {
    exists f | 0 <= f < |s.flows| :: s.flows[f].link == i && s.flows[f].stage in UNWAITED
  }

  /** No step of a link that is closing brings a flow of it back to dialing or to a listener. */
  lemma ClosingStep(s: State, step: Step, i: nat)
    requires Inv(s) && Enabled(s, step) && i < |s.closes| && !s.closes[i].Open? && !Unwaited(s, i)
    ensures var t := Next(s, step); i < |t.closes| && !t.closes[i].Open? && !Unwaited(t, i)
  {
    assert LinkOk(s, i);
  }

  lemma {:induction false} ClosingShrinks(s: State, steps: seq<Step>, i: nat)
    requires Inv(s) && IsRun(s, steps) && i < |s.closes| && !s.closes[i].Open? && !Unwaited(s, i)
    ensures var t := After(s, steps); Inv(t) && i < |t.closes| && !t.closes[i].Open? && !Unwaited(t, i)
    decreases |steps|
  {
    hide Inv, Next, Enabled, Unwaited;
    if steps != [] {
      NextKeeps(s, steps[0]);
      ClosingStep(s, steps[0], i);
      ClosingShrinks(Next(s, steps[0]), steps[1..], i);
    }
  }

  /** The flow is where it was. */
  predicate Stays(s: State, t: State, f: nat) {
    f < |s.flows| && f < |t.flows| && t.flows[f] == s.flows[f]
  }

  lemma {:induction false} RunOn(s: State, step: Step, rest: seq<Step>)
    requires Enabled(s, step) && IsRun(Next(s, step), rest)
    ensures IsRun(s, [step] + rest) && After(s, [step] + rest) == After(Next(s, step), rest)
  {
    assert ([step] + rest)[1..] == rest;
  }

  /** A close under way can always return, its splices finished and its sides ended, with every other flow where it is.
      */
  lemma {:induction false} CanReturn(s: State, i: nat, f: nat) returns (steps: seq<Step>)
    requires Inv(s) && i < |s.closes| && s.closes[i].Ending? && f < |s.flows| && !s.flows[f].stage.Splicing?
    ensures IsRun(s, steps)
    ensures var t := After(s, steps); i < |t.closes| && t.closes[i].Returned? && Stays(s, t, f)
    decreases Count(s.flows, i, SPLICED), |s.closes[i].left|
  {
    var step;
    assert LinkOk(s, i);
    CountZero(s.flows, i, SPLICED);
    if k :| 0 <= k < |s.flows| && s.flows[k] == Flow(i, Splicing) {
      step := Finish(k);
      CountEdit(s.flows, k, Next(s, step).flows[k], i, SPLICED);
    } else if side :| side in s.closes[i].left {
      step := EndSide(i, side);
    } else {
      steps := [ReturnClose(i)];
      RunOn(s, steps[0], []);
      assert steps == [ReturnClose(i)] + [];
      return;
    }
    NextKeeps(s, step);
    var rest := CanReturn(Next(s, step), i, f);
    RunOn(s, step, rest);
    steps := [step] + rest;
  }

  /** However the run goes on, the link's close returns with nothing of the link running. */
  ghost predicate CloseEndsAll(s: State, i: nat) {
    forall steps | IsRun(s, steps) && i < |After(s, steps).closes| && After(s, steps).closes[i].Returned? ::
      Count(After(s, steps).flows, i, RUNNING) == 0
  }

  /** A close returns with nothing of its link running, whatever happens meanwhile, if and only if no flow of the link
      dialed or was served when it began: those it does not wait for. */
  lemma {:induction false} CloseEndsAllIff(s: State, i: nat)
    requires Inv(s) && Enabled(s, BeginClose(i))
    ensures CloseEndsAll(Next(s, BeginClose(i)), i) <==> !Unwaited(s, i)
  {
    var t := Next(s, BeginClose(i));
    NextKeeps(s, BeginClose(i));
    assert t.flows == s.flows;
    hide Next, Enabled;
    if f :| 0 <= f < |s.flows| && s.flows[f].link == i && s.flows[f].stage in UNWAITED {
      var steps := CanReturn(t, i, f);
      CountZero(After(t, steps).flows, i, RUNNING);
    } else {
      forall steps | IsRun(t, steps) && i < |After(t, steps).closes| && After(t, steps).closes[i].Returned?
        ensures Count(After(t, steps).flows, i, RUNNING) == 0
      {
        ClosingShrinks(t, steps, i);
        NoneRuns(After(t, steps), i);
      }
    }
  }

  lemma {:induction false} NoneRuns(s: State, i: nat)
    requires Inv(s) && i < |s.closes| && s.closes[i].Returned? && !Unwaited(s, i)
    ensures Count(s.flows, i, RUNNING) == 0
  {
    assert LinkOk(s, i);
    CountZero(s.flows, i, SPLICED);
    CountZero(s.flows, i, RUNNING);
  }

  /** The shortest run that shows it: a flow is admitted and dials, and the close returns with it dialing. */
  const DIALS_ON := [NewLink, Enter(0, false), BeginClose(0), ReturnClose(0)]

  lemma {:induction false} DialOutlivesClose()
    ensures IsRun(INIT, DIALS_ON)
    ensures After(INIT, DIALS_ON).closes == [Returned] && After(INIT, DIALS_ON).flows == [Flow(0, Dialing)]
    ensures After(INIT, DIALS_ON).net.active == 1
  {
    hide IsRun, After;
    var a := Next(INIT, NewLink);
    var b := Next(a, Enter(0, false));
    var c := Next(b, BeginClose(0));
    var d := Next(c, ReturnClose(0));
    NoSteps(d);
    RunOn(c, ReturnClose(0), []);
    RunOn(b, BeginClose(0), [ReturnClose(0)] + []);
    RunOn(a, Enter(0, false), [BeginClose(0)] + ([ReturnClose(0)] + []));
    RunOn(INIT, NewLink, [Enter(0, false)] + ([BeginClose(0)] + ([ReturnClose(0)] + [])));
    assert DIALS_ON == [NewLink] + ([Enter(0, false)] + ([BeginClose(0)] + ([ReturnClose(0)] + [])));
  }

  lemma {:induction false} NoSteps(s: State)
    ensures IsRun(s, []) && After(s, []) == s
  {
  }

  /** A flow that dialed runs if and only if no close of its link began: both its sides are then tracked, and else
      neither is. */
  lemma TrackSplices(s: State, f: nat)
    requires Inv(s) && Enabled(s, Track(f))
    ensures var t := Next(s, Track(f));
            var i := s.flows[f].link;
            && (t.flows[f].stage.Splicing? <==> s.closes[i].Open?)
            && (t.flows[f].stage.Leaving? <==> !s.closes[i].Open?)
            && t.net.links[i].splices == s.net.links[i].splices + (if s.closes[i].Open? then 1 else 0)
            && forall end: bool :: Side(f, end) in t.net.links[i].flows <==> s.closes[i].Open?
  {
    NotTracked(s, f);
    assert LinkOk(s, s.flows[f].link);
  }

  /** From its dial a flow of a link that is closing can only leave. */
  lemma DialOnlyLeaves(s: State, step: Step, f: nat)
    requires Inv(s) && Enabled(s, step) && f < |s.flows| && s.flows[f].stage.Dialing?
    requires s.closes[s.flows[f].link] != Open
    ensures Next(s, step).flows[f].stage in {Dialing, Leaving}
  {
    assert LinkOk(s, s.flows[f].link);
  }

  /** With every flow gone, every count is back to nothing. */
  lemma {:induction false} AllGoneCountsNothing(s: State)
    requires Inv(s) && forall f | 0 <= f < |s.flows| :: s.flows[f].stage.Gone?
    ensures s.net.active == 0 && forall i | 0 <= i < |s.net.links| :: s.net.links[i].active == 0
  {
    forall i | 0 <= i < |s.net.links| ensures s.net.links[i].active == 0 {
      assert LinkOk(s, i);
      CountZero(s.flows, i, LIVE);
    }
    SumZero(s.net.links);
  }

  lemma {:induction false} SumZero(links: seq<Link>)
    requires forall i | 0 <= i < |links| :: links[i].active == 0
    ensures Sum(links) == 0
  {
    if links != [] {
      SumZero(links[..|links| - 1]);
    }
  }
}
