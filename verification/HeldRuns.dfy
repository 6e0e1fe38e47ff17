/** Any number of requests at once, each at any step of its way through the proxy: what the budget counts is what they
    hold. */
module HeldRuns {

  import opened HeldBudget

  /** Where a request stands: its body is read, its secrets are put in, it is forwarded, or it failed or ended with its
      charge still to be given back. */
  datatype Stage = Reading | Rewriting | Forwarding | GivingBack | Done

  /** One request: the capacity of its buffer, and what its rewrite reserved. */
  datatype Request = Request(source: Source, stage: Stage, capacity: nat, reserved: nat) {
    function Holds(): nat {
      capacity + reserved
    }
  }

  datatype State = State(limit: nat, counts: map<Source, int>, requests: seq<Request>)

  function Init(limit: nat): State {
    State(limit, map[], [])
  }

  datatype Step =
    | Begin(source: Source)
    | Grow(i: nat, n: nat)
    | Reserve(i: nat, n: nat)
    | Advance(i: nat)
    | Fail(i: nat)
    | GiveBack(i: nat)

  predicate Enabled(s: State, step: Step) {
    match step
    case Begin(_) => true
    case Grow(i, _) => i < |s.requests| && s.requests[i].stage.Reading?
    case Reserve(i, _) => i < |s.requests| && s.requests[i].stage.Rewriting?
    case Advance(i) =>
      i < |s.requests|
      && (s.requests[i].stage.Reading? || s.requests[i].stage.Rewriting? || s.requests[i].stage.Forwarding?)
    case Fail(i) => i < |s.requests| && (s.requests[i].stage.Reading? || s.requests[i].stage.Rewriting?)
    case GiveBack(i) => i < |s.requests| && s.requests[i].stage.GivingBack?
  }

  function Put(s: State, i: nat, r: Request): State
    requires i < |s.requests|
  {
    s.(requests := s.requests[i := r])
  }

  /** A growth past the budget fails the read; a reservation past it is only refused. */
  function Next(s: State, step: Step): State
    requires Enabled(s, step)
  {
    match step
    case Begin(source) => s.(requests := s.requests + [Request(source, Reading, 0, 0)])
    case Grow(i, n) =>
      var r := s.requests[i];
      if Get(s.counts, r.source) + n > s.limit then Put(s, i, r.(stage := GivingBack))
      else Put(s, i, r.(capacity := r.capacity + n)).(counts := Reserved(s.counts, r.source, n))
    case Reserve(i, n) =>
      var r := s.requests[i];
      if Get(s.counts, r.source) + n > s.limit then s
      else Put(s, i, r.(reserved := r.reserved + n)).(counts := Reserved(s.counts, r.source, n))
    case Advance(i) =>
      var r := s.requests[i];
      Put(s, i, r.(stage := if r.stage.Reading? then Rewriting
                            else if r.stage.Rewriting? then Forwarding
                            else GivingBack))
    case Fail(i) => Put(s, i, s.requests[i].(stage := GivingBack))
    case GiveBack(i) =>
      var r := s.requests[i];
      Put(s, i, r.(stage := Done, capacity := 0, reserved := 0)).(counts := Given(s.counts, r.source, r.Holds()))
  }

  /** What the requests of a source hold together. */
  function Held(requests: seq<Request>, source: Source): nat {
    if requests == [] then 0
    else
      var last := requests[|requests| - 1];
      Held(requests[..|requests| - 1], source) + if last.source == source then last.Holds() else 0
  }

  lemma {:induction false} HeldEdit(requests: seq<Request>, i: nat, r: Request, source: Source)
    requires i < |requests| && r.source == requests[i].source
    ensures Held(requests[i := r], source) ==
              Held(requests, source) + if r.source == source then r.Holds() - requests[i].Holds() else 0
    ensures r.source == source ==> requests[i].Holds() <= Held(requests, source)
  {
    var n := |requests| - 1;
    if i == n {
      assert requests[i := r][..n] == requests[..n];
    } else {
      assert requests[i := r][..n] == requests[..n][i := r];
      HeldEdit(requests[..n], i, r, source);
    }
  }

  /** The budget counts exactly what each source's requests hold, within its limit, and a request that is done holds
      nothing. */
  ghost predicate Inv(s: State) {
    && (forall source: Source :: Get(s.counts, source) == Held(s.requests, source) <= s.limit)
    && (forall i | 0 <= i < |s.requests| && s.requests[i].stage.Done? :: s.requests[i].Holds() == 0)
  }

  lemma InitInv(limit: nat)
    ensures Inv(Init(limit))
  {
  }

  lemma {:induction false} NextCounts(s: State, step: Step, source: Source)
    requires Inv(s) && Enabled(s, step)
    ensures var t := Next(s, step); Get(t.counts, source) == Held(t.requests, source) <= t.limit
  {
    var t := Next(s, step);
    assert Get(s.counts, source) == Held(s.requests, source) <= s.limit;
    if step.Begin? {
      assert t.requests[..|s.requests|] == s.requests;
    } else {
      HeldEdit(s.requests, step.i, t.requests[step.i], source);
      assert Get(s.counts, s.requests[step.i].source) == Held(s.requests, s.requests[step.i].source);
      hide Held;
    }
  }

  lemma NextKeeps(s: State, step: Step)
    requires Inv(s) && Enabled(s, step)
    ensures Inv(Next(s, step))
  {
    hide Held, Get;
    forall source: Source
      ensures Get(Next(s, step).counts, source) == Held(Next(s, step).requests, source) <= Next(s, step).limit {
      NextCounts(s, step, source);
    }
  }

  /** A request is read, then rewritten, then forwarded, then gives back: the one step that takes it into each stage.
      Every other step leaves its stage alone. */
  lemma StagesInOrder(s: State, step: Step, i: nat)
    requires Enabled(s, step) && i < |s.requests|
    ensures i < |Next(s, step).requests|
    ensures var was, now := s.requests[i], Next(s, step).requests[i];
            && now.source == was.source
            && (now.stage.Reading? ==> was.stage.Reading?)
            && (now.stage.Rewriting? && was.stage != now.stage <==> step == Advance(i) && was.stage.Reading?)
            && (now.stage.Forwarding? && was.stage != now.stage <==> step == Advance(i) && was.stage.Rewriting?)
            && (now.stage.GivingBack? && was.stage != now.stage <==>
                  || step == Fail(i)
                  || (step == Advance(i) && was.stage.Forwarding?)
                  || (step.Grow? && step.i == i && Get(s.counts, was.source) + step.n > s.limit))
            && (now.stage.Done? && was.stage != now.stage <==> step == GiveBack(i))
  {
  }

  function After(s: State, steps: seq<Step>): State
    requires IsRun(s, steps)
    decreases |steps|
  {
    if steps == [] then s else After(Next(s, steps[0]), steps[1..])
  }

  predicate IsRun(s: State, steps: seq<Step>)
    decreases |steps|
  {
    steps == [] || (Enabled(s, steps[0]) && IsRun(Next(s, steps[0]), steps[1..]))
  }

  /** In every run, at every step, a source's entry is the sum of what its requests in flight hold, and within the
      limit. */
  lemma {:induction false} RunsKeep(s: State, steps: seq<Step>)
    requires Inv(s) && IsRun(s, steps)
    ensures Inv(After(s, steps))
    decreases |steps|
  {
    hide Inv, Next, Enabled;
    if steps != [] {
      NextKeeps(s, steps[0]);
      RunsKeep(Next(s, steps[0]), steps[1..]);
    }
  }

  /** With every request done, nothing is counted for anyone. */
  lemma {:induction false} AllDoneHoldNothing(s: State, source: Source)
    requires Inv(s) && forall i | 0 <= i < |s.requests| :: s.requests[i].stage.Done?
    ensures Get(s.counts, source) == 0
  {
    NothingHeld(s.requests, source);
  }

  lemma {:induction false} NothingHeld(requests: seq<Request>, source: Source)
    requires forall i | 0 <= i < |requests| :: requests[i].Holds() == 0
    ensures Held(requests, source) == 0
  {
    if requests != [] {
      NothingHeld(requests[..|requests| - 1], source);
    }
  }
}
