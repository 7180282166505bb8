/**
  The gate and the observations together, across boots: each probe records its documents one by one,
  a boot can die between any two of them, and only a probe that recorded them all is sealed.

  How the Board answers while probe `n` runs is `worlds(n)`, and every statement ranges over it.
 */
module ProbeRuns {
  import opened Prelude
  import opened ProfileDocuments
  import opened ProbeIndex
  import opened ProfileReceipt
  import opened ProbeCodec
  import G = ProfileGate
  import P = ProfilePhase

  /** The gate, the observations in the log, and those the probe in progress still has to make. */
  datatype State = State(gate: G.State, notes: Log, todo: Log)

  datatype Step = Gate(step: G.Step) | Observe

  const INIT: State := State(G.INIT, [], [])

  type Worlds = nat -> World

  /** What probe `n` records, if it gets that far: its two passes in reading order. */
  function TrailOf(worlds: Worlds, n: nat): Log {
    PassTrail(worlds(n), ProbeId(n), 1) + PassTrail(worlds(n), ProbeId(n), 2)
  }

  predicate Probing(s: State) {
    s.gate.boot.Some? && s.gate.boot.value.stage.Probing?
  }

  /** The log event of an observation is not one of the phase's. */
  function GateStep(step: Step): G.Step {
    if step.Observe? then G.Append else step.step
  }

  predicate Enabled(s: State, step: Step, required: bool) {
    && G.Enabled(s.gate, GateStep(step), required)
    && (step.Observe? ==> Probing(s) && s.todo != [])
    && (GateStep(step).Seal? ==> s.todo == [])
  }

  function After(s: State, step: Step, required: bool, worlds: Worlds): State
    requires Enabled(s, step, required)
  {
    var gate := G.After(s.gate, GateStep(step), required);
    if step.Observe? then State(gate, s.notes + [s.todo[0]], s.todo[1..])
    else if step.step.BeginProbe? then State(gate, s.notes, TrailOf(worlds, P.Project(s.gate.log).value.starts + 1))
    else State(gate, s.notes, s.todo)
  }

  function RunFrom(s: State, steps: seq<Step>, required: bool, worlds: Worlds): Option<State>
    decreases |steps|
  {
    if steps == [] then Some(s)
    else if Enabled(s, steps[0], required)
    then RunFrom(After(s, steps[0], required, worlds), steps[1..], required, worlds) else None
  }

  // ---------------------------------------------------------------- what every run keeps

  /** Every probe is numbered by how many were started. */
  predicate Numbered(p: P.Phase) {
    p.probe == p.starts
  }

  /** What has been recorded under probe `n`, with what is still to come. */
  predicate Recorded(notes: Log, todo: Log, worlds: Worlds, n: nat) {
    Matching(notes, ProbeId(n)) + todo == TrailOf(worlds, n)
  }

  /** A sealed or decided receipt's probe recorded everything; a probe in progress is on its way. */
  predicate Following(p: P.Phase, boot: Option<G.Boot>, notes: Log, todo: Log, worlds: Worlds) {
    && (boot.Some? && boot.value.stage.Probing? ==> Recorded(notes, todo, worlds, p.probe))
    && (boot.Some? && boot.value.stage.Sealed? ==> Recorded(notes, [], worlds, p.probe))
    && (p.verdict.Some? ==> Recorded(notes, [], worlds, p.probe))
  }

  ghost predicate Inv(s: State, worlds: Worlds) {
    && G.Inv(s.gate)
    && var p := P.Project(s.gate.log).value;
       && Numbered(p) && OnlyEarlier(s.notes, p.starts + 1) && Following(p, s.gate.boot, s.notes, s.todo, worlds)
  }

  lemma {:induction false} TrailOwn(worlds: Worlds, n: nat)
    ensures forall e :: e in TrailOf(worlds, n) ==> e.Observation? && e.probe == ProbeId(n)
  {
    var w, probe := worlds(n), ProbeId(n);
    TrailFacts(NameOf, Fetcher(w, probe, 1), probe, 1, Reads(Listed(w, probe, 1)));
    TrailFacts(NameOf, Fetcher(w, probe, 2), probe, 2, Reads(Listed(w, probe, 2)));
  }

  lemma MatchingOne(notes: Log, e: Event<Document>, probe: string)
    ensures Matching(notes + [e], probe) == Matching(notes, probe)
            + if e.Observation? && e.probe == probe then [e] else []
  {
    assert (notes + [e])[..|notes|] == notes;
  }

  lemma RecordedMore(notes: Log, todo: Log, worlds: Worlds, n: nat)
    requires todo != [] && Recorded(notes, todo, worlds, n)
    ensures todo[0].Observation? && todo[0].probe == ProbeId(n) && Recorded(notes + [todo[0]], todo[1..], worlds, n)
  {
    TrailOwn(worlds, n);
    MovedOver(Matching(notes, ProbeId(n)), todo, TrailOf(worlds, n));
    MatchingOne(notes, todo[0], ProbeId(n));
  }

  lemma MovedOver<T>(done: seq<T>, todo: seq<T>, all: seq<T>)
    requires done + todo == all && todo != []
    ensures todo[0] in all && (done + [todo[0]]) + todo[1..] == all
  {
    assert all[|done|] == todo[0];
  }

  lemma ObserveKeeps(s: State, required: bool, worlds: Worlds)
    requires Inv(s, worlds) && Enabled(s, Observe, required)
    ensures Inv(After(s, Observe, required, worlds), worlds)
  {
    G.StepKeeps(s.gate, G.Append, required);
    P.ProjectMore(s.gate.log, P.Elsewhere);
    var n := P.Project(s.gate.log).value.probe;
    RecordedMore(s.notes, s.todo, worlds, n);
  }

  /** How the phase moves at a gate step that is no start. */
  lemma PhaseAfter(s: G.State, step: G.Step, required: bool)
    requires G.Inv(s) && G.Enabled(s, step, required) && !step.BeginProbe?
    ensures P.Project(G.After(s, step, required).log).Some?
    ensures var p, s' := P.Project(s.log).value, G.After(s, step, required);
            var p' := P.Project(s'.log).value;
            && p'.probe == p.probe && p'.starts == p.starts
            && (s'.boot.Some? && s'.boot.value.stage.Probing? ==> s.boot.Some? && s.boot.value.stage.Probing?)
            && (s'.boot.Some? && s'.boot.value.stage.Sealed? ==>
                  s.boot.Some? && (s.boot.value.stage.Sealed? || (s.boot.value.stage.Probing? && step.Seal?)))
            && (p'.verdict.Some? ==> p.verdict.Some? || (s.boot.Some? && s.boot.value.stage.Sealed?))
  {
    G.FitsAfter(s, step, required);
    G.LogAfter(s.log, G.Writes(s, step, required));
  }

  lemma GateKeeps(s: State, step: G.Step, required: bool, worlds: Worlds)
    requires Inv(s, worlds) && Enabled(s, Gate(step), required) && !step.BeginProbe?
    ensures Inv(After(s, Gate(step), required, worlds), worlds)
  {
    G.StepKeeps(s.gate, step, required);
    PhaseAfter(s.gate, step, required);
  }

  lemma PhaseStarted(s: G.State, step: G.Step, required: bool)
    requires G.Inv(s) && G.Enabled(s, step, required) && step.BeginProbe?
    ensures P.Project(G.After(s, step, required).log).Some?
    ensures var p, p' := P.Project(s.log).value, P.Project(G.After(s, step, required).log).value;
            && p'.probe == p'.starts == p.starts + 1 && p'.verdict.None?
            && G.After(s, step, required).boot.Some? && G.After(s, step, required).boot.value.stage.Probing?
  {
    P.ProjectMore(s.log, P.Started(P.Project(s.log).value.starts + 1, step.rules, step.peer));
  }

  lemma EarlierStill(notes: Log, n: nat)
    requires OnlyEarlier(notes, n)
    ensures OnlyEarlier(notes, n + 1)
  {}

  lemma BeginKeeps(s: State, step: G.Step, required: bool, worlds: Worlds)
    requires Inv(s, worlds) && Enabled(s, Gate(step), required) && step.BeginProbe?
    ensures Inv(After(s, Gate(step), required, worlds), worlds)
  {
    var n := P.Project(s.gate.log).value.starts + 1;
    G.StepKeeps(s.gate, step, required);
    PhaseStarted(s.gate, step, required);
    EarlierFiltered(s.notes, n);
    EarlierStill(s.notes, n);
    assert [] + TrailOf(worlds, n) == TrailOf(worlds, n);
  }

  lemma {:induction false} RunKeeps(s: State, steps: seq<Step>, required: bool, worlds: Worlds)
    requires Inv(s, worlds) && RunFrom(s, steps, required, worlds).Some?
    ensures Inv(RunFrom(s, steps, required, worlds).value, worlds)
    decreases |steps|
  {
    if steps != [] {
      if steps[0].Observe? {
        ObserveKeeps(s, required, worlds);
      } else if steps[0].step.BeginProbe? {
        BeginKeeps(s, steps[0].step, required, worlds);
      } else {
        GateKeeps(s, steps[0].step, required, worlds);
      }
      RunKeeps(After(s, steps[0], required, worlds), steps[1..], required, worlds);
    }
  }

  // ---------------------------------------------------------------- what is rebuilt

  lemma RecordedRebuilds(notes: Log, worlds: Worlds, n: nat)
    requires ValidWorld(worlds(n)) && Recorded(notes, [], worlds, n)
    ensures CanonicalProbe(notes, ProbeId(n)) == Some((Pass(worlds(n), ProbeId(n), 1), Pass(worlds(n), ProbeId(n), 2)))
  {
    assert Matching(notes, ProbeId(n)) + [] == Matching(notes, ProbeId(n));
    ProbeRebuilt(worlds(n), ProbeId(n), notes);
  }

  /**
    In every run over any boots, dying anywhere: when a receipt can be sealed, and ever after it was
    sealed or decided, the log rebuilds exactly the probe that was collected.
   */
  lemma RunRebuilds(steps: seq<Step>, required: bool, worlds: Worlds)
    requires (forall n :: ValidWorld(worlds(n))) && RunFrom(INIT, steps, required, worlds).Some?
    ensures var s := RunFrom(INIT, steps, required, worlds).value;
            && P.Project(s.gate.log).Some?
            && var p := P.Project(s.gate.log).value;
               (Probing(s) && s.todo == []) || (s.gate.boot.Some? && s.gate.boot.value.stage.Sealed?)
                 || p.verdict.Some? ==>
                 CanonicalProbe(s.notes, ProbeId(p.probe))
                 == Some((Pass(worlds(p.probe), ProbeId(p.probe), 1), Pass(worlds(p.probe), ProbeId(p.probe), 2)))
  {
    assert Inv(INIT, worlds);
    RunKeeps(INIT, steps, required, worlds);
    var s := RunFrom(INIT, steps, required, worlds).value;
    var p := P.Project(s.gate.log).value;
    if (Probing(s) && s.todo == []) || (s.gate.boot.Some? && s.gate.boot.value.stage.Sealed?) || p.verdict.Some? {
      RecordedRebuilds(s.notes, worlds, p.probe);
    }
  }
}
