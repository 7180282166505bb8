/**
  Runs that mark the boundaries of the executor's promises: what a close can miss and what takeover
  does not look at again.
 */
module ExecutorBoundaries {
  import opened Prelude
  import opened ExecutorLog
  import opened ExecutorProtocol
  import opened ExecutorInvariant
  import opened ExecutorTheorems

  const SOME_REQUEST: Request := Request(Ownership("g", "a", "s"), Limits(1, 1, 1, 1.0, 1.0))

  /** Every owner of the run was opened with the binding `b`. */
  predicate OwnersBind(steps: seq<Step>, b: Binding) {
    forall i :: 0 <= i < |steps| && steps[i].move.OpenOwner? ==> steps[i].move.binding == b
  }

  // ---------------------------------------------------------------- one envelope's thread, step by step

  /** A thread's move lengthens the run. */
  lemma Act(steps: seq<Step>, s: State, env: nat, m: Threading) returns (longer: seq<Step>, s': State)
    requires Run(steps) == Some(s) && s.owner.Some? && ThreadEnabled(BoardOf(s.log), s.owner.value, env, m)
    ensures Run(longer) == Some(s') && longer == steps + [Do(Thread(env, m))]
    ensures s'.log == s.log + ThreadEvents(BoardOf(s.log), s.owner.value, env, m)
    ensures s'.owner == Some(ThreadNext(s.owner.value, env, m))
  {
    longer, s' := Extend(steps, s, Do(Thread(env, m)));
  }

  /** From `s` to `s'` nothing of the process changed but one handle. */
  predicate Handled(s: State, s': State, env: nat, h: Handle) {
    && s.owner.Some? && s.owner.value.phase.Serving? && env in s.owner.value.phase.handles
    && s'.owner == Some(WithHandle(s.owner.value, env, h))
  }

  function WithHandle(p: Process, env: nat, h: Handle): Process
    requires p.phase.Serving?
  {
    p.(phase := p.phase.(handles := p.phase.handles[env := h]))
  }

  function WithoutHandle(p: Process, env: nat): Process
    requires p.phase.Serving?
  {
    p.(phase := p.phase.(handles := p.phase.handles - {env}))
  }

  lemma SameHandles(p: Process, env: nat, h: Handle, h': Handle)
    requires p.phase.Serving?
    ensures WithHandle(WithHandle(p, env, h), env, h') == WithHandle(p, env, h')
    ensures WithoutHandle(WithHandle(p, env, h), env) == WithoutHandle(p, env)
  {
    assert p.phase.handles[env := h][env := h'] == p.phase.handles[env := h'];
    assert p.phase.handles[env := h] - {env} == p.phase.handles - {env};
  }

  lemma ActHandled(steps: seq<Step>, s: State, s1: State, env: nat, h: Handle, m: Threading)
    returns (longer: seq<Step>, s': State, h': Handle)
    requires Run(steps) == Some(s1) && Handled(s, s1, env, h) && !m.Register?
    requires HandleEnabled(BoardOf(s1.log), env, h, m) && HandleNext(h, m).Some?
    ensures Run(longer) == Some(s') && longer == steps + [Do(Thread(env, m))]
    ensures h' == HandleNext(h, m).value && Handled(s, s', env, h')
    ensures s'.log == s1.log + HandleEvents(BoardOf(s1.log), s1.owner.value.binding, env, h, m)
  {
    longer, s' := Act(steps, s1, env, m);
    h' := HandleNext(h, m).value;
    SameHandles(s.owner.value, env, h, h');
  }

  /** A thread can always get as far as recording what its envelope came to. */
  lemma ReachRecording(steps: seq<Step>, s: State, env: nat) returns (longer: seq<Step>, s': State, h: Handle)
    requires Run(steps) == Some(s) && s.owner.Some? && s.owner.value.phase.Serving?
    requires env in s.owner.value.phase.handles
    ensures Run(longer) == Some(s') && steps <= longer && Handled(s, s', env, h) && h.pc.Recording?
  {
    longer, s', h := steps, s, s.owner.value.phase.handles[env];
    assert s.owner.value.phase.handles[env := h] == s.owner.value.phase.handles;
    if h.pc.Preparing? {
      longer, s', h := ActHandled(longer, s, s', env, h, PrepareFails);
    } else {
      if h.pc.Prepared? {
        longer, s', h := ActHandled(longer, s, s', env, h, Launch);
      }
      if h.pc.Running? {
        longer, s', h := ActHandled(longer, s, s', env, h, LaunchReturns(Observation(Exited, "", true, None)));
      }
    }
  }

  /** What a recording thread does last ends it. */
  lemma ActEnds(steps: seq<Step>, s: State, s1: State, env: nat, h: Handle, m: Threading)
    returns (longer: seq<Step>, s': State)
    requires Run(steps) == Some(s1) && Handled(s, s1, env, h) && m in {Commit, Discard}
    requires HandleEnabled(BoardOf(s1.log), env, h, m)
    ensures Run(longer) == Some(s') && longer == steps + [Do(Thread(env, m))]
    ensures s'.owner == Some(WithoutHandle(s.owner.value, env))
  {
    longer, s' := Act(steps, s1, env, m);
    SameHandles(s.owner.value, env, h, h);
  }

  /** Once a recording thread has observed, it can conclude. */
  lemma ReachObserved(steps: seq<Step>, s: State, env: nat) returns (longer: seq<Step>, s': State, h: Handle)
    requires Run(steps) == Some(s) && s.owner.Some? && s.owner.value.phase.Serving?
    requires env in s.owner.value.phase.handles
    ensures Run(longer) == Some(s') && steps <= longer && Handled(s, s', env, h)
    ensures h.pc.Recording? && h.pc.stage != Observing
  {
    longer, s', h := ReachRecording(steps, s, env);
    if h.pc.stage == Observing {
      longer, s', h := ActHandled(longer, s, s', env, h, Observe);
    }
  }

  /** And from there to its end. */
  lemma RunOutOne(steps: seq<Step>, s: State, env: nat) returns (longer: seq<Step>, s': State)
    requires Run(steps) == Some(s) && s.owner.Some? && s.owner.value.phase.Serving?
    requires env in s.owner.value.phase.handles
    ensures Run(longer) == Some(s') && steps <= longer && s'.owner == Some(WithoutHandle(s.owner.value, env))
  {
    var h;
    longer, s', h := ReachObserved(steps, s, env);
    if h.pc.stage == Deciding && !Active(BoardOf(s'.log), Look(BoardOf(s'.log), env).who.generation) {
      longer, s', h := ActHandled(longer, s, s', env, h, Late);
    }
    longer, s' := ActEnds(longer, s, s', env, h, if h.pc.stage == Deciding then Commit else Discard);
  }

  /** Every thread can run to its end, whatever the others and the closes in progress have got to. */
  lemma {:induction false} RunOut(steps: seq<Step>, s: State) returns (longer: seq<Step>, s': State)
    requires Run(steps) == Some(s) && s.owner.Some? && s.owner.value.phase.Serving?
    ensures Run(longer) == Some(s') && steps <= longer
    ensures s'.owner == Some(s.owner.value.(phase := s.owner.value.phase.(handles := map[])))
    decreases |s.owner.value.phase.handles|
  {
    longer, s' := steps, s;
    if s.owner.value.phase.handles != map[] {
      var env :| env in s.owner.value.phase.handles;
      longer, s' := RunOutOne(steps, s, env);
      longer, s' := RunOut(longer, s');
    }
  }

  // ---------------------------------------------------------------- what a close can miss

  /** With no handle left, a close runs to a normal return. */
  lemma CloseAlone(steps: seq<Step>, s: State, g: string, token: nat) returns (longer: seq<Step>, s': State)
    requires Run(steps) == Some(s) && s.owner.Some? && s.owner.value.phase.Serving?
    requires s.owner.value.phase.handles == map[] && token !in s.owner.value.phase.closers
    requires !GateOf(BoardOf(s.log), g).Unknown?
    ensures longer == steps + [Do(CloseCall(token, CloseAndFence(g)))] + [Do(CloseCall(token, TakeSnapshot))]
                            + [Do(CloseCall(token, Return))]
    ensures Run(longer) == Some(s') && s'.owner == s.owner
    ensures forall env :: Records(s'.log, env) == Records(s.log, env)
  {
    longer, s' := CloseFirst(steps, s, g, token);
    longer, s' := SnapshotNext(longer, s', g, token);
    longer, s' := ReturnLast(longer, s', token);
    assert s.owner.value.phase.closers[token := Closer(g, None)] - {token} == s.owner.value.phase.closers;
  }

  /** The process with these closes in progress. */
  function WithClosers(p: Process, closers: map<nat, Closer>): Process
    requires p.phase.Serving?
  {
    p.(phase := p.phase.(closers := closers))
  }

  lemma CloseFirst(steps: seq<Step>, s: State, g: string, token: nat) returns (longer: seq<Step>, s': State)
    requires Run(steps) == Some(s) && s.owner.Some? && s.owner.value.phase.Serving?
    requires token !in s.owner.value.phase.closers && !GateOf(BoardOf(s.log), g).Unknown?
    ensures longer == steps + [Do(CloseCall(token, CloseAndFence(g)))] && Run(longer) == Some(s')
    ensures s'.owner == Some(WithClosers(s.owner.value, s.owner.value.phase.closers[token := Closer(g, None)]))
    ensures forall env :: Records(s'.log, env) == Records(s.log, env)
  {
    var closing := Closing.CloseAndFence(g);
    longer, s' := Extend(steps, s, Do(CloseCall(token, closing)));
    ClosingRecords(BoardOf(s.log), closing);
    forall env ensures Records(s'.log, env) == Records(s.log, env) {
      RecordsStay(s.log, ClosingEvents(BoardOf(s.log), closing), env);
    }
  }

  lemma SnapshotNext(steps: seq<Step>, s: State, g: string, token: nat) returns (longer: seq<Step>, s': State)
    requires Run(steps) == Some(s) && s.owner.Some? && s.owner.value.phase.Serving?
    requires s.owner.value.phase.handles == map[]
    requires token in s.owner.value.phase.closers && s.owner.value.phase.closers[token] == Closer(g, None)
    ensures longer == steps + [Do(CloseCall(token, TakeSnapshot))] && Run(longer) == Some(s') && s'.log == s.log
    ensures s'.owner.Some? && s'.owner.value.phase.Serving? && token in s'.owner.value.phase.closers
    ensures s'.owner.value == WithClosers(s.owner.value, s'.owner.value.phase.closers)
    ensures s'.owner.value.phase.closers - {token} == s.owner.value.phase.closers - {token}
    ensures var closer := s'.owner.value.phase.closers[token];
            closer.snapshot.Some? && closer.snapshot.value.awaited == {}
  {
    longer, s' := Extend(steps, s, Do(CloseCall(token, TakeSnapshot)));
  }

  lemma ReturnLast(steps: seq<Step>, s: State, token: nat) returns (longer: seq<Step>, s': State)
    requires Run(steps) == Some(s) && s.owner.Some? && s.owner.value.phase.Serving?
    requires s.owner.value.phase.handles == map[]
    requires token in s.owner.value.phase.closers && s.owner.value.phase.closers[token].snapshot.Some?
    requires s.owner.value.phase.closers[token].snapshot.value.awaited == {}
    ensures longer == steps + [Do(CloseCall(token, Return))] && Run(longer) == Some(s') && s'.log == s.log
    ensures s'.owner == Some(WithClosers(s.owner.value, s.owner.value.phase.closers - {token}))
  {
    longer, s' := Extend(steps, s, Do(CloseCall(token, Return)));
  }

  /**
    The two locks of a start matter.  Whenever an envelope has reserved and not yet registered, the
    other threads can run to their ends and a close of its generation then to a normal return over
    it, leaving it reserved and unfinished.
   */
  lemma CloseMissesAStart(steps: seq<Step>, s: State, env: nat, token: nat)
    returns (idle: seq<Step>, longer: seq<Step>, s': State)
    requires Run(steps) == Some(s) && s.owner.Some? && s.owner.value.phase.Serving?
    requires env in s.owner.value.phase.starting && token !in s.owner.value.phase.closers
    ensures var g := s.owner.value.phase.starting[env].who.generation;
            steps <= idle && longer == idle + [Do(CloseCall(token, CloseAndFence(g)))]
                                            + [Do(CloseCall(token, TakeSnapshot))] + [Do(CloseCall(token, Return))]
    ensures Run(longer) == Some(s') && Records(s'.log, env) == [Reserved]
  {
    var s1;
    idle, s1 := RunOut(steps, s);
    StartedGate(idle, s1, env);
    longer, s' := CloseAlone(idle, s1, s.owner.value.phase.starting[env].who.generation, token);
  }

  /** One binding, and every start registered at once. */
  predicate Tidy(steps: seq<Step>, binding: Binding) {
    OwnersBind(steps, binding) && StartsAtOnce(steps) && !StartedLast(steps)
  }

  lemma TidyMore(steps: seq<Step>, step: Step, binding: Binding)
    requires Tidy(steps, binding) && (step.move.OpenOwner? ==> step.move.binding == binding)
    ensures OwnersBind(steps + [step], binding) && StartsAtOnce(steps + [step])
    ensures !IsStart(step) ==> Tidy(steps + [step], binding)
  {
    var all := steps + [step];
    forall i | 0 <= i < |all| - 1 && IsStart(all[i]) ensures IsRegister(all[i + 1]) {
      assert i < |steps| - 1 && all[i] == steps[i] && all[i + 1] == steps[i + 1];
    }
  }

  lemma TidyStart(steps: seq<Step>, start: Step, register: Step, binding: Binding)
    requires Tidy(steps, binding) && IsStart(start) && IsRegister(register)
    ensures Tidy(steps + [start] + [register], binding)
  {
    TidyMore(steps, start, binding);
    var all := steps + [start] + [register];
    forall i | 0 <= i < |all| - 1 && IsStart(all[i]) ensures IsRegister(all[i + 1]) {
      assert i < |steps| ==> all[i] == steps[i];
      assert i < |steps| - 1 ==> all[i + 1] == steps[i + 1];
    }
  }

  /** A first owner opens. */
  lemma FirstOpened(binding: Binding) returns (steps: seq<Step>, s: State)
    ensures Run(steps) == Some(s) && Tidy(steps, binding)
    ensures s == State([OwnerOpened(1)], Some(Process(binding, Opening)))
  {
    TidyMore([], Do(OpenOwner(binding)), binding);
    steps, s := Extend([], INIT, Do(OpenOwner(binding)));
    assert s.log == [] + [OwnerOpened(1)];
  }

  lemma OpenedBoard()
    ensures BoardOf([OwnerOpened(1)]) == Board(1, 1, 0, [], map[], [], map[])
  {
    AppendOne([], OwnerOpened(1));
    assert [] + [OwnerOpened(1)] == [OwnerOpened(1)];
  }

  /** With nothing to examine, a survey ends at once. */
  lemma SurveyNone(steps: seq<Step>, s: State) returns (longer: seq<Step>, s': State)
    requires Run(steps) == Some(s) && s.owner.Some? && s.owner.value.phase.Opening? && Worklist(BoardOf(s.log)) == []
    ensures Run(longer) == Some(s') && longer == steps + [Do(TakeOver(Survey([])))]
    ensures s' == State(s.log, Some(s.owner.value.(phase := Reconciling([]))))
  {
    longer, s' := Extend(steps, s, Do(TakeOver(Survey([]))));
    assert s'.log == s.log;
    assert Items(BoardOf(s.log), [], []) == [];
  }

  lemma FirstSurveyed(binding: Binding) returns (steps: seq<Step>, s: State)
    ensures Run(steps) == Some(s) && Tidy(steps, binding)
    ensures s == State([OwnerOpened(1)], Some(Process(binding, Reconciling([]))))
  {
    var s0;
    steps, s0 := FirstOpened(binding);
    OpenedBoard();
    TidyMore(steps, Do(TakeOver(Survey([]))), binding);
    steps, s := SurveyNone(steps, s0);
  }

  lemma FirstServing(binding: Binding) returns (steps: seq<Step>, s: State)
    ensures Run(steps) == Some(s) && Tidy(steps, binding)
    ensures s == State([OwnerOpened(1)], Some(Process(binding, Serving(map[], map[], map[], {}))))
  {
    var s0;
    steps, s0 := FirstSurveyed(binding);
    TidyMore(steps, Do(TakeOver(BeginServing)), binding);
    steps, s := Extend(steps, s0, Do(TakeOver(BeginServing)));
    assert s.log == s0.log;
  }

  const FIRST_LOG: Log := [OwnerOpened(1), Generation(Acquire, "g", "a")]

  lemma AcquiredBoard()
    ensures BoardOf(FIRST_LOG) == Board(2, 1, 0, [], map[], [], map["g" := Open("a")])
  {
    OpenedBoard();
    AppendOne([OwnerOpened(1)], Generation(Acquire, "g", "a"));
    assert [OwnerOpened(1)] + [Generation(Acquire, "g", "a")] == FIRST_LOG;
  }

  /** The first owner serves, and generation "g" is acquired. */
  lemma FirstOwner(binding: Binding) returns (steps: seq<Step>, s: State)
    ensures Run(steps) == Some(s) && Tidy(steps, binding)
    ensures s == State(FIRST_LOG, Some(Process(binding, Serving(map[], map[], map[], {}))))
  {
    var s0;
    steps, s0 := FirstServing(binding);
    OpenedBoard();
    TidyMore(steps, Do(Around(AcquireGeneration("g", "a"))), binding);
    steps, s := Extend(steps, s0, Do(Around(AcquireGeneration("g", "a"))));
    assert s.log == [OwnerOpened(1)] + [Generation(Acquire, "g", "a")];
  }

  /** What the log says of the one envelope of these runs. */
  predicate Only(b: Board, records: seq<EnvelopeRecord>) {
    && b.reserved == 1 && b.owners == 1 && GateOf(b, "g") == Open("a")
    && Look(b, 1).records == records && Look(b, 1).who.generation == "g" && Look(b, 1).survivors == []
  }

  function FirstStarted(binding: Binding): Log {
    FIRST_LOG + [Generation(Authority, "g", "a"), ReservedEvent(BoardOf(FIRST_LOG), binding, SOME_REQUEST)]
  }

  lemma StartedBoard(binding: Binding)
    ensures Only(BoardOf(FirstStarted(binding)), [Reserved])
  {
    var authority, reserved :=
        Generation(Authority, "g", "a"), ReservedEvent(BoardOf(FIRST_LOG), binding, SOME_REQUEST);
    AcquiredBoard();
    assert FirstStarted(binding) == FIRST_LOG + [authority] + [reserved];
    AppendOne(FIRST_LOG, authority);
    AppendOne(FIRST_LOG + [authority], reserved);
    assert [] + [Reserved] == [Reserved];
  }

  lemma StartPossible(s: State, binding: Binding)
    requires s == State(FIRST_LOG, Some(Process(binding, Serving(map[], map[], map[], {}))))
    ensures var start := Do(Start(SOME_REQUEST, [], []));
            && Possible(s, start)
            && After(s, start)
               == State(FirstStarted(binding),
                        Some(Process(binding, Serving(map[1 := SOME_REQUEST], map[], map[], {}))))
  {
    AcquiredBoard();
    var b, start := BoardOf(FIRST_LOG), Do(Start(SOME_REQUEST, [], []));
    assert map[][1 := SOME_REQUEST] == map[1 := SOME_REQUEST];
    assert Events(s, start.move)
           == [] + ([Generation(Authority, "g", "a")] + ([] + [ReservedEvent(b, binding, SOME_REQUEST)]));
  }

  /** Its first envelope, between its two locks. */
  lemma FirstStart(binding: Binding) returns (before: seq<Step>, steps: seq<Step>, s: State)
    ensures Run(steps) == Some(s) && Tidy(before, binding) && steps == before + [Do(Start(SOME_REQUEST, [], []))]
    ensures s.owner == Some(Process(binding, Serving(map[1 := SOME_REQUEST], map[], map[], {})))
    ensures Only(BoardOf(s.log), [Reserved])
  {
    var s0;
    before, s0 := FirstOwner(binding);
    StartPossible(s0, binding);
    StartedBoard(binding);
    steps, s := Extend(before, s0, Do(Start(SOME_REQUEST, [], [])));
  }

  /** The process of these runs, with its one handle at `pc`. */
  function At(binding: Binding, pc: Pc): Option<Process> {
    Some(Process(binding, Serving(map[], map[1 := Handle(SOME_REQUEST, false, pc)], map[], {})))
  }

  /** Its first envelope, registered. */
  lemma FirstHandle(binding: Binding) returns (steps: seq<Step>, s: State)
    ensures Run(steps) == Some(s) && Tidy(steps, binding) && s.owner == At(binding, Preparing)
    ensures Only(BoardOf(s.log), [Reserved])
  {
    var before, s0;
    before, steps, s0 := FirstStart(binding);
    TidyStart(before, Do(Start(SOME_REQUEST, [], [])), Do(Thread(1, Register)), binding);
    steps, s := Act(steps, s0, 1, Register);
    assert s.log == s0.log;
    assert map[1 := SOME_REQUEST] - {1} == map[];
    assert s.owner.value.phase.handles == map[1 := Handle(SOME_REQUEST, false, Preparing)];
  }

  const SOME_BINDING: Binding := Binding("i", "m", "c", "linux/arm64")

  /** A close that misses a start is reachable. */
  lemma CloseCanMissAStart() returns (steps: seq<Step>)
    ensures Run(steps).Some? && Records(Run(steps).value.log, 1) == [Reserved]
    ensures steps != [] && steps[|steps| - 1] == Do(CloseCall(1, Return))
  {
    var before, s, idle, s';
    before, steps, s := FirstStart(SOME_BINDING);
    idle, steps, s' := CloseMissesAStart(steps, s, 1, 1);
  }

  /** The first envelope's thread fails before it has done anything. */
  lemma FirstFailure() returns (steps: seq<Step>, s: State)
    ensures Run(steps) == Some(s) && Tidy(steps, SOME_BINDING) && Only(BoardOf(s.log), [Reserved])
    ensures s.owner == Some(Process(SOME_BINDING, Serving(map[], map[], map[], {1})))
  {
    var s0;
    steps, s0 := FirstHandle(SOME_BINDING);
    TidyMore(steps, Do(Thread(1, Abandon)), SOME_BINDING);
    steps, s := Act(steps, s0, 1, Abandon);
    assert s.log == s0.log;
    assert map[1 := Handle(SOME_REQUEST, false, Preparing)] - {1} == map[];
    assert {} + {1} == {1};
  }

  /** So is one that misses an envelope whose thread failed, though every start registered at once. */
  lemma CloseCanMissAFailure() returns (steps: seq<Step>)
    ensures Run(steps).Some? && StartsAtOnce(steps) && Records(Run(steps).value.log, 1) == [Reserved]
    ensures steps != [] && steps[|steps| - 1] == Do(CloseCall(1, Return))
  {
    var s, s';
    steps, s := FirstFailure();
    LookRecords(s.log, 1);
    var close, snapshot := Do(CloseCall(1, CloseAndFence("g"))), Do(CloseCall(1, TakeSnapshot));
    TidyMore(steps, close, SOME_BINDING);
    TidyMore(steps + [close], snapshot, SOME_BINDING);
    TidyMore(steps + [close] + [snapshot], Do(CloseCall(1, Return)), SOME_BINDING);
    steps, s' := CloseAlone(steps, s, "g", 1);
  }

  // ---------------------------------------------------------------- what takeover does not look at again

  /** One more event about the one envelope. */
  lemma OnlyMore(log: Log, e: Event, records: seq<EnvelopeRecord>)
    requires Only(BoardOf(log), records) && !IsRecord(e, Reserved) && !e.OwnerOpened?
    requires e.Envelope? ==> e.envelope == 1 && e.who.generation == "g"
    requires e.Observed? ==> e.lifecycle.afterKill == []
    requires e.Generation? ==> e.kind == Authority
    ensures Only(BoardOf(log + [e]), if e.Envelope? then records + [e.record] else records)
  {
    AppendOne(log, e);
    AdvanceLook(BoardOf(log), e, 1);
  }

  const DIRTY: Observation := Observation(Exited, "c", false, Some(Lifecycle([], false)))

  lemma NextAt(binding: Binding, pc: Pc, m: Threading, pc': Pc)
    requires !m.Register? && HandleNext(Handle(SOME_REQUEST, false, pc), m) == Some(Handle(SOME_REQUEST, false, pc'))
    ensures Some(ThreadNext(At(binding, pc).value, 1, m)) == At(binding, pc')
  {
    var h, h' := Handle(SOME_REQUEST, false, pc), Handle(SOME_REQUEST, false, pc');
    assert map[1 := h][1 := h'] == map[1 := h'];
  }

  lemma FirstPrepared(binding: Binding) returns (steps: seq<Step>, s: State)
    ensures Run(steps) == Some(s) && Only(BoardOf(s.log), [Reserved]) && s.owner == At(binding, Prepared("c"))
  {
    var s0;
    steps, s0 := FirstHandle(binding);
    NextAt(binding, Preparing, PrepareReturns("c"), Prepared("c"));
    steps, s := Act(steps, s0, 1, PrepareReturns("c"));
    assert s.log == s0.log;
  }

  /** The first envelope's child runs. */
  lemma FirstRunning(binding: Binding) returns (steps: seq<Step>, s: State)
    ensures Run(steps) == Some(s) && Only(BoardOf(s.log), [Reserved, Launched]) && s.owner == At(binding, Running)
  {
    var s0;
    steps, s0 := FirstPrepared(binding);
    NextAt(binding, Prepared("c"), Launch, Running);
    steps, s := Act(steps, s0, 1, Launch);
    OnlyMore(s0.log, s.log[|s.log| - 1], [Reserved]);
    assert [Reserved] + [Launched] == [Reserved, Launched];
  }

  lemma FirstReturned(binding: Binding) returns (steps: seq<Step>, s: State)
    ensures Run(steps) == Some(s) && Only(BoardOf(s.log), [Reserved, Launched])
    ensures s.owner == At(binding, Recording(DIRTY, Observing))
  {
    var s0;
    steps, s0 := FirstRunning(binding);
    NextAt(binding, Running, LaunchReturns(DIRTY), Recording(DIRTY, Observing));
    steps, s := Act(steps, s0, 1, LaunchReturns(DIRTY));
    assert s.log == s0.log;
  }

  /** Its cleanup could not be completed, though no process was seen to survive. */
  lemma FirstDirty(binding: Binding) returns (steps: seq<Step>, s: State)
    ensures Run(steps) == Some(s) && Only(BoardOf(s.log), [Reserved, Launched])
    ensures s.owner == At(binding, Recording(DIRTY, Deciding))
  {
    var s0;
    steps, s0 := FirstReturned(binding);
    NextAt(binding, Recording(DIRTY, Observing), Observe, Recording(DIRTY, Deciding));
    steps, s := Act(steps, s0, 1, Observe);
    OnlyMore(s0.log, s.log[|s.log| - 1], [Reserved, Launched]);
  }

  /** Its RESULT then says so. */
  lemma FirstDirtyResult(binding: Binding) returns (steps: seq<Step>, s: State)
    ensures Run(steps) == Some(s) && Only(BoardOf(s.log), [Reserved, Launched, Result]) && s.log != []
    ensures var e := s.log[|s.log| - 1]; IsRecord(e, Result) && e.envelope == 1 && !e.cleanupComplete
  {
    var s0;
    steps, s0 := FirstDirty(binding);
    steps, s := Act(steps, s0, 1, Commit);
    DirtyBoard(s0.log, binding);
  }

  lemma DirtyBoard(log: Log, binding: Binding)
    requires Only(BoardOf(log), [Reserved, Launched])
    ensures Only(BoardOf(log + ResultEvents(BoardOf(log), binding, 1, DIRTY)), [Reserved, Launched, Result])
  {
    var es := ResultEvents(BoardOf(log), binding, 1, DIRTY);
    assert log + es == log + [es[0]] + [es[1]];
    OnlyMore(log, es[0], [Reserved, Launched]);
    OnlyMore(log + [es[0]], es[1], [Reserved, Launched]);
    assert [Reserved, Launched] + [Result] == [Reserved, Launched, Result];
  }

  /** The owner dies and the next one opens. */
  lemma Reopened(binding: Binding) returns (before: seq<Step>, steps: seq<Step>, s: State, log: Log)
    ensures Run(steps) == Some(s) && steps == before + [Do(OpenOwner(binding))]
    ensures s == State(log + [OwnerOpened(2)], Some(Process(binding, Opening)))
    ensures Only(BoardOf(log), [Reserved, Launched, Result]) && log != []
    ensures var e := log[|log| - 1]; IsRecord(e, Result) && e.envelope == 1 && !e.cleanupComplete
  {
    var s0, s1;
    before, s0 := FirstDirtyResult(binding);
    log := s0.log;
    before, s1 := Extend(before, s0, Crash(Around(AppendForeign), 0));
    assert s1 == State(log, None);
    steps, s := Extend(before, s1, Do(OpenOwner(binding)));
  }

  /** It finds nothing to examine. */
  lemma Resurveyed(binding: Binding) returns (before: seq<Step>, steps: seq<Step>, s: State, log: Log)
    ensures Run(steps) == Some(s) && steps == before + [Do(OpenOwner(binding))] + [Do(TakeOver(Survey([])))]
    ensures s == State(log, Some(Process(binding, Reconciling([])))) && |log| >= 2
    ensures var e := log[|log| - 2]; IsRecord(e, Result) && e.envelope == 1 && !e.cleanupComplete
  {
    var s0;
    before, steps, s0, log := Reopened(binding);
    NothingToExamine(steps, log);
    log := s0.log;
    steps, s := SurveyNone(steps, s0);
  }

  /**
    A result with an incomplete cleanup that takeover does not look at again: after the owner dies
    the next one finds nothing to examine and serves.
   */
  lemma TakeoverIgnores(binding: Binding) returns (before: seq<Step>, steps: seq<Step>, k: nat)
    ensures steps == before + [Do(OpenOwner(binding))] + [Do(TakeOver(Survey([])))] + [Do(TakeOver(BeginServing))]
    ensures Run(steps).Some? && k < |Run(steps).value.log|
    ensures var e := Run(steps).value.log[k]; IsRecord(e, Result) && e.envelope == 1 && !e.cleanupComplete
  {
    var s0, s, log;
    before, steps, s0, log := Resurveyed(binding);
    k := |log| - 2;
    steps, s := Extend(steps, s0, Do(TakeOver(BeginServing)));
    assert s.log == log;
  }

  lemma NothingToExamine(steps: seq<Step>, log: Log)
    requires Run(steps).Some? && Run(steps).value.log == log + [OwnerOpened(2)]
    requires Only(BoardOf(log), [Reserved, Launched, Result])
    ensures Worklist(BoardOf(Run(steps).value.log)) == []
  {
    var b := BoardOf(log + [OwnerOpened(2)]);
    RunKeeps(steps);
    GoodBoard(log + [OwnerOpened(2)]);
    AppendOne(log, OwnerOpened(2));
    AdvanceLook(BoardOf(log), OwnerOpened(2), 1);
    OneSettled(b);
  }

  /** With one envelope, finished and without survivors, nothing is to be examined. */
  lemma OneSettled(b: Board)
    requires BoardInv(b) && b.reserved == 1 && Settled(Look(b, 1))
    ensures Worklist(b) == []
  {
    assert Worklist(b) != [] ==> Worklist(b)[0] in Worklist(b);
    WorklistFacts(b);
    forall env ensures Settled(Look(b, env)) {
      assert ViewInv(b, env);
    }
  }

  // ---------------------------------------------------------------- a result after a failed launch

  const UNLAUNCHED: Observation := Observation(LaunchFailed, "", true, None)

  lemma FirstRefused(binding: Binding) returns (steps: seq<Step>, s: State)
    ensures Run(steps) == Some(s) && Tidy(steps, binding) && Only(BoardOf(s.log), [Reserved])
    ensures s.owner == At(binding, Recording(UNLAUNCHED, Observing))
  {
    var s0;
    steps, s0 := FirstHandle(binding);
    TidyMore(steps, Do(Thread(1, PrepareFails)), binding);
    NextAt(binding, Preparing, PrepareFails, Recording(UNLAUNCHED, Observing));
    steps, s := Act(steps, s0, 1, PrepareFails);
    assert s.log == s0.log;
  }

  lemma FirstDecided(binding: Binding) returns (steps: seq<Step>, s: State)
    ensures Run(steps) == Some(s) && Tidy(steps, binding) && Only(BoardOf(s.log), [Reserved])
    ensures s.owner == At(binding, Recording(UNLAUNCHED, Deciding))
  {
    var s0;
    steps, s0 := FirstRefused(binding);
    TidyMore(steps, Do(Thread(1, Observe)), binding);
    NextAt(binding, Recording(UNLAUNCHED, Observing), Observe, Recording(UNLAUNCHED, Deciding));
    steps, s := Act(steps, s0, 1, Observe);
    assert s.log == s0.log;
  }

  /** The shortest way to a result: the launch fails. */
  lemma FirstResult(binding: Binding) returns (steps: seq<Step>, k: nat)
    ensures Run(steps).Some? && OwnersBind(steps, binding)
    ensures k < |Run(steps).value.log| && IsRecord(Run(steps).value.log[k], Result)
  {
    var s0, s;
    steps, s0 := FirstDecided(binding);
    TidyMore(steps, Do(Thread(1, Commit)), binding);
    steps, s := Act(steps, s0, 1, Commit);
    k := |s.log| - 1;
  }
}
