/** What every move of the executor protocol keeps, and the theorems over all of its runs. */
module ExecutorInvariant {
  import opened Prelude
  import opened ExecutorLog
  import opened ExecutorProtocol

  // ---------------------------------------------------------------- the invariant

  predicate Matches(v: View, request: Request) {
    v.who == request.who && v.declared == request.declared
  }

  /** The envelope has not been observed by the present owner. */
  predicate Fresh(b: Board, env: nat) {
    b.owners !in Look(b, env).observedIn
  }

  predicate ItemInv(b: Board, item: Item, first: bool) {
    var v := Look(b, item.envelope);
    && ReconcileReports(v.cgroup, item.observation)
    && (item.stage == Observing ==> Fresh(b, item.envelope))
    && (!first ==> item.stage == Observing)
    && (if item.residue
        then Terminal(v) && Launched in v.records && item.stage == Observing
        else
          && Unfinished(v.records)
          && (item.stage == Discarding ==> GateOf(b, v.who.generation).Shut?)
          && (item.stage != Observing && item.observation.cleanupComplete ==> v.survivors == []))
  }

  /** An envelope takeover has nothing left to do for. */
  predicate Settled(v: View) {
    Known(v) ==> Terminal(v) && v.survivors == []
  }

  predicate InTodo(todo: seq<Item>, env: nat) {
    exists i :: 0 <= i < |todo| && todo[i].envelope == env
  }

  ghost predicate ReconcilingInv(b: Board, todo: seq<Item>) {
    && (forall i, j :: 0 <= i < j < |todo| ==> todo[i].envelope != todo[j].envelope)
    && (forall i :: 0 <= i < |todo| ==> ItemInv(b, todo[i], i == 0))
    && (forall env :: !InTodo(todo, env) ==> Settled(Look(b, env)))
  }

  predicate StartInv(b: Board, env: nat, request: Request) {
    Look(b, env).records == [Reserved] && Matches(Look(b, env), request) && Fresh(b, env)
  }

  predicate HandleInv(b: Board, env: nat, h: Handle) {
    var v := Look(b, env);
    && Matches(v, h.request)
    && (match h.pc
        case Preparing => v.records == [Reserved] && Fresh(b, env)
        case Prepared(cgroup) => v.records == [Reserved] && Fresh(b, env) && cgroup != ""
        case Running => v.records == [Reserved, Launched] && Fresh(b, env)
        case Recording(o, stage) =>
          && Unfinished(v.records)
          && (v.records == [Reserved] ==> o.outcome == LaunchFailed && o.lifecycle.None?)
          && (stage == Observing ==> Fresh(b, env))
          && (stage == Discarding ==> GateOf(b, v.who.generation).Shut?))
  }

  predicate Of(v: View, generation: string) {
    Known(v) && v.who.generation == generation
  }

  ghost predicate CloserInv(b: Board, starting: set<nat>, closer: Closer) {
    && GateOf(b, closer.generation).Shut?
    && (forall env :: Of(Look(b, env), closer.generation) ==> Look(b, env).fence != 0)
    && (closer.snapshot.Some? ==>
          var snapshot := closer.snapshot.value;
          && snapshot.awaited !! starting
          && (forall env :: env in snapshot.awaited ==> Known(Look(b, env)))
          && forall env :: Of(Look(b, env), closer.generation)
                           ==> Terminal(Look(b, env)) || env in snapshot.awaited || env in snapshot.missed)
  }

  ghost predicate ClosersInv(b: Board, phase: Phase)
    requires phase.Serving?
  {
    forall token :: token in phase.closers ==> CloserInv(b, phase.starting.Keys, phase.closers[token])
  }

  ghost predicate ServingInv(b: Board, phase: Phase)
    requires phase.Serving?
  {
    && (forall env :: env in phase.starting ==> StartInv(b, env, phase.starting[env]))
    && (forall env :: env in phase.handles ==> HandleInv(b, env, phase.handles[env]))
    && (forall env :: env in phase.abandoned ==> Known(Look(b, env)))
    && phase.starting.Keys !! phase.handles.Keys && phase.starting.Keys !! phase.abandoned
    && (forall env :: Known(Look(b, env)) && !Terminal(Look(b, env))
                      ==> env in phase.starting || env in phase.handles || env in phase.abandoned)
  }

  ghost predicate ProcessInv(b: Board, p: Process) {
    && 1 <= b.owners
    && match p.phase
       case Opening => forall env :: Fresh(b, env)
       case Reconciling(todo) => ReconcilingInv(b, todo)
       case Serving(_, _, _, _) => ServingInv(b, p.phase) && ClosersInv(b, p.phase)
  }

  ghost predicate Inv(s: State) {
    Good(s.log) && (s.owner.Some? ==> ProcessInv(BoardOf(s.log), s.owner.value))
  }

  // ---------------------------------------------------------------- what an event leaves alone

  /** From `b` to `b'` nothing moved but one envelope's view and still-open gates. */
  ghost predicate OnlyAbout(b: Board, b': Board, env: nat) {
    && b'.owners == b.owners
    && (forall other :: other != env ==> Look(b', other) == Look(b, other))
    && (forall g :: GateOf(b, g).Shut? ==> GateOf(b', g) == GateOf(b, g))
  }

  /** One envelope's facts only grow: known stays known, fenced stays fenced, finished stays finished. */
  predicate Grows(v: View, v': View) {
    && (Known(v) ==> Known(v') && v'.who == v.who)
    && (v.fence != 0 ==> v'.fence != 0)
    && (Terminal(v) ==> Terminal(v'))
  }

  /** What a close in progress relies on survives growth that adds nothing to its generation. */
  lemma CloserKeeps(b: Board, b': Board, starting: set<nat>, starting': set<nat>, closer: Closer)
    requires CloserInv(b, starting, closer)
    requires GateOf(b', closer.generation) == GateOf(b, closer.generation)
    requires forall env :: Grows(Look(b, env), Look(b', env))
    requires forall env :: Of(Look(b', env), closer.generation) ==> Known(Look(b, env))
    requires forall env :: env in starting' ==> env in starting || !Known(Look(b, env))
    ensures CloserInv(b', starting', closer)
  {
    forall env | Of(Look(b', env), closer.generation)
      ensures Look(b', env).fence != 0 && Of(Look(b, env), closer.generation)
    {
      assert Grows(Look(b, env), Look(b', env));
    }
    if closer.snapshot.Some? {
      forall env | env in closer.snapshot.value.awaited ensures Known(Look(b', env)) && env !in starting' {
        assert Grows(Look(b, env), Look(b', env));
      }
      forall env | Of(Look(b', env), closer.generation)
        ensures Terminal(Look(b', env)) || env in closer.snapshot.value.awaited || env in closer.snapshot.value.missed
      {
        assert Grows(Look(b, env), Look(b', env));
      }
    }
  }

  /** The surroundings' events move no view and reopen no gate. */
  lemma QuietAbout(b: Board, e: Event)
    requires Allowed(b, e) && (e.Generation? || e.Foreign?)
    ensures var b' := Advance(b, e);
            && OnlyAbout(b, b', 0) && b'.reserved == b.reserved
            && (forall env :: Look(b', env) == Look(b, env))
  {}

  lemma QuietKeeps(b: Board, b': Board, p: Process)
    requires ProcessInv(b, p)
    requires OnlyAbout(b, b', 0) && forall env :: Look(b', env) == Look(b, env)
    ensures ProcessInv(b', p)
  {
    match p.phase {
      case Opening => forall env ensures Fresh(b', env) { assert Fresh(b, env); }
      case Reconciling(todo) =>
        forall i | 0 <= i < |todo| ensures ItemInv(b', todo[i], i == 0) { assert ItemInv(b, todo[i], i == 0); }
      case Serving(starting, handles, closers, _) =>
        forall env | env in starting ensures StartInv(b', env, starting[env])
        { assert StartInv(b, env, starting[env]); }
        forall env | env in handles ensures HandleInv(b', env, handles[env]) { assert HandleInv(b, env, handles[env]); }
        forall token | token in closers ensures CloserInv(b', starting.Keys, closers[token]) {
          CloserKeeps(b, b', starting.Keys, starting.Keys, closers[token]);
        }
    }
  }

  /** One event about one envelope, and what it does to that envelope's view. */
  lemma OneAbout(b: Board, e: Event)
    requires AboutSome(e)
    ensures var b' := Advance(b, e);
            && OnlyAbout(b, b', e.envelope) && b'.gates == b.gates
            && Look(b', e.envelope) == LookStep(Look(b, e.envelope), e)
  {}

  /** The fence's own events are allowed whenever the fence writes them. */
  lemma AuthorityKeeps(b: Board, generation: string, p: Process)
    requires ProcessInv(b, p) && !GateOf(b, generation).Unknown?
    ensures var e := AuthorityEvent(b, generation);
            var b' := Advance(b, e);
            && Allowed(b, e) && ProcessInv(b', p) && b'.owners == b.owners
            && (forall g :: GateOf(b', g) == GateOf(b, g))
            && (forall env :: Look(b', env) == Look(b, env))
  {
    QuietAbout(b, AuthorityEvent(b, generation));
    QuietKeeps(b, Advance(b, AuthorityEvent(b, generation)), p);
  }

  // ---------------------------------------------------------------- taking over

  lemma OpenKeeps(b: Board, binding: Binding)
    requires BoardInv(b)
    ensures var e := OwnerOpened(b.owners + 1);
            Allowed(b, e) && ProcessInv(Advance(b, e), Process(binding, Opening))
  {
    var b' := Advance(b, OwnerOpened(b.owners + 1));
    forall env ensures Fresh(b', env) {
      assert ViewInv(b, env);
    }
  }

  /** The two filters keep order and select exactly what they name. */
  lemma {:induction false} FilterFacts(b: Board, envs: seq<nat>)
    requires Distinct(envs)
    ensures var us, rs := Unresolved(b, envs), Residue(b, envs);
            && (forall env :: env in us <==> env in envs && !Terminal(Look(b, env)))
            && (forall env :: env in rs <==> env in envs && Terminal(Look(b, env)) && Look(b, env).survivors != [])
            && Distinct(us) && Distinct(rs)
  {
    if envs != [] {
      FilterFacts(b, envs[1..]);
      assert forall env :: env in envs <==> env == envs[0] || env in envs[1..];
    }
  }

  /** Takeover's worklist: every unfinished envelope and every finished one with survivors, once each. */
  lemma WorklistFacts(b: Board)
    requires BoardInv(b)
    ensures Distinct(Worklist(b))
    ensures forall env :: env in Worklist(b) <==> !Settled(Look(b, env))
  {
    FilterFacts(b, b.order);
    FilterFacts(b, b.observedOrder);
    var us, rs := Unresolved(b, b.order), Residue(b, b.observedOrder);
    forall i, j | 0 <= i < |us| && 0 <= j < |rs| ensures us[i] != rs[j] {
      assert us[i] in us && rs[j] in rs;
    }
    forall env ensures env in Worklist(b) <==> !Settled(Look(b, env)) {
      assert ViewInv(b, env);
      assert env in b.order <==> Known(Look(b, env));
    }
  }

  lemma SurveyKeeps(b: Board, p: Process, observations: seq<Observation>)
    requires BoardInv(b) && ProcessInv(b, p) && TakeoverEnabled(b, p, Survey(observations))
    ensures ReconcilingInv(b, Items(b, Worklist(b), observations))
  {
    var w := Worklist(b);
    var todo := Items(b, w, observations);
    WorklistFacts(b);
    forall i | 0 <= i < |todo| ensures ItemInv(b, todo[i], i == 0) {
      assert w[i] in w;
      assert ViewInv(b, w[i]);
      assert Fresh(b, w[i]);
    }
    forall env | !InTodo(todo, env) ensures Settled(Look(b, env)) {
      forall i | 0 <= i < |w| ensures w[i] != env {
        assert todo[i].envelope == w[i];
      }
    }
  }

  /** The first item leaves a worklist whose other items and outside envelopes did not move. */
  lemma ItemLeaves(b: Board, b': Board, todo: seq<Item>)
    requires todo != [] && ReconcilingInv(b, todo)
    requires OnlyAbout(b, b', todo[0].envelope) && Settled(Look(b', todo[0].envelope))
    ensures ReconcilingInv(b', todo[1..])
  {
    var rest := todo[1..];
    forall i | 0 <= i < |rest| ensures ItemInv(b', rest[i], i == 0) {
      assert ItemInv(b, todo[i + 1], false);
      assert todo[0].envelope != todo[i + 1].envelope;
    }
    forall env | !InTodo(rest, env) ensures Settled(Look(b', env)) {
      if env != todo[0].envelope {
        forall i | 0 <= i < |todo| ensures todo[i].envelope != env {
          assert i > 0 ==> todo[i] == rest[i - 1];
        }
        assert !InTodo(todo, env);
      }
    }
  }

  lemma ItemStays(b: Board, b': Board, todo: seq<Item>, i: nat)
    requires 0 < i < |todo| && ReconcilingInv(b, todo) && OnlyAbout(b, b', todo[0].envelope)
    ensures ItemInv(b', todo[i], false)
  {
    assert ItemInv(b, todo[i], false);
    assert todo[0].envelope != todo[i].envelope;
  }

  lemma SameTodo(todo: seq<Item>, todo': seq<Item>, env: nat)
    requires |todo| == |todo'| && forall i :: 0 <= i < |todo| ==> todo[i].envelope == todo'[i].envelope
    requires todo != [] && !InTodo(todo', env)
    ensures !InTodo(todo, env) && todo[0].envelope != env
  {
    forall i | 0 <= i < |todo| ensures todo[i].envelope != env {
      assert todo'[i].envelope != env;
    }
    assert todo[0].envelope != env;
  }

  /** The first item moves on to another stage. */
  lemma ItemMoves(b: Board, b': Board, todo: seq<Item>, stage: Stage)
    requires todo != [] && ReconcilingInv(b, todo)
    requires OnlyAbout(b, b', todo[0].envelope) && ItemInv(b', todo[0].(stage := stage), true)
    ensures ReconcilingInv(b', [todo[0].(stage := stage)] + todo[1..])
  {
    var todo' := [todo[0].(stage := stage)] + todo[1..];
    assert forall i :: 0 < i < |todo'| ==> todo'[i] == todo[i];
    forall i | 0 <= i < |todo'| ensures ItemInv(b', todo'[i], i == 0) {
      if i > 0 {
        ItemStays(b, b', todo, i);
      }
    }
    forall env | !InTodo(todo', env) ensures Settled(Look(b', env)) {
      SameTodo(todo, todo', env);
    }
  }

  /** The events are allowed and the process that follows them keeps its invariant. */
  ghost predicate Kept(b: Board, events: Log, next: Option<Process>) {
    Allows(b, events) && (next.Some? ==> ProcessInv(AdvanceAll(b, events), next.value))
  }

  lemma ItemObserveKeeps(b: Board, p: Process)
    requires BoardInv(b) && ProcessInv(b, p) && TakeoverEnabled(b, p, ItemObserve)
    ensures Kept(b, TakeoverEvents(b, p, ItemObserve), TakeoverNext(b, p, ItemObserve))
  {
    var todo := p.phase.todo;
    var item, o, env := todo[0], todo[0].observation, todo[0].envelope;
    assert ItemInv(b, item, true);
    assert ViewInv(b, env);
    if o.lifecycle.Some? {
      var e := Observed(b.owners, env, Look(b, env).who, o.lifecycle.value);
      Allows1(b, e);
      OneAbout(b, e);
      if !item.residue {
        ItemMoves(b, Advance(b, e), todo, Deciding);
      } else if o.cleanupComplete {
        ItemLeaves(b, Advance(b, e), todo);
      }
    } else {
      ItemMoves(b, b, todo, Deciding);
    }
  }

  lemma ItemCommitKeeps(b: Board, p: Process)
    requires BoardInv(b) && ProcessInv(b, p) && TakeoverEnabled(b, p, ItemCommit)
    ensures Kept(b, TakeoverEvents(b, p, ItemCommit), TakeoverNext(b, p, ItemCommit))
  {
    var item, env := p.phase.todo[0], p.phase.todo[0].envelope;
    assert ItemInv(b, item, true);
    var g := Look(b, env).who.generation;
    AuthorityKeeps(b, g, p);
    var es := ResultEvents(b, p.binding, env, item.observation);
    var b1 := Advance(b, es[0]);
    Allows2(b, es[0], es[1]);
    OneAbout(b1, es[1]);
    if item.observation.cleanupComplete {
      ItemLeaves(b1, Advance(b1, es[1]), p.phase.todo);
    }
  }

  lemma ItemLateKeeps(b: Board, p: Process)
    requires BoardInv(b) && ProcessInv(b, p) && TakeoverEnabled(b, p, ItemLate)
    ensures Kept(b, TakeoverEvents(b, p, ItemLate), TakeoverNext(b, p, ItemLate))
  {
    var item, env := p.phase.todo[0], p.phase.todo[0].envelope;
    assert ItemInv(b, item, true);
    assert ViewInv(b, env);
    var g := Look(b, env).who.generation;
    AuthorityKeeps(b, g, p);
    Allows1(b, AuthorityEvent(b, g));
    var b' := Advance(b, AuthorityEvent(b, g));
    ItemMoves(b', b', p.phase.todo, Discarding);
  }

  lemma ItemDiscardKeeps(b: Board, p: Process)
    requires BoardInv(b) && ProcessInv(b, p) && TakeoverEnabled(b, p, ItemDiscard)
    ensures Kept(b, TakeoverEvents(b, p, ItemDiscard), TakeoverNext(b, p, ItemDiscard))
  {
    var item, env := p.phase.todo[0], p.phase.todo[0].envelope;
    assert ItemInv(b, item, true);
    var d := DiscardedEvent(b, p.binding, env, item.observation);
    Allows1(b, d);
    OneAbout(b, d);
    if item.observation.cleanupComplete {
      ItemLeaves(b, Advance(b, d), p.phase.todo);
    }
  }

  /** When takeover's worklist is empty, no envelope is unfinished and none left a process behind. */
  lemma TakeoverSettles(b: Board, p: Process)
    requires ProcessInv(b, p) && TakeoverEnabled(b, p, BeginServing)
    ensures forall env :: Settled(Look(b, env))
  {
    forall env ensures Settled(Look(b, env)) {
      assert !InTodo(p.phase.todo, env);
    }
  }

  lemma TakeoverKeeps(b: Board, p: Process, m: Takeover)
    requires BoardInv(b) && ProcessInv(b, p) && TakeoverEnabled(b, p, m)
    ensures Kept(b, TakeoverEvents(b, p, m), TakeoverNext(b, p, m))
  {
    match m {
      case Survey(observations) => SurveyKeeps(b, p, observations);
      case ItemRefuse => {}
      case ItemObserve => ItemObserveKeeps(b, p);
      case ItemCommit => ItemCommitKeeps(b, p);
      case ItemLate => ItemLateKeeps(b, p);
      case ItemDiscard => ItemDiscardKeeps(b, p);
      case BeginServing => TakeoverSettles(b, p);
    }
  }

  // ---------------------------------------------------------------- starting an envelope

  /** A newly reserved envelope joins the starts. */
  lemma StartJoins(b: Board, b': Board, p: Process, env: nat, request: Request)
    requires p.phase.Serving? && ProcessInv(b, p)
    requires OnlyAbout(b, b', env) && !Known(Look(b, env)) && Look(b, env).fence == 0
    requires StartInv(b', env, request)
    requires forall token :: token in p.phase.closers ==> p.phase.closers[token].generation != request.who.generation
    ensures ProcessInv(b', p.(phase := p.phase.(starting := p.phase.starting[env := request])))
  {
    var starting, starting' := p.phase.starting, p.phase.starting[env := request];
    forall other ensures Grows(Look(b, other), Look(b', other)) {}
    forall token | token in p.phase.closers ensures CloserInv(b', starting'.Keys, p.phase.closers[token]) {
      CloserKeeps(b, b', starting.Keys, starting'.Keys, p.phase.closers[token]);
    }
    forall other | other in starting' ensures StartInv(b', other, starting'[other]) {
      assert other != env ==> StartInv(b, other, starting[other]);
    }
    forall other | other in p.phase.handles ensures HandleInv(b', other, p.phase.handles[other]) {
      assert HandleInv(b, other, p.phase.handles[other]);
    }
  }

  predicate NoCloser(phase: Phase, generation: string)
    requires phase.Serving?
  {
    forall token :: token in phase.closers ==> phase.closers[token].generation != generation
  }

  lemma ReservedKeeps(b: Board, p: Process, request: Request)
    requires ViewInv(b, b.reserved + 1) && p.phase.Serving? && ProcessInv(b, p)
    requires !GateOf(b, request.who.generation).Unknown? && NoCloser(p.phase, request.who.generation)
    ensures var e := ReservedEvent(b, p.binding, request);
            Allowed(b, e) && ProcessInv(Advance(b, e), StartNext(b, p, request))
  {
    var env, e := b.reserved + 1, ReservedEvent(b, p.binding, request);
    OneAbout(b, e);
    var b' := Advance(b, e);
    assert Look(b', env).records == [Reserved] by { assert [] + [Reserved] == [Reserved]; }
    assert StartInv(b', env, request);
    StartJoins(b, b', p, env, request);
  }

  /** From `b` to `b'` nothing moved that a start relies on. */
  ghost predicate Undisturbed(b: Board, b': Board, p: Process) {
    && ViewInv(b', b.reserved + 1) && b'.reserved == b.reserved && b'.owners == b.owners && ProcessInv(b', p)
    && (forall g :: !GateOf(b, g).Unknown? ==> !GateOf(b', g).Unknown?)
  }

  /** An event of the surroundings or the fence changes neither the counts nor the process. */
  lemma QuietUndisturbed(b: Board, e: Event, p: Process)
    requires ViewInv(b, b.reserved + 1) && ProcessInv(b, p)
    requires (e.Generation? || e.Foreign?) && Allowed(b, e)
    ensures Undisturbed(b, Advance(b, e), p)
  {
    QuietAbout(b, e);
    AdvanceViewInv(b, e, b.reserved + 1);
    QuietKeeps(b, Advance(b, e), p);
  }

  lemma {:induction false} SurroundingsKeep(b: Board, p: Process, ms: seq<Surrounding>)
    requires ViewInv(b, b.reserved + 1) && ProcessInv(b, p) && SurroundingsEnabled(b, ms)
    ensures Allows(b, SurroundingEvents(b, ms)) && Undisturbed(b, AdvanceAll(b, SurroundingEvents(b, ms)), p)
    decreases |ms|
  {
    if ms != [] {
      var e := SurroundingEvent(b, ms[0]);
      QuietUndisturbed(b, e, p);
      SurroundingsKeep(Advance(b, e), p, ms[1..]);
      assert SurroundingEvents(b, ms)[1..] == SurroundingEvents(Advance(b, e), ms[1..]);
    }
  }

  /** No close of the generation is in progress, because such a close would have found it closed. */
  lemma NoCloserYet(b: Board, p: Process, generation: string)
    requires p.phase.Serving? && ProcessInv(b, p) && Active(b, generation)
    ensures NoCloser(p.phase, generation)
  {
    forall token | token in p.phase.closers ensures p.phase.closers[token].generation != generation {
      assert CloserInv(b, p.phase.starting.Keys, p.phase.closers[token]);
    }
  }

  lemma SameReserve(b: Board, b': Board, p: Process, request: Request)
    requires p.phase.Serving? && b'.reserved == b.reserved && b'.owners == b.owners
    ensures ReservedEvent(b', p.binding, request) == ReservedEvent(b, p.binding, request)
    ensures StartNext(b', p, request) == StartNext(b, p, request)
  {}

  lemma KeptAfter(b: Board, xs: Log, ys: Log, next: Process)
    requires Allows(b, xs) && Kept(AdvanceAll(b, xs), ys, Some(next))
    ensures Kept(b, xs + ys, Some(next))
  {
    AllowsConcat(b, xs, ys);
  }

  /** A reservation after any events of the surroundings, once authority was asked for. */
  lemma ReserveAfter(b: Board, granted: Board, p: Process, request: Request, between: seq<Surrounding>)
    requires p.phase.Serving? && NoCloser(p.phase, request.who.generation) && Undisturbed(b, granted, p)
    requires !GateOf(granted, request.who.generation).Unknown? && SurroundingsEnabled(granted, between)
    ensures Kept(granted, SurroundingEvents(granted, between) + [ReservedEvent(b, p.binding, request)],
                 Some(StartNext(b, p, request)))
  {
    var ys, r := SurroundingEvents(granted, between), ReservedEvent(b, p.binding, request);
    SurroundingsKeep(granted, p, between);
    var b3 := AdvanceAll(granted, ys);
    SameReserve(b, b3, p, request);
    ReservedKeeps(b3, p, request);
    Allows1(b3, r);
    KeptAfter(granted, ys, [r], StartNext(b, p, request));
  }

  /** Authority, or its refusal, after any events of the surroundings. */
  lemma GrantKeeps(b: Board, p: Process, request: Request, before: seq<Surrounding>)
    requires ViewInv(b, b.reserved + 1) && ProcessInv(b, p) && SurroundingsEnabled(b, before)
    requires !GateOf(b, request.who.generation).Unknown?
    ensures var asked := AdvanceAll(b, SurroundingEvents(b, before));
            && Allows(b, SurroundingEvents(b, before)) && Allowed(asked, AuthorityEvent(asked, request.who.generation))
            && Undisturbed(b, Granted(b, request, before), p)
  {
    SurroundingsKeep(b, p, before);
    var asked := AdvanceAll(b, SurroundingEvents(b, before));
    QuietUndisturbed(asked, AuthorityEvent(asked, request.who.generation), p);
  }

  lemma StartKeeps(b: Board, p: Process, request: Request, before: seq<Surrounding>, between: seq<Surrounding>)
    requires ViewInv(b, b.reserved + 1) && ProcessInv(b, p) && StartEnabled(b, p, request, before, between)
    ensures Kept(b, StartEvents(b, p, request, before, between), Some(StartNext(b, p, request)))
  {
    var g, next := request.who.generation, StartNext(b, p, request);
    NoCloserYet(b, p, g);
    GrantKeeps(b, p, request, before);
    var xs, granted := SurroundingEvents(b, before), Granted(b, request, before);
    var asked := AdvanceAll(b, xs);
    var rest := SurroundingEvents(granted, between) + [ReservedEvent(b, p.binding, request)];
    ReserveAfter(b, granted, p, request, between);
    Allows1(asked, AuthorityEvent(asked, g));
    KeptAfter(asked, [AuthorityEvent(asked, g)], rest, next);
    KeptAfter(b, xs, [AuthorityEvent(asked, g)] + rest, next);
  }

  // ---------------------------------------------------------------- one envelope's thread

  /** One handle moves on; its envelope keeps its owner and its fence. */
  lemma HandleMoves(b: Board, b': Board, p: Process, env: nat, h: Handle)
    requires p.phase.Serving? && ProcessInv(b, p) && env in p.phase.handles
    requires OnlyAbout(b, b', env)
    requires Known(Look(b, env)) && Grows(Look(b, env), Look(b', env)) && !Terminal(Look(b', env))
    requires HandleInv(b', env, h)
    ensures ProcessInv(b', p.(phase := p.phase.(handles := p.phase.handles[env := h])))
  {
    var starting, handles' := p.phase.starting, p.phase.handles[env := h];
    forall token | token in p.phase.closers ensures CloserInv(b', starting.Keys, p.phase.closers[token]) {
      CloserKeeps(b, b', starting.Keys, starting.Keys, p.phase.closers[token]);
    }
    forall other | other in starting ensures StartInv(b', other, starting[other]) {
      assert StartInv(b, other, starting[other]);
    }
    forall other | other in handles' ensures HandleInv(b', other, handles'[other]) {
      assert other != env ==> HandleInv(b, other, p.phase.handles[other]);
    }
  }

  /** One handle finishes with its envelope terminal. */
  lemma HandleEnds(b: Board, b': Board, p: Process, env: nat)
    requires p.phase.Serving? && ProcessInv(b, p) && env in p.phase.handles
    requires OnlyAbout(b, b', env)
    requires Known(Look(b, env)) && Grows(Look(b, env), Look(b', env)) && Terminal(Look(b', env))
    ensures ProcessInv(b', p.(phase := p.phase.(handles := p.phase.handles - {env})))
  {
    var starting, handles' := p.phase.starting, p.phase.handles - {env};
    forall token | token in p.phase.closers ensures CloserInv(b', starting.Keys, p.phase.closers[token]) {
      CloserKeeps(b, b', starting.Keys, starting.Keys, p.phase.closers[token]);
    }
    forall other | other in starting ensures StartInv(b', other, starting[other]) {
      assert StartInv(b, other, starting[other]);
    }
    forall other | other in handles' ensures HandleInv(b', other, handles'[other]) {
      assert HandleInv(b, other, p.phase.handles[other]);
    }
  }

  ghost predicate ThreadKept(b: Board, p: Process, env: nat, m: Threading)
    requires ThreadEnabled(b, p, env, m)
  {
    Kept(b, ThreadEvents(b, p, env, m), Some(ThreadNext(p, env, m)))
  }

  /** Registering, giving up and cancelling touch only the process. */
  lemma RegisterKeeps(b: Board, p: Process, env: nat, m: Threading)
    requires BoardInv(b) && ProcessInv(b, p) && ThreadEnabled(b, p, env, m)
    requires m.Register? || m.Abandon? || m.Cancel?
    ensures ThreadKept(b, p, env, m)
  {
    var phase' := ThreadNext(p, env, m).phase;
    forall token | token in phase'.closers ensures CloserInv(b, phase'.starting.Keys, phase'.closers[token]) {
      CloserKeeps(b, b, p.phase.starting.Keys, phase'.starting.Keys, p.phase.closers[token]);
    }
    if m.Register? {
      assert StartInv(b, env, p.phase.starting[env]);
    } else {
      assert HandleInv(b, env, p.phase.handles[env]);
    }
    forall other | other in phase'.handles ensures HandleInv(b, other, phase'.handles[other]) {
      assert other != env ==> HandleInv(b, other, p.phase.handles[other]);
    }
  }

  /** The moves of a thread that write nothing. */
  lemma QuietMovesKeep(b: Board, p: Process, env: nat, m: Threading)
    requires BoardInv(b) && ProcessInv(b, p) && ThreadEnabled(b, p, env, m)
    requires m.PrepareFails? || m.PrepareReturns? || m.LaunchReturns?
    ensures ThreadKept(b, p, env, m)
  {
    assert HandleInv(b, env, p.phase.handles[env]);
    HandleMoves(b, b, p, env, HandleNext(p.phase.handles[env], m).value);
  }

  lemma LaunchKeeps(b: Board, p: Process, env: nat)
    requires BoardInv(b) && ProcessInv(b, p) && ThreadEnabled(b, p, env, Launch)
    ensures ThreadKept(b, p, env, Launch)
  {
    var h := p.phase.handles[env];
    assert HandleInv(b, env, h);
    var e := HandleEvents(b, p.binding, env, h, Launch)[0];
    Allows1(b, e);
    OneAbout(b, e);
    assert [Reserved] + [Launched] == [Reserved, Launched];
    HandleMoves(b, Advance(b, e), p, env, h.(pc := Running));
  }

  lemma ObserveKeeps(b: Board, p: Process, env: nat)
    requires BoardInv(b) && ProcessInv(b, p) && ThreadEnabled(b, p, env, Observe)
    ensures ThreadKept(b, p, env, Observe)
  {
    var h := p.phase.handles[env];
    assert HandleInv(b, env, h);
    var h' := h.(pc := h.pc.(stage := Deciding));
    if h.pc.observation.lifecycle.Some? {
      var e := ObservedEvents(b, env, h.pc.observation)[0];
      Allows1(b, e);
      OneAbout(b, e);
      HandleMoves(b, Advance(b, e), p, env, h');
    } else {
      HandleMoves(b, b, p, env, h');
    }
  }

  lemma CommitKeeps(b: Board, p: Process, env: nat)
    requires BoardInv(b) && ProcessInv(b, p) && ThreadEnabled(b, p, env, Commit)
    ensures ThreadKept(b, p, env, Commit)
  {
    assert HandleInv(b, env, p.phase.handles[env]);
    AuthorityKeeps(b, Look(b, env).who.generation, p);
    var es := ResultEvents(b, p.binding, env, p.phase.handles[env].pc.observation);
    var b1 := Advance(b, es[0]);
    Allows2(b, es[0], es[1]);
    OneAbout(b1, es[1]);
    HandleEnds(b1, Advance(b1, es[1]), p, env);
  }

  lemma LateKeeps(b: Board, p: Process, env: nat)
    requires BoardInv(b) && ProcessInv(b, p) && ThreadEnabled(b, p, env, Late)
    ensures ThreadKept(b, p, env, Late)
  {
    var h := p.phase.handles[env];
    assert HandleInv(b, env, h);
    assert ViewInv(b, env);
    var g := Look(b, env).who.generation;
    AuthorityKeeps(b, g, p);
    Allows1(b, AuthorityEvent(b, g));
    var b' := Advance(b, AuthorityEvent(b, g));
    HandleMoves(b', b', p, env, h.(pc := h.pc.(stage := Discarding)));
  }

  /** A discard is allowed where the thread takes it, and finishes its envelope. */
  lemma DiscardEnds(b: Board, binding: Binding, env: nat, h: Handle)
    requires BoardInv(b) && 1 <= b.owners && HandleInv(b, env, h) && h.pc.Recording? && h.pc.stage == Discarding
    ensures var d := DiscardedEvent(b, binding, env, h.pc.observation);
            var b' := Advance(b, d);
            && Allowed(b, d) && OnlyAbout(b, b', env)
            && Known(Look(b, env)) && Grows(Look(b, env), Look(b', env)) && Terminal(Look(b', env))
  {
    assert ViewInv(b, env);
    OneAbout(b, DiscardedEvent(b, binding, env, h.pc.observation));
  }

  lemma DiscardKeeps(b: Board, p: Process, env: nat)
    requires BoardInv(b) && ProcessInv(b, p) && ThreadEnabled(b, p, env, Discard)
    ensures ThreadKept(b, p, env, Discard)
  {
    var h := p.phase.handles[env];
    assert HandleInv(b, env, h);
    var d := DiscardedEvent(b, p.binding, env, h.pc.observation);
    DiscardEnds(b, p.binding, env, h);
    Allows1(b, d);
    HandleEnds(b, Advance(b, d), p, env);
  }

  lemma ThreadKeeps(b: Board, p: Process, env: nat, m: Threading)
    requires BoardInv(b) && ProcessInv(b, p) && ThreadEnabled(b, p, env, m)
    ensures ThreadKept(b, p, env, m)
  {
    match m {
      case Register => RegisterKeeps(b, p, env, m);
      case PrepareFails => QuietMovesKeep(b, p, env, m);
      case PrepareReturns(_) => QuietMovesKeep(b, p, env, m);
      case Launch => LaunchKeeps(b, p, env);
      case LaunchReturns(_) => QuietMovesKeep(b, p, env, m);
      case Observe => ObserveKeeps(b, p, env);
      case Commit => CommitKeeps(b, p, env);
      case Late => LateKeeps(b, p, env);
      case Discard => DiscardKeeps(b, p, env);
      case Abandon => RegisterKeeps(b, p, env, m);
      case Cancel => RegisterKeeps(b, p, env, m);
    }
  }

  // ---------------------------------------------------------------- closing a generation

  predicate FencedMore(v: View, v': View) {
    v' == v.(fence := v'.fence) && (v.fence != 0 ==> v'.fence != 0)
  }

  /** Nothing moved but fences. */
  ghost predicate OnlyFences(b: Board, b': Board) {
    && b'.owners == b.owners && b'.gates == b.gates
    && (forall env :: FencedMore(Look(b, env), Look(b', env)))
  }

  lemma OnlyFencesChain(a: Board, b: Board, c: Board)
    requires OnlyFences(a, b) && OnlyFences(b, c)
    ensures OnlyFences(a, c)
  {
    forall env ensures FencedMore(Look(a, env), Look(c, env)) {
      assert FencedMore(Look(a, env), Look(b, env)) && FencedMore(Look(b, env), Look(c, env));
    }
  }

  /** Fencing the listed envelopes one after another is allowed and fences each of them. */
  lemma {:induction false} FencesGood(b: Board, b1: Board, envs: seq<nat>, generation: string)
    requires GateOf(b, generation).Shut? && GateOf(b, generation).sequence != 0
    requires Distinct(envs)
    requires forall env :: env in envs ==> Known(Look(b, env)) && Look(b1, env) == Look(b, env)
    requires b1.owners == b.owners && b1.gates == b.gates
    ensures var es := FenceEvents(b, envs, generation);
            var end := AdvanceAll(b1, es);
            && Allows(b1, es) && OnlyFences(b1, end)
            && (forall env :: env in envs && Look(b, env).who.generation == generation ==> Look(end, env).fence != 0)
    decreases |envs|
  {
    if envs != [] {
      var env, rest := envs[0], envs[1..];
      var es := FenceEvents(b, envs, generation);
      var end := AdvanceAll(b1, es);
      if Look(b, env).who.generation == generation && Look(b, env).fence == 0 {
        var f := Fenced(b.owners, env, Look(b, env).who, GateOf(b, generation).sequence);
        OneAbout(b1, f);
        assert OnlyFences(b1, Advance(b1, f));
        FencesGood(b, Advance(b1, f), rest, generation);
        assert es[1..] == FenceEvents(b, rest, generation);
        OnlyFencesChain(b1, Advance(b1, f), end);
        assert FencedMore(Look(Advance(b1, f), env), Look(end, env));
      } else {
        FencesGood(b, b1, rest, generation);
        assert es == FenceEvents(b, rest, generation);
        assert FencedMore(Look(b1, env), Look(end, env));
      }
    }
  }

  /** Fences change nothing the serving process relies on. */
  lemma FencesKeep(b: Board, b': Board, p: Process)
    requires p.phase.Serving? && ProcessInv(b, p) && OnlyFences(b, b')
    ensures ProcessInv(b', p)
  {
    forall env ensures Grows(Look(b, env), Look(b', env)) && (Known(Look(b', env)) ==> Known(Look(b, env))) {
      assert FencedMore(Look(b, env), Look(b', env));
    }
    forall token | token in p.phase.closers ensures CloserInv(b', p.phase.starting.Keys, p.phase.closers[token]) {
      CloserKeeps(b, b', p.phase.starting.Keys, p.phase.starting.Keys, p.phase.closers[token]);
    }
    forall env | env in p.phase.starting ensures StartInv(b', env, p.phase.starting[env]) {
      assert StartInv(b, env, p.phase.starting[env]) && FencedMore(Look(b, env), Look(b', env));
    }
    forall env | env in p.phase.handles ensures HandleInv(b', env, p.phase.handles[env]) {
      assert HandleInv(b, env, p.phase.handles[env]) && FencedMore(Look(b, env), Look(b', env));
    }
    forall env | Known(Look(b', env)) && !Terminal(Look(b', env))
      ensures env in p.phase.starting || env in p.phase.handles || env in p.phase.abandoned
    {
      assert FencedMore(Look(b, env), Look(b', env));
    }
  }

  lemma CloseEventKeeps(b: Board, generation: string, p: Process)
    requires BoardInv(b) && p.phase.Serving? && ProcessInv(b, p) && !GateOf(b, generation).Unknown?
    ensures var closed := AdvanceAll(b, CloseEvents(b, generation));
            && Allows(b, CloseEvents(b, generation)) && BoardInv(closed) && ProcessInv(closed, p)
            && GateOf(closed, generation).Shut?
  {
    if GateOf(b, generation).Open? {
      var c := Generation(Close, generation, GateOf(b, generation).attempt);
      Allows1(b, c);
      QuietAbout(b, c);
      QuietKeeps(b, Advance(b, c), p);
      AdvanceInv(b, c);
    }
  }

  /** Closing under the lock leaves every envelope of the generation fenced. */
  lemma FenceAll(closed: Board, generation: string)
    requires BoardInv(closed) && GateOf(closed, generation).Shut?
    ensures var es := FenceEvents(closed, closed.order, generation);
            var end := AdvanceAll(closed, es);
            && Allows(closed, es) && OnlyFences(closed, end)
            && (forall env :: Of(Look(end, env), generation) ==> Look(end, env).fence != 0)
  {
    var es := FenceEvents(closed, closed.order, generation);
    FencesGood(closed, closed, closed.order, generation);
    var end := AdvanceAll(closed, es);
    forall env | Of(Look(end, env), generation) ensures Look(end, env).fence != 0 {
      assert FencedMore(Look(closed, env), Look(end, env));
    }
  }

  lemma CloserJoins(b: Board, p: Process, token: nat, generation: string)
    requires p.phase.Serving? && ProcessInv(b, p) && token !in p.phase.closers
    requires GateOf(b, generation).Shut?
    requires forall env :: Of(Look(b, env), generation) ==> Look(b, env).fence != 0
    ensures ProcessInv(b, p.(phase := p.phase.(closers := p.phase.closers[token := Closer(generation, None)])))
  {
    var closers' := p.phase.closers[token := Closer(generation, None)];
    forall t | t in closers' ensures CloserInv(b, p.phase.starting.Keys, closers'[t]) {
      assert t != token ==> CloserInv(b, p.phase.starting.Keys, p.phase.closers[t]);
    }
  }

  lemma CloseAndFenceKeeps(b: Board, p: Process, token: nat, generation: string)
    requires BoardInv(b) && ProcessInv(b, p) && ClosingEnabled(b, p, token, CloseAndFence(generation))
    ensures Kept(b, ClosingEvents(b, CloseAndFence(generation)),
                 Some(ClosingNext(b, p, token, CloseAndFence(generation))))
  {
    var xs := CloseEvents(b, generation);
    var closed := AdvanceAll(b, xs);
    CloseEventKeeps(b, generation, p);
    FenceAll(closed, generation);
    var ys := FenceEvents(closed, closed.order, generation);
    AllowsConcat(b, xs, ys);
    FencesKeep(closed, AdvanceAll(closed, ys), p);
    CloserJoins(AdvanceAll(closed, ys), p, token, generation);
  }

  lemma SnapshotKeeps(b: Board, p: Process, token: nat, m: Closing)
    requires BoardInv(b) && ProcessInv(b, p) && ClosingEnabled(b, p, token, m) && !m.CloseAndFence?
    ensures Kept(b, ClosingEvents(b, m), Some(ClosingNext(b, p, token, m)))
  {
    var phase' := ClosingNext(b, p, token, m).phase;
    forall t | t in phase'.closers ensures CloserInv(b, phase'.starting.Keys, phase'.closers[t]) {
      assert CloserInv(b, p.phase.starting.Keys, p.phase.closers[t]);
    }
  }

  // ---------------------------------------------------------------- every move, every run

  lemma MoveKeeps(s: State, m: Move)
    requires Inv(s) && Enabled(s, m)
    ensures Kept(BoardOf(s.log), Events(s, m), Volatile(s, m))
  {
    var b := BoardOf(s.log);
    GoodBoard(s.log);
    match m {
      case Around(around) =>
        var e := SurroundingEvent(b, around);
        Allows1(b, e);
        QuietAbout(b, e);
        if s.owner.Some? { QuietKeeps(b, Advance(b, e), s.owner.value); }
      case OpenOwner(binding) => OpenKeeps(b, binding); Allows1(b, OwnerOpened(b.owners + 1));
      case TakeOver(takeover) => TakeoverKeeps(b, s.owner.value, takeover);
      case Start(request, before, between) =>
        assert ViewInv(b, b.reserved + 1);
        StartKeeps(b, s.owner.value, request, before, between);
      case Thread(env, threading) => ThreadKeeps(b, s.owner.value, env, threading);
      case CloseCall(token, closing) =>
        if closing.CloseAndFence? { CloseAndFenceKeeps(b, s.owner.value, token, closing.generation); }
        else { SnapshotKeeps(b, s.owner.value, token, closing); }
    }
  }

  lemma StepKeeps(s: State, step: Step)
    requires Inv(s) && Possible(s, step)
    ensures Inv(After(s, step))
  {
    MoveKeeps(s, step.move);
    var events := Events(s, step.move);
    if step.Crash? {
      AllowsPrefix(BoardOf(s.log), events, step.kept);
      AppendAll(s.log, events[..step.kept]);
    } else {
      AppendAll(s.log, events);
    }
  }

  /** The invariant holds at the end of every run: any number of owners, crashes anywhere. */
  lemma {:induction false} RunKeeps(steps: seq<Step>)
    requires Run(steps).Some?
    ensures Inv(Run(steps).value)
  {
    if steps != [] {
      RunKeeps(steps[..|steps| - 1]);
      StepKeeps(Run(steps[..|steps| - 1]).value, steps[|steps| - 1]);
    }
  }
}
