/**
  The Attempt executor as a step system: successive owner processes, each of which takes the lock,
  reconciles its predecessor's envelopes and then serves starts, completions, cancels and closes
  from many threads at once.

  The durable state is the log.  The volatile state is the owner process: its reconciliation
  worklist, its handles, the starts between their two locks, and the closes in progress.  A move
  appends a list of events; a crash during a move keeps any prefix of that list and drops the
  process, which also frees the lock.  Moves interleave freely, which is more than the locks between
  threads let happen.  The appends of one move stand together, except that a start lets any events
  of its surroundings in before it is granted authority and again before it reserves: the fence is
  not behind the executor's lock.
 */
module ExecutorProtocol {
  import opened Prelude
  import opened ExecutorLog

  /** What the runtime reports for one envelope. */
  datatype Observation = Observation(outcome: Outcome, cgroup: string, cleanupComplete: bool,
                                     lifecycle: Option<Lifecycle>)

  datatype Request = Request(who: Ownership, declared: Limits)

  /** How far the recording of one observation has got. */
  datatype Stage = Observing | Deciding | Discarding

  datatype Pc =
    | Preparing
    | Prepared(cgroup: string)
    | Running
    | Recording(observation: Observation, stage: Stage)

  datatype Handle = Handle(request: Request, cancelled: bool, pc: Pc)

  /** One entry of the takeover worklist. */
  datatype Item = Item(envelope: nat, residue: bool, observation: Observation, stage: Stage)

  /** The handles a close waits for, and the envelopes its snapshot could not see. */
  datatype Snapshot = Snapshot(awaited: set<nat>, missed: set<nat>)

  datatype Closer = Closer(generation: string, snapshot: Option<Snapshot>)

  datatype Phase =
    | Opening
    | Reconciling(todo: seq<Item>)
    | Serving(starting: map<nat, Request>, handles: map<nat, Handle>, closers: map<nat, Closer>,
              abandoned: set<nat>)

  datatype Process = Process(binding: Binding, phase: Phase)

  datatype State = State(log: Log, owner: Option<Process>)

  const INIT: State := State([], None)

  // ---------------------------------------------------------------- what takeover reads back

  function Unresolved(b: Board, envs: seq<nat>): seq<nat> {
    if envs == [] then []
    else (if Terminal(Look(b, envs[0])) then [] else [envs[0]]) + Unresolved(b, envs[1..])
  }

  function Residue(b: Board, envs: seq<nat>): seq<nat> {
    if envs == [] then []
    else (if Terminal(Look(b, envs[0])) && Look(b, envs[0]).survivors != [] then [envs[0]] else [])
         + Residue(b, envs[1..])
  }

  /** Unfinished envelopes first, then finished ones whose latest observation left processes behind. */
  function Worklist(b: Board): seq<nat> {
    Unresolved(b, b.order) + Residue(b, b.observedOrder)
  }

  function Items(b: Board, envs: seq<nat>, observations: seq<Observation>): seq<Item>
    requires |envs| == |observations|
  {
    seq(|envs|, i requires 0 <= i < |envs| =>
      Item(envs[i], Terminal(Look(b, envs[i])), observations[i], Observing))
  }

  /** What takeover reports for an envelope whose recorded cgroup path is `cgroup`. */
  predicate ReconcileReports(cgroup: string, o: Observation) {
    && o.outcome == Reconciled
    && o.cgroup == cgroup
    && (o.lifecycle.Some? ==> cgroup != "")
    && (o.lifecycle.None? && o.cleanupComplete ==> cgroup == "")
    && CleanIfComplete(o)
  }

  /** A complete cleanup left no process behind. */
  predicate CleanIfComplete(o: Observation) {
    o.cleanupComplete && o.lifecycle.Some? ==> o.lifecycle.value.afterKill == []
  }

  // ---------------------------------------------------------------- events written

  function RecordOf(b: Board, binding: Binding, env: nat, record: EnvelopeRecord, cgroup: string,
                    outcome: Option<Outcome>, cleanupComplete: bool): Event
  {
    var v := Look(b, env);
    Envelope(record, b.owners, env, v.who, STRICT_PROFILE, binding, cgroup, outcome, cleanupComplete, v.declared)
  }

  function ObservedEvents(b: Board, env: nat, o: Observation): Log {
    match o.lifecycle
    case Some(lifecycle) => [Observed(b.owners, env, Look(b, env).who, lifecycle)]
    case None => []
  }

  function AuthorityEvent(b: Board, generation: string): Event {
    match GateOf(b, generation)
    case Open(attempt) => Generation(Authority, generation, attempt)
    case Shut(attempt, _) => Generation(LateEvent, generation, attempt)
    case Unknown => Foreign
  }

  function ResultEvents(b: Board, binding: Binding, env: nat, o: Observation): Log {
    [AuthorityEvent(b, Look(b, env).who.generation),
     RecordOf(b, binding, env, Result, o.cgroup, Some(o.outcome), o.cleanupComplete)]
  }

  function DiscardedEvent(b: Board, binding: Binding, env: nat, o: Observation): Event {
    RecordOf(b, binding, env, Discarded, o.cgroup, None, o.cleanupComplete)
  }

  function ReservedEvent(b: Board, binding: Binding, request: Request): Event {
    Envelope(Reserved, b.owners, b.reserved + 1, request.who, STRICT_PROFILE, binding, "", None, false,
             request.declared)
  }

  function CloseEvents(b: Board, generation: string): Log {
    match GateOf(b, generation)
    case Open(attempt) => [Generation(Close, generation, attempt)]
    case _ => []
  }

  /** One FENCED event for each listed envelope of the generation that has none yet. */
  function FenceEvents(b: Board, envs: seq<nat>, generation: string): Log {
    if envs == [] then []
    else
      var v, gate := Look(b, envs[0]), GateOf(b, generation);
      (if gate.Shut? && v.who.generation == generation && v.fence == 0
       then [Fenced(b.owners, envs[0], v.who, gate.sequence)] else [])
      + FenceEvents(b, envs[1..], generation)
  }

  // ---------------------------------------------------------------- the surroundings

  /** Generations come and go, and other components write to the same log. */
  datatype Surrounding =
    | AcquireGeneration(generation: string, attempt: string)
    | CloseDirectly(generation: string)
    | AppendForeign

  predicate SurroundingEnabled(b: Board, m: Surrounding) {
    match m
    case AcquireGeneration(g, _) => GateOf(b, g).Unknown?
    case CloseDirectly(g) => Active(b, g)
    case AppendForeign => true
  }

  function SurroundingEvent(b: Board, m: Surrounding): Event
    requires SurroundingEnabled(b, m)
  {
    match m
    case AcquireGeneration(g, attempt) => Generation(Acquire, g, attempt)
    case CloseDirectly(g) => Generation(Close, g, GateOf(b, g).attempt)
    case AppendForeign => Foreign
  }

  /** Several surroundings' events in a row. */
  predicate SurroundingsEnabled(b: Board, ms: seq<Surrounding>)
    decreases |ms|
  {
    ms == [] || (SurroundingEnabled(b, ms[0]) && SurroundingsEnabled(Advance(b, SurroundingEvent(b, ms[0])), ms[1..]))
  }

  function SurroundingEvents(b: Board, ms: seq<Surrounding>): Log
    requires SurroundingsEnabled(b, ms)
    decreases |ms|
  {
    if ms == [] then []
    else
      var e := SurroundingEvent(b, ms[0]);
      [e] + SurroundingEvents(Advance(b, e), ms[1..])
  }

  // ---------------------------------------------------------------- taking over

  datatype Takeover =
    | Survey(observations: seq<Observation>)
    | ItemRefuse
    | ItemObserve
    | ItemCommit
    | ItemLate
    | ItemDiscard
    | BeginServing

  predicate HasItem(p: Process, stage: Stage) {
    p.phase.Reconciling? && p.phase.todo != [] && p.phase.todo[0].stage == stage
  }

  /** A finished envelope is looked at again only for new process evidence. */
  predicate HasEvidence(item: Item) {
    item.residue ==> item.observation.lifecycle.Some?
  }

  predicate TakeoverEnabled(b: Board, p: Process, m: Takeover) {
    match m
    case Survey(observations) =>
      && p.phase.Opening? && |observations| == |Worklist(b)|
      && forall i :: 0 <= i < |observations| ==> ReconcileReports(Look(b, Worklist(b)[i]).cgroup, observations[i])
    case ItemRefuse => HasItem(p, Observing) && !HasEvidence(p.phase.todo[0])
    case ItemObserve => HasItem(p, Observing) && HasEvidence(p.phase.todo[0])
    case ItemCommit => HasItem(p, Deciding) && Active(b, Look(b, p.phase.todo[0].envelope).who.generation)
    case ItemLate => HasItem(p, Deciding) && !Active(b, Look(b, p.phase.todo[0].envelope).who.generation)
    case ItemDiscard => HasItem(p, Discarding)
    case BeginServing => p.phase == Reconciling([])
  }

  function TakeoverEvents(b: Board, p: Process, m: Takeover): Log
    requires TakeoverEnabled(b, p, m)
  {
    if m.Survey? || m.ItemRefuse? || m.BeginServing? then []
    else
      var item := p.phase.todo[0];
      match m
      case ItemObserve => ObservedEvents(b, item.envelope, item.observation)
      case ItemCommit => ResultEvents(b, p.binding, item.envelope, item.observation)
      case ItemLate => [AuthorityEvent(b, Look(b, item.envelope).who.generation)]
      case ItemDiscard => [DiscardedEvent(b, p.binding, item.envelope, item.observation)]
  }

  function AdvanceItem(p: Process, stage: Stage): Option<Process>
    requires p.phase.Reconciling? && p.phase.todo != []
  {
    Some(p.(phase := Reconciling([p.phase.todo[0].(stage := stage)] + p.phase.todo[1..])))
  }

  /** A finished item leaves the worklist; an incomplete cleanup raises and gives up ownership. */
  function FinishItem(p: Process): Option<Process>
    requires p.phase.Reconciling? && p.phase.todo != []
  {
    if p.phase.todo[0].observation.cleanupComplete then Some(p.(phase := Reconciling(p.phase.todo[1..]))) else None
  }

  function TakeoverNext(b: Board, p: Process, m: Takeover): Option<Process>
    requires TakeoverEnabled(b, p, m)
  {
    match m
    case Survey(observations) => Some(p.(phase := Reconciling(Items(b, Worklist(b), observations))))
    case ItemRefuse => None
    case ItemObserve => if p.phase.todo[0].residue then FinishItem(p) else AdvanceItem(p, Deciding)
    case ItemCommit => FinishItem(p)
    case ItemLate => AdvanceItem(p, Discarding)
    case ItemDiscard => FinishItem(p)
    case BeginServing => Some(p.(phase := Serving(map[], map[], map[], {})))
  }

  // ---------------------------------------------------------------- starting an envelope

  /**
    A start checks its generation, asks the fence for authority and reserves.  Others may append
    between the check and the request, and between the grant and the reservation: the generation may
    be closed by either, and the reservation is written all the same.
   */
  predicate StartEnabled(b: Board, p: Process, request: Request, before: seq<Surrounding>, between: seq<Surrounding>) {
    && p.phase.Serving? && GateOf(b, request.who.generation) == Open(request.who.attempt)
    && SurroundingsEnabled(b, before) && SurroundingsEnabled(Granted(b, request, before), between)
  }

  /** The projection once the fence has answered. */
  function Granted(b: Board, request: Request, before: seq<Surrounding>): Board
    requires SurroundingsEnabled(b, before)
  {
    var asked := AdvanceAll(b, SurroundingEvents(b, before));
    Advance(asked, AuthorityEvent(asked, request.who.generation))
  }

  function StartEvents(b: Board, p: Process, request: Request, before: seq<Surrounding>, between: seq<Surrounding>): Log
    requires StartEnabled(b, p, request, before, between)
  {
    var xs := SurroundingEvents(b, before);
    xs + ([AuthorityEvent(AdvanceAll(b, xs), request.who.generation)]
          + (SurroundingEvents(Granted(b, request, before), between) + [ReservedEvent(b, p.binding, request)]))
  }

  function StartNext(b: Board, p: Process, request: Request): Process
    requires p.phase.Serving?
  {
    p.(phase := p.phase.(starting := p.phase.starting[b.reserved + 1 := request]))
  }

  // ---------------------------------------------------------------- one envelope's thread

  datatype Threading =
    | Register
    | PrepareFails
    | PrepareReturns(cgroup: string)
    | Launch
    | LaunchReturns(observation: Observation)
    | Observe
    | Commit
    | Late
    | Discard
    | Abandon
    | Cancel

  predicate AtStage(h: Handle, stage: Stage) {
    h.pc.Recording? && h.pc.stage == stage
  }

  predicate HandleEnabled(b: Board, env: nat, h: Handle, m: Threading) {
    match m
    case PrepareFails => h.pc == Preparing
    case PrepareReturns(cgroup) => h.pc == Preparing && cgroup != ""
    case Launch => h.pc.Prepared?
    case LaunchReturns(o) => h.pc == Running && CleanIfComplete(o)
    case Observe => AtStage(h, Observing)
    case Commit => AtStage(h, Deciding) && Active(b, Look(b, env).who.generation)
    case Late => AtStage(h, Deciding) && !Active(b, Look(b, env).who.generation)
    case Discard => AtStage(h, Discarding)
    case Abandon => true
    case Cancel => true
    case Register => false
  }

  predicate ThreadEnabled(b: Board, p: Process, env: nat, m: Threading) {
    && p.phase.Serving?
    && if m.Register? then env in p.phase.starting
       else env in p.phase.handles && HandleEnabled(b, env, p.phase.handles[env], m)
  }

  function HandleEvents(b: Board, binding: Binding, env: nat, h: Handle, m: Threading): Log
    requires HandleEnabled(b, env, h, m)
  {
    match m
    case Launch =>
      [Envelope(Launched, b.owners, env, h.request.who, STRICT_PROFILE, binding, h.pc.cgroup, None, false,
                h.request.declared)]
    case Observe => ObservedEvents(b, env, h.pc.observation)
    case Commit => ResultEvents(b, binding, env, h.pc.observation)
    case Late => [AuthorityEvent(b, Look(b, env).who.generation)]
    case Discard => [DiscardedEvent(b, binding, env, h.pc.observation)]
    case _ => []
  }

  function ThreadEvents(b: Board, p: Process, env: nat, m: Threading): Log
    requires ThreadEnabled(b, p, env, m)
  {
    if m.Register? then [] else HandleEvents(b, p.binding, env, p.phase.handles[env], m)
  }

  function CancelledOutcome(h: Handle, o: Observation): Observation {
    if h.cancelled && o.outcome == Exited then o.(outcome := Cancelled) else o
  }

  /** The handle after its move, or nothing once its envelope is finished or given up. */
  function HandleNext(h: Handle, m: Threading): Option<Handle> {
    match m
    case PrepareFails => Some(h.(pc := Recording(Observation(LaunchFailed, "", true, None), Observing)))
    case PrepareReturns(cgroup) => Some(h.(pc := Prepared(cgroup)))
    case Launch => Some(h.(pc := Running))
    case LaunchReturns(o) => Some(h.(pc := Recording(CancelledOutcome(h, o), Observing)))
    case Observe => Some(if h.pc.Recording? then h.(pc := h.pc.(stage := Deciding)) else h)
    case Late => Some(if h.pc.Recording? then h.(pc := h.pc.(stage := Discarding)) else h)
    case Cancel => Some(h.(cancelled := true))
    case Commit => None
    case Discard => None
    case Abandon => None
    case Register => None
  }

  function ThreadNext(p: Process, env: nat, m: Threading): Process
    requires p.phase.Serving? && if m.Register? then env in p.phase.starting else env in p.phase.handles
  {
    var phase := p.phase;
    if m.Register? then
      p.(phase := phase.(starting := phase.starting - {env},
                         handles := phase.handles[env := Handle(phase.starting[env], false, Preparing)]))
    else
      match HandleNext(phase.handles[env], m)
      case Some(h) => p.(phase := phase.(handles := phase.handles[env := h]))
      case None =>
        p.(phase := phase.(handles := phase.handles - {env},
                           abandoned := if m.Abandon? then phase.abandoned + {env} else phase.abandoned))
  }

  // ---------------------------------------------------------------- closing a generation

  datatype Closing =
    | CloseAndFence(generation: string)
    | TakeSnapshot
    | Return

  predicate ClosingEnabled(b: Board, p: Process, token: nat, m: Closing) {
    && p.phase.Serving?
    && match m
       case CloseAndFence(g) => token !in p.phase.closers && !GateOf(b, g).Unknown?
       case TakeSnapshot => token in p.phase.closers && p.phase.closers[token].snapshot.None?
       case Return =>
         && token in p.phase.closers && p.phase.closers[token].snapshot.Some?
         && p.phase.closers[token].snapshot.value.awaited !! p.phase.handles.Keys
         && p.phase.closers[token].snapshot.value.awaited !! p.phase.abandoned
  }

  function ClosingEvents(b: Board, m: Closing): Log {
    match m
    case CloseAndFence(g) =>
      var closed := AdvanceAll(b, CloseEvents(b, g));
      CloseEvents(b, g) + FenceEvents(closed, closed.order, g)
    case _ => []
  }

  function OfGeneration(b: Board, envs: set<nat>, generation: string): set<nat> {
    set env | env in envs && Look(b, env).who.generation == generation
  }

  function ClosingNext(b: Board, p: Process, token: nat, m: Closing): Process
    requires ClosingEnabled(b, p, token, m)
  {
    var phase := p.phase;
    match m
    case CloseAndFence(g) => p.(phase := phase.(closers := phase.closers[token := Closer(g, None)]))
    case TakeSnapshot =>
      var g := phase.closers[token].generation;
      var snapshot := Snapshot(OfGeneration(b, phase.handles.Keys, g),
                               OfGeneration(b, phase.starting.Keys + phase.abandoned, g));
      p.(phase := phase.(closers := phase.closers[token := Closer(g, Some(snapshot))]))
    case Return => p.(phase := phase.(closers := phase.closers - {token}))
  }

  // ---------------------------------------------------------------- steps and runs

  datatype Move =
    | Around(surrounding: Surrounding)
    | OpenOwner(binding: Binding)
    | TakeOver(takeover: Takeover)
    | Start(request: Request, before: seq<Surrounding>, between: seq<Surrounding>)
    | Thread(envelope: nat, threading: Threading)
    | CloseCall(token: nat, closing: Closing)

  predicate Enabled(s: State, m: Move) {
    var b := BoardOf(s.log);
    match m
    case Around(around) => SurroundingEnabled(b, around)
    case OpenOwner(_) => s.owner.None?
    case TakeOver(takeover) => s.owner.Some? && TakeoverEnabled(b, s.owner.value, takeover)
    case Start(request, before, between) =>
      s.owner.Some? && StartEnabled(b, s.owner.value, request, before, between)
    case Thread(env, threading) => s.owner.Some? && ThreadEnabled(b, s.owner.value, env, threading)
    case CloseCall(token, closing) => s.owner.Some? && ClosingEnabled(b, s.owner.value, token, closing)
  }

  function Events(s: State, m: Move): Log
    requires Enabled(s, m)
  {
    var b := BoardOf(s.log);
    match m
    case Around(around) => [SurroundingEvent(b, around)]
    case OpenOwner(_) => [OwnerOpened(b.owners + 1)]
    case TakeOver(takeover) => TakeoverEvents(b, s.owner.value, takeover)
    case Start(request, before, between) => StartEvents(b, s.owner.value, request, before, between)
    case Thread(env, threading) => ThreadEvents(b, s.owner.value, env, threading)
    case CloseCall(_, closing) => ClosingEvents(b, closing)
  }

  function Volatile(s: State, m: Move): Option<Process>
    requires Enabled(s, m)
  {
    var b := BoardOf(s.log);
    match m
    case Around(_) => s.owner
    case OpenOwner(binding) => Some(Process(binding, Opening))
    case TakeOver(takeover) => TakeoverNext(b, s.owner.value, takeover)
    case Start(request, _, _) => Some(StartNext(b, s.owner.value, request))
    case Thread(env, threading) => Some(ThreadNext(s.owner.value, env, threading))
    case CloseCall(token, closing) => Some(ClosingNext(b, s.owner.value, token, closing))
  }

  /** A move runs to its end, or the process dies after `kept` of its appends. */
  datatype Step = Do(move: Move) | Crash(move: Move, kept: nat)

  predicate Possible(s: State, step: Step) {
    Enabled(s, step.move) && (step.Crash? ==> step.kept <= |Events(s, step.move)|)
  }

  function After(s: State, step: Step): State
    requires Possible(s, step)
  {
    match step
    case Do(m) => State(s.log + Events(s, m), Volatile(s, m))
    case Crash(m, kept) => State(s.log + Events(s, m)[..kept], None)
  }

  /** Where a list of steps leads, if each of them was possible where it was taken. */
  function Run(steps: seq<Step>): Option<State> {
    if steps == [] then Some(INIT)
    else
      var before, step := Run(steps[..|steps| - 1]), steps[|steps| - 1];
      if before.Some? && Possible(before.value, step) then Some(After(before.value, step)) else None
  }
}
