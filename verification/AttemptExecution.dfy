/**
  The executor's own methods, as they read and write the log from one thread.  Each method appends
  the events the code appends, and carries a ghost trace of protocol steps that leads to the same
  log, so every theorem about runs applies to what these methods leave behind.
 */
module AttemptExecution {
  import opened Prelude
  import opened ExecutorLog
  import opened ExecutorProtocol
  import opened ExecutorInvariant
  import opened ExecutorTheorems
  import opened TakeoverReceipts
  import ResourceReceipt

  /** `latest` holds, for each envelope in `order`, the payload of its latest envelope event. */
  ghost predicate StatesOf(order: seq<nat>, latest: map<nat, Event>, b: Board) {
    && order == b.order
    && (forall env :: env in latest <==> env in order)
    && (forall env :: env in latest ==> StateOf(latest[env], Look(b, env)))
  }

  predicate StateOf(e: Event, v: View) {
    && e.Envelope? && v.records != [] && v.records[|v.records| - 1] == e.record
    && e.who == v.who && e.declared == v.declared && e.cgroup == v.cgroup
  }

  lemma StatesStep(order: seq<nat>, latest: map<nat, Event>, b: Board, e: Event)
    requires StatesOf(order, latest, b)
    ensures e.Envelope? ==>
              StatesOf(if e.envelope in latest then order else order + [e.envelope],
                       latest[e.envelope := e], Advance(b, e))
    ensures !e.Envelope? ==> StatesOf(order, latest, Advance(b, e))
  {
    var latest' := if e.Envelope? then latest[e.envelope := e] else latest;
    forall env | env in latest' ensures StateOf(latest'[env], Look(Advance(b, e), env)) {
      AdvanceLook(b, e, env);
    }
  }

  /** One pass keeps each envelope's latest payload, in order of first mention. */
  method EnvelopeStates(log: Log) returns (order: seq<nat>, latest: map<nat, Event>)
    ensures StatesOf(order, latest, BoardOf(log))
  {
    order, latest := [], map[];
    for i := 0 to |log|
      invariant StatesOf(order, latest, BoardOf(log[..i]))
    {
      var e := log[i];
      assert log[..i + 1][..i] == log[..i];
      StatesStep(order, latest, BoardOf(log[..i]), e);
      if e.Envelope? {
        order := if e.envelope in latest then order else order + [e.envelope];
        latest := latest[e.envelope := e];
      }
    }
    assert log[..|log|] == log;
  }

  /** `latest` holds, for each envelope in `order`, the processes its latest observation left. */
  ghost predicate ObservedOf(order: seq<nat>, latest: map<nat, seq<nat>>, b: Board) {
    && order == b.observedOrder
    && (forall env :: env in latest <==> env in order)
    && (forall env :: env in latest ==> latest[env] == Look(b, env).survivors)
  }

  lemma ObservedStep(order: seq<nat>, latest: map<nat, seq<nat>>, b: Board, e: Event)
    requires ObservedOf(order, latest, b)
    ensures e.Observed? ==>
              ObservedOf(if e.envelope in latest then order else order + [e.envelope],
                         latest[e.envelope := e.lifecycle.afterKill], Advance(b, e))
    ensures !e.Observed? ==> ObservedOf(order, latest, Advance(b, e))
  {
    var latest' := if e.Observed? then latest[e.envelope := e.lifecycle.afterKill] else latest;
    forall env | env in latest' ensures latest'[env] == Look(Advance(b, e), env).survivors {
      AdvanceLook(b, e, env);
    }
  }

  /** One pass keeps what each envelope's latest observation left behind, in order of first observation. */
  method ObservedStates(log: Log) returns (order: seq<nat>, latest: map<nat, seq<nat>>)
    ensures ObservedOf(order, latest, BoardOf(log))
  {
    order, latest := [], map[];
    for i := 0 to |log|
      invariant ObservedOf(order, latest, BoardOf(log[..i]))
    {
      var e := log[i];
      assert log[..i + 1][..i] == log[..i];
      ObservedStep(order, latest, BoardOf(log[..i]), e);
      if e.Observed? {
        order := if e.envelope in latest then order else order + [e.envelope];
        latest := latest[e.envelope := e.lifecycle.afterKill];
      }
    }
    assert log[..|log|] == log;
  }

  /** The finished envelopes whose latest observation left processes behind. */
  method ResidueStates(log: Log, states: map<nat, Event>) returns (residue: seq<nat>)
    requires Good(log) && StatesOf(BoardOf(log).order, states, BoardOf(log))
    ensures residue == Residue(BoardOf(log), BoardOf(log).observedOrder)
  {
    var order, latest := ObservedStates(log);
    ghost var b := BoardOf(log);
    residue := [];
    for k := 0 to |order|
      invariant residue == Residue(b, order[..k])
    {
      var env := order[k];
      ObservedKnown(log, env);
      assert StateOf(states[env], Look(b, env));
      ResidueMore(b, order[..k], env);
      assert order[..k + 1] == order[..k] + [env];
      if states[env].record in {Result, Discarded} && latest[env] != [] {
        residue := residue + [env];
      }
    }
    assert order[..|order|] == order;
  }

  lemma ObservedKnown(log: Log, env: nat)
    requires Good(log) && env in BoardOf(log).observedOrder
    ensures env in BoardOf(log).order
  {
    GoodBoard(log);
    assert ViewInv(BoardOf(log), env);
  }

  lemma {:induction false} ResidueMore(b: Board, envs: seq<nat>, env: nat)
    ensures Residue(b, envs + [env])
            == Residue(b, envs) + if Terminal(Look(b, env)) && Look(b, env).survivors != [] then [env] else []
  {
    if envs == [] {
      assert envs + [env] == [env] && [env][1..] == [];
    } else {
      ResidueMore(b, envs[1..], env);
      assert (envs + [env])[1..] == envs[1..] + [env];
    }
  }

  lemma {:induction false} UnresolvedMore(b: Board, envs: seq<nat>, env: nat)
    ensures Unresolved(b, envs + [env]) == Unresolved(b, envs) + if Terminal(Look(b, env)) then [] else [env]
  {
    if envs == [] {
      assert envs + [env] == [env] && [env][1..] == [];
    } else {
      UnresolvedMore(b, envs[1..], env);
      assert (envs + [env])[1..] == envs[1..] + [env];
    }
  }

  /** The states takeover hands to the runtime: unfinished envelopes, then residue. */
  method TakeoverStates(log: Log) returns (worklist: seq<nat>, states: map<nat, Event>)
    requires Good(log)
    ensures worklist == Worklist(BoardOf(log))
    ensures StatesOf(BoardOf(log).order, states, BoardOf(log))
  {
    var order;
    order, states := EnvelopeStates(log);
    ghost var b := BoardOf(log);
    var unresolved: seq<nat> := [];
    for k := 0 to |order|
      invariant unresolved == Unresolved(b, order[..k])
    {
      var env := order[k];
      assert StateOf(states[env], Look(b, env));
      UnresolvedMore(b, order[..k], env);
      assert order[..k + 1] == order[..k] + [env];
      if states[env].record !in {Result, Discarded} {
        unresolved := unresolved + [env];
      }
    }
    assert order[..|order|] == order;
    var residue := ResidueStates(log, states);
    worklist := unresolved + residue;
  }

  /** One more than the owners the log has opened. */
  method NextOwnerEpoch(log: Log) returns (epoch: nat)
    ensures epoch == BoardOf(log).owners + 1
  {
    var count := 0;
    for i := 0 to |log|
      invariant count == BoardOf(log[..i]).owners
    {
      assert log[..i + 1][..i] == log[..i];
      if log[i].OwnerOpened? {
        count := count + 1;
      }
    }
    assert log[..|log|] == log;
    epoch := count + 1;
  }

  /** One more than the reservations the log holds. */
  method NextEnvelope(log: Log) returns (env: nat)
    ensures env == BoardOf(log).reserved + 1
  {
    var count := 0;
    for i := 0 to |log|
      invariant count == BoardOf(log[..i]).reserved
    {
      assert log[..i + 1][..i] == log[..i];
      if IsRecord(log[i], Reserved) {
        count := count + 1;
      }
    }
    assert log[..|log|] == log;
    env := count + 1;
  }

  /** The generation fence's projection of one generation. */
  method GenerationState(log: Log, generation: string) returns (gate: Gate)
    ensures gate == GateOf(BoardOf(log), generation)
  {
    gate := Unknown;
    for i := 0 to |log|
      invariant gate == GateOf(BoardOf(log[..i]), generation) && BoardOf(log[..i]).length == i
    {
      assert log[..i + 1][..i] == log[..i];
      var e := log[i];
      if e.Generation? && e.generation == generation {
        gate := GateStep(gate, e, i + 1);
      }
    }
    assert log[..|log|] == log;
  }

  /** The envelope's thread, or the head of the takeover worklist, is recording `o` and has got this far. */
  predicate Awaits(p: Process, env: nat, o: Observation, takeover: bool, stage: Stage) {
    if takeover then p.phase.Reconciling? && p.phase.todo != [] && p.phase.todo[0] == Item(env, false, o, stage)
    else p.phase.Serving? && env in p.phase.handles && p.phase.handles[env].pc == Recording(o, stage)
  }

  /** The process once the recording has moved to `stage`. */
  function Staged(p: Process, env: nat, takeover: bool, o: Observation, stage: Stage): Process
    requires if takeover then p.phase.Reconciling? && p.phase.todo != [] else p.phase.Serving? && env in p.phase.handles
  {
    if takeover then p.(phase := Reconciling([p.phase.todo[0].(stage := stage)] + p.phase.todo[1..]))
    else p.(phase := p.phase.(handles := p.phase.handles[env := p.phase.handles[env].(pc := Recording(o, stage))]))
  }

  /** The process once the recording is over. */
  function Recorded(p: Process, env: nat, takeover: bool): Option<Process>
    requires if takeover then p.phase.Reconciling? && p.phase.todo != [] else p.phase.Serving?
  {
    if takeover then FinishItem(p)
    else Some(p.(phase := p.phase.(handles := p.phase.handles - {env})))
  }

  /** The protocol move that records at the given stage. */
  function Recorder(takeover: bool, env: nat, stage: Stage, active: bool): Move {
    if takeover then
      TakeOver(match stage
               case Observing => ItemObserve
               case Deciding => if active then ItemCommit else ItemLate
               case Discarding => ItemDiscard)
    else
      Thread(env, match stage
                  case Observing => Observe
                  case Deciding => if active then Commit else Late
                  case Discarding => Discard)
  }

  function Evidence(epoch: nat, env: nat, who: Ownership, o: Observation): Log {
    if o.lifecycle.Some? then [Observed(epoch, env, who, o.lifecycle.value)] else []
  }

  function RecordFor(record: EnvelopeRecord, epoch: nat, binding: Binding, env: nat, state: Event,
                     o: Observation): Event
    requires state.Envelope?
  {
    Envelope(record, epoch, env, state.who, STRICT_PROFILE, binding, o.cgroup,
             if record == Result then Some(o.outcome) else None, o.cleanupComplete, state.declared)
  }

  /** Authority and a result while the generation is open; a late event and a discard once it is shut. */
  function Verdict(gate: Gate, epoch: nat, binding: Binding, env: nat, state: Event, o: Observation): Log
    requires state.Envelope?
  {
    if gate.Unknown? then []
    else if gate.Open? then
      [Generation(Authority, state.who.generation, gate.attempt), RecordFor(Result, epoch, binding, env, state, o)]
    else
      [Generation(LateEvent, state.who.generation, gate.attempt), RecordFor(Discarded, epoch, binding, env, state, o)]
  }

  /** An event that is no envelope record leaves the latest payload and, short of a close, the gate. */
  lemma EvidenceStays(log: Log, e: Event, env: nat, state: Event)
    requires StateOf(state, Look(BoardOf(log), env)) && !e.Envelope?
    requires e.Generation? ==> e.kind in {Authority, LateEvent}
    ensures StateOf(state, Look(BoardOf(log + [e]), env))
    ensures GateOf(BoardOf(log + [e]), state.who.generation) == GateOf(BoardOf(log), state.who.generation)
    ensures BoardOf(log + [e]).owners == BoardOf(log).owners + if e.OwnerOpened? then 1 else 0
  {
    AppendOne(log, e);
    AdvanceLook(BoardOf(log), e, env);
  }

  lemma ObserveMove(s: State, env: nat, o: Observation, takeover: bool, state: Event)
    requires s.owner.Some? && Awaits(s.owner.value, env, o, takeover, Observing)
    requires StateOf(state, Look(BoardOf(s.log), env))
    ensures var m := Recorder(takeover, env, Observing, true);
            && Enabled(s, m) && Events(s, m) == Evidence(BoardOf(s.log).owners, env, state.who, o)
            && Volatile(s, m) == Some(Staged(s.owner.value, env, takeover, o, Deciding))
  {}

  lemma CommitMove(s: State, env: nat, o: Observation, takeover: bool, state: Event)
    requires s.owner.Some? && Awaits(s.owner.value, env, o, takeover, Deciding)
    requires StateOf(state, Look(BoardOf(s.log), env)) && Active(BoardOf(s.log), state.who.generation)
    ensures var b, m := BoardOf(s.log), Recorder(takeover, env, Deciding, true);
            && Enabled(s, m)
            && Events(s, m) == Verdict(GateOf(b, state.who.generation), b.owners, s.owner.value.binding, env, state, o)
            && Volatile(s, m) == Recorded(s.owner.value, env, takeover)
  {}

  lemma LateMove(s: State, env: nat, o: Observation, takeover: bool, state: Event)
    requires s.owner.Some? && Awaits(s.owner.value, env, o, takeover, Deciding)
    requires StateOf(state, Look(BoardOf(s.log), env)) && GateOf(BoardOf(s.log), state.who.generation).Shut?
    ensures var gate, m := GateOf(BoardOf(s.log), state.who.generation), Recorder(takeover, env, Deciding, false);
            && Enabled(s, m) && Events(s, m) == [Generation(LateEvent, state.who.generation, gate.attempt)]
            && Volatile(s, m) == Some(Staged(s.owner.value, env, takeover, o, Discarding))
  {}

  lemma DiscardMove(s: State, env: nat, o: Observation, takeover: bool, state: Event)
    requires s.owner.Some? && Awaits(s.owner.value, env, o, takeover, Discarding)
    requires StateOf(state, Look(BoardOf(s.log), env))
    ensures var m := Recorder(takeover, env, Discarding, true);
            && Enabled(s, m)
            && Events(s, m) == [RecordFor(Discarded, BoardOf(s.log).owners, s.owner.value.binding, env, state, o)]
            && Volatile(s, m) == Recorded(s.owner.value, env, takeover)
  {}

  /** Moving through the stages changes nothing about how the recording ends. */
  lemma StagedRecorded(p: Process, env: nat, o: Observation, takeover: bool, stage: Stage, next: Stage)
    requires Awaits(p, env, o, takeover, stage)
    ensures Awaits(Staged(p, env, takeover, o, next), env, o, takeover, next)
    ensures Recorded(Staged(p, env, takeover, o, next), env, takeover) == Recorded(p, env, takeover)
  {
    if takeover {
      assert ([p.phase.todo[0].(stage := next)] + p.phase.todo[1..])[1..] == p.phase.todo[1..];
    } else {
      var h := p.phase.handles[env].(pc := Recording(o, next));
      assert p.phase.handles[env := h] - {env} == p.phase.handles - {env};
    }
  }

  lemma KnownGate(trace: seq<Step>, s: State, env: nat)
    requires Run(trace) == Some(s) && Known(Look(BoardOf(s.log), env))
    ensures !GateOf(BoardOf(s.log), Look(BoardOf(s.log), env).who.generation).Unknown?
  {
    RunKeeps(trace);
    GoodBoard(s.log);
    assert ViewInv(BoardOf(s.log), env);
  }

  /** Events about one envelope leave every other envelope's view alone. */
  lemma {:induction false} OthersStay(log: Log, events: Log, env: nat)
    requires forall e :: e in events ==> !About(e, env)
    ensures Look(BoardOf(log + events), env) == Look(BoardOf(log), env)
  {
    if events == [] {
      assert log + events == log;
    } else {
      var before, e := events[..|events| - 1], events[|events| - 1];
      assert log + events == (log + before) + [e] && e in events;
      OthersStay(log, before, env);
      AppendOne(log + before, e);
      AdvanceLook(BoardOf(log + before), e, env);
    }
  }

  /** The items from `k` on still have the latest payloads read before the loop. */
  ghost predicate Current(log: Log, worklist: seq<nat>, states: map<nat, Event>, k: nat) {
    forall j :: k <= j < |worklist| ==>
      worklist[j] in states && StateOf(states[worklist[j]], Look(BoardOf(log), worklist[j]))
  }

  lemma CurrentStays(log: Log, events: Log, worklist: seq<nat>, states: map<nat, Event>, k: nat)
    requires k < |worklist| && Current(log, worklist, states, k)
    requires forall j :: k < j < |worklist| ==> worklist[j] != worklist[k]
    requires forall e :: e in events ==> AboutSome(e) ==> e.envelope == worklist[k]
    ensures Current(log + events, worklist, states, k + 1)
  {
    forall j | k + 1 <= j < |worklist|
      ensures worklist[j] in states && StateOf(states[worklist[j]], Look(BoardOf(log + events), worklist[j]))
    {
      OthersStay(log, events, worklist[j]);
    }
  }

  lemma WorklistCurrent(log: Log, worklist: seq<nat>, states: map<nat, Event>)
    requires Good(log) && worklist == Worklist(BoardOf(log)) && StatesOf(BoardOf(log).order, states, BoardOf(log))
    ensures Current(log, worklist, states, 0)
    ensures forall i, j :: 0 <= i < j < |worklist| ==> worklist[i] != worklist[j]
  {
    GoodBoard(log);
    WorklistFacts(BoardOf(log));
    forall j | 0 <= j < |worklist| ensures worklist[j] in states {
      assert worklist[j] in Worklist(BoardOf(log));
    }
  }

  /** The observation settles its envelope: evidence where residue demands it, and a complete cleanup. */
  predicate Settles(state: Event, o: Observation)
    requires state.Envelope?
  {
    o.cleanupComplete && (state.record in {Result, Discarded} ==> o.lifecycle.Some?)
  }

  /** The worklist, the payloads and the runtime's reports, zipped into items. */
  predicate Zipped(items: seq<Item>, worklist: seq<nat>, states: map<nat, Event>, observations: seq<Observation>) {
    && |items| == |worklist| == |observations|
    && forall i :: 0 <= i < |worklist| ==>
         worklist[i] in states && states[worklist[i]].Envelope?
         && items[i] == Item(worklist[i], states[worklist[i]].record in {Result, Discarded}, observations[i], Observing)
  }

  predicate SettledUpTo(worklist: seq<nat>, states: map<nat, Event>, observations: seq<Observation>, k: nat)
    requires k <= |worklist| == |observations|
    requires forall i :: 0 <= i < |worklist| ==> worklist[i] in states && states[worklist[i]].Envelope?
  {
    forall i :: 0 <= i < k ==> Settles(states[worklist[i]], observations[i])
  }

  /** Every envelope takeover examines is settled by what the runtime reports for it. */
  predicate AllSettle(log: Log, observations: seq<Observation>)
    requires |observations| == |Worklist(BoardOf(log))|
  {
    forall i :: 0 <= i < |observations| ==>
      observations[i].cleanupComplete
      && (Finished(Records(log, Worklist(BoardOf(log))[i])) ==> observations[i].lifecycle.Some?)
  }

  lemma AllSettleRead(log: Log, worklist: seq<nat>, states: map<nat, Event>, observations: seq<Observation>)
    requires worklist == Worklist(BoardOf(log)) && |observations| == |worklist| && Current(log, worklist, states, 0)
    ensures AllSettle(log, observations) <==> SettledUpTo(worklist, states, observations, |worklist|)
    ensures forall i :: 0 <= i < |worklist| ==>
              (Terminal(Look(BoardOf(log), worklist[i])) <==> states[worklist[i]].record in {Result, Discarded})
  {
    forall i | 0 <= i < |worklist|
      ensures Finished(Records(log, worklist[i])) <==> states[worklist[i]].record in {Result, Discarded}
    {
      LookRecords(log, worklist[i]);
      assert StateOf(states[worklist[i]], Look(BoardOf(log), worklist[i]));
    }
  }

  // ---------------------------------------------------------------- what takeover writes for one item

  /** The item ends in a RESULT. */
  predicate Commits(b: Board, state: Event) {
    state.Envelope? && state.record !in {Result, Discarded} && Active(b, state.who.generation)
  }

  function ItemEvents(b: Board, epoch: nat, binding: Binding, env: nat, state: Event, o: Observation): Log
    requires state.Envelope?
  {
    Evidence(epoch, env, state.who, o)
    + if state.record in {Result, Discarded} then []
      else Verdict(GateOf(b, state.who.generation), epoch, binding, env, state, o)
  }

  /** The record the item ends in, if it gets one. */
  function FinalRecord(b: Board, state: Event): Option<EnvelopeRecord>
    requires state.Envelope?
  {
    if state.record in {Result, Discarded} then None
    else if Active(b, state.who.generation) then Some(EnvelopeRecord.Result) else Some(Discarded)
  }

  lemma ItemWrites(b: Board, epoch: nat, binding: Binding, env: nat, state: Event, o: Observation)
    requires state.Envelope? && !GateOf(b, state.who.generation).Unknown?
    ensures Writes(ItemEvents(b, epoch, binding, env, state, o), env, binding, FinalRecord(b, state))
    ensures Commits(b, state) ==>
              var last :=
                  ItemEvents(b, epoch, binding, env, state, o)[|ItemEvents(b, epoch, binding, env, state, o)| - 1];
              IsRecord(last, Result) && last.envelope == env && last.binding == binding
  {}

  lemma ItemAbout(b: Board, epoch: nat, binding: Binding, env: nat, state: Event, o: Observation)
    requires state.Envelope?
    ensures forall e :: e in ItemEvents(b, epoch, binding, env, state, o) ==> AboutSome(e) ==> e.envelope == env
    ensures state.record in {Result, Discarded} ==>
              ItemEvents(b, epoch, binding, env, state, o) == Evidence(epoch, env, state.who, o)
  {
    assert Evidence(epoch, env, state.who, o) + [] == Evidence(epoch, env, state.who, o);
  }

  /** The envelopes among the first `k` of the worklist that takeover completes. */
  function CommitsOf(b: Board, worklist: seq<nat>, states: map<nat, Event>, k: nat): set<nat>
    requires k <= |worklist| && forall i :: 0 <= i < |worklist| ==> worklist[i] in states
  {
    set i | 0 <= i < k && Commits(b, states[worklist[i]]) :: worklist[i]
  }

  lemma CommitsNext(b: Board, worklist: seq<nat>, states: map<nat, Event>, k: nat)
    requires k < |worklist|
    requires forall i :: 0 <= i < |worklist| ==> worklist[i] in states && states[worklist[i]].Envelope?
    ensures CommitsOf(b, worklist, states, k + 1)
            == Completes(CommitsOf(b, worklist, states, k), worklist[k], FinalRecord(b, states[worklist[k]]))
    ensures CommitsOf(b, worklist, states, k + 1) <= CommitsOf(b, worklist, states, |worklist|)
  {}

  /** An unfinished envelope is not completed. */
  lemma NotCompleted(log: Log, env: nat, state: Event)
    requires StateOf(state, Look(BoardOf(log), env)) && state.record !in {Result, Discarded}
    ensures !ResourceReceipt.IsCompleted(log, env)
  {
    LookRecords(log, env);
    CompletedRecords(log, env);
  }

  /** One item moves the takeover along. */
  lemma ItemAlong(log0: Log, log: Log, done: set<nat>, epoch: nat, binding: Binding, env: nat, state: Event,
                  o: Observation)
    requires Along(log0, log, done, binding) && StateOf(state, Look(BoardOf(log), env))
    requires !GateOf(BoardOf(log), state.who.generation).Unknown?
    ensures Along(log0, log + ItemEvents(BoardOf(log), epoch, binding, env, state, o),
                  Completes(done, env, FinalRecord(BoardOf(log0), state)), binding)
    ensures Commits(BoardOf(log), state) == Commits(BoardOf(log0), state)
  {
    var b := BoardOf(log);
    ItemWrites(b, epoch, binding, env, state, o);
    if state.record !in {Result, Discarded} {
      NotCompleted(log, env, state);
    }
    assert GateOf(b, state.who.generation) == GateOf(BoardOf(log0), state.who.generation);
    AlongMore(log0, log, done, binding, ItemEvents(b, epoch, binding, env, state, o), env, FinalRecord(b, state));
  }

  /** What takeover completes is what the log says is unfinished under an open generation. */
  lemma CommitsRead(log: Log, worklist: seq<nat>, states: map<nat, Event>, env: nat)
    requires Good(log) && worklist == Worklist(BoardOf(log)) && Current(log, worklist, states, 0)
    ensures env in CommitsOf(BoardOf(log), worklist, states, |worklist|) <==> Committing(log, env)
  {
    var b := BoardOf(log);
    GoodBoard(log);
    WorklistFacts(b);
    LookRecords(log, env);
    assert ViewInv(b, env);
    if env in worklist {
      var i :| 0 <= i < |worklist| && worklist[i] == env;
      assert StateOf(states[worklist[i]], Look(b, worklist[i]));
    }
  }

  datatype StartError = NotOwner | BadCommand | NoWorkspace

  /** A non-empty argument list of non-empty arguments without NUL. */
  predicate UsableCommand(argv: seq<string>) {
    argv != [] && forall i :: 0 <= i < |argv| ==> argv[i] != [] && '\0' !in argv[i]
  }

  /** The envelopes that already have a fence. */
  method FencedEnvelopes(log: Log) returns (fenced: set<nat>)
    requires Good(log)
    ensures forall env :: env in fenced <==> Look(BoardOf(log), env).fence != 0
  {
    fenced := {};
    for i := 0 to |log|
      invariant forall env :: env in fenced <==> Look(BoardOf(log[..i]), env).fence != 0
    {
      var e := log[i];
      if e.Fenced? {
        FenceIsPositive(log, i);
      }
      FencedStep(BoardOf(log[..i]), e, fenced);
      assert log[..i + 1][..i] == log[..i];
      if e.Fenced? {
        fenced := fenced + {e.envelope};
      }
    }
    assert log[..|log|] == log;
  }

  lemma FenceIsPositive(log: Log, i: nat)
    requires Good(log) && i < |log| && log[i].Fenced?
    ensures log[i].fenceSequence >= 1
  {
    GoodAt(log, i);
    GoodBoard(log[..i]);
  }

  lemma FencedStep(b: Board, e: Event, fenced: set<nat>)
    requires forall env :: env in fenced <==> Look(b, env).fence != 0
    requires e.Fenced? ==> e.fenceSequence >= 1
    ensures var fenced' := if e.Fenced? then fenced + {e.envelope} else fenced;
            forall env :: env in fenced' <==> Look(Advance(b, e), env).fence != 0
  {
    var fenced' := if e.Fenced? then fenced + {e.envelope} else fenced;
    forall env ensures env in fenced' <==> Look(Advance(b, e), env).fence != 0 {
      AdvanceLook(b, e, env);
    }
  }

  /** Closing a generation moves no view, and leaves its gate shut at the close event's sequence. */
  lemma CloseOnly(b: Board, generation: string)
    requires !GateOf(b, generation).Unknown?
    ensures var closed := AdvanceAll(b, CloseEvents(b, generation));
            && closed.order == b.order && closed.owners == b.owners && (forall env :: Look(closed, env) == Look(b, env))
            && GateOf(closed, generation).Shut?
            && GateOf(closed, generation).sequence
               == if GateOf(b, generation).Open? then b.length + 1 else GateOf(b, generation).sequence
  {
    if GateOf(b, generation).Open? {
      Allows1(b, Generation(Close, generation, GateOf(b, generation).attempt));
    }
  }

  lemma {:induction false} FencesMore(b: Board, envs: seq<nat>, env: nat, generation: string)
    ensures FenceEvents(b, envs + [env], generation)
            == FenceEvents(b, envs, generation) + FenceEvents(b, [env], generation)
  {
    if envs == [] {
      assert envs + [env] == [env] && FenceEvents(b, envs, generation) == [];
    } else {
      FencesMore(b, envs[1..], env, generation);
      assert (envs + [env])[1..] == envs[1..] + [env];
    }
  }

  /** The fence loop: one event for each unfenced envelope of the generation, in order. */
  method FenceList(order: seq<nat>, latest: map<nat, Event>, fenced: set<nat>, generation: string, sequence: nat,
                   epoch: nat, ghost b: Board)
    returns (fences: Log)
    requires forall env :: env in order ==> env in latest && StateOf(latest[env], Look(b, env))
    requires forall env :: env in fenced <==> Look(b, env).fence != 0
    requires GateOf(b, generation).Shut? && GateOf(b, generation).sequence == sequence && epoch == b.owners
    ensures fences == FenceEvents(b, order, generation)
  {
    fences := [];
    for k := 0 to |order|
      invariant fences == FenceEvents(b, order[..k], generation)
    {
      var env := order[k];
      FencesMore(b, order[..k], env, generation);
      assert order[..k + 1] == order[..k] + [env] && [env][1..] == [];
      assert StateOf(latest[env], Look(b, env));
      if latest[env].who.generation == generation && env !in fenced {
        fences := fences + [Fenced(epoch, env, latest[env].who, sequence)];
      }
    }
    assert order[..|order|] == order;
  }

  lemma OpenedRun(store: Log, own: Binding, history: seq<Step>)
    requires Run(history) == Some(State(store, None))
    ensures var next := BoardOf(store).owners + 1;
            && Run(history + [Do(OpenOwner(own))])
               == Some(State(store + [OwnerOpened(next)], Some(Process(own, Opening))))
            && BoardOf(store + [OwnerOpened(next)]).owners == next
  {
    OpenMove(store, own);
    OwnersNext(store);
    var longer, s' := Extend(history, State(store, None), Do(OpenOwner(own)));
  }

  lemma OwnersNext(store: Log)
    ensures var next := BoardOf(store).owners + 1; BoardOf(store + [OwnerOpened(next)]).owners == next
  {
    var b, e := BoardOf(store), OwnerOpened(BoardOf(store).owners + 1);
    AppendOne(store, e);
    assert BoardOf(store + [e]) == Advance(b, e);
  }

  lemma OpenMove(store: Log, own: Binding)
    ensures var s, next := State(store, None), BoardOf(store).owners + 1;
            && Possible(s, Do(OpenOwner(own)))
            && After(s, Do(OpenOwner(own))) == State(store + [OwnerOpened(next)], Some(Process(own, Opening)))
  {}

  class AttemptExecutor {
    const isolation: ResourceReceipt.Isolation
    var log: Log
    var binding: Binding
    var epoch: nat
    var held: bool
    ghost var trace: seq<Step>
    ghost var process: Option<Process>

    ghost predicate Valid()
      reads this
    {
      && Run(trace) == Some(State(log, process))
      && (held <==> process.Some?)
      && (process.Some? ==> process.value.binding == binding && epoch == BoardOf(log).owners)
    }

    /** Take the free lock and append the owner's opening event. */
    constructor (store: Log, own: Binding, admitted: ResourceReceipt.Isolation, ghost history: seq<Step>)
      requires Run(history) == Some(State(store, None))
      ensures Valid() && held && binding == own && isolation == admitted && log == store + [OwnerOpened(epoch)]
      ensures process == Some(Process(own, Opening)) && epoch == BoardOf(store).owners + 1
    {
      var next := NextOwnerEpoch(store);
      binding, isolation, epoch, held, log := own, admitted, next, true, store + [OwnerOpened(next)];
      process := Some(Process(own, Opening));
      trace := history + [Do(OpenOwner(own))];
      new;
      OpenedRun(store, own, history);
    }

    /** Append the events of one protocol move; a move that raises releases the lock. */
    method Perform(events: Log, raises: bool, ghost m: Move)
      requires Valid() && !m.OpenOwner?
      requires Enabled(State(log, process), m) && events == Events(State(log, process), m)
      requires raises == (held && Volatile(State(log, process), m).None?)
      modifies this`log, this`held, this`trace, this`process
      ensures Valid() && log == old(log) + events && held == (old(held) && !raises)
      ensures process == old(Volatile(State(log, process), m))
    {
      ghost var longer, s' := Extend(trace, State(log, process), Do(m));
      KeepsOwner(State(log, process), m, trace);
      log := log + events;
      held := held && !raises;
      trace, process := longer, s'.owner;
    }

    /** An error outside any append: nothing more is written and the lock is released. */
    method Raise()
      requires Valid() && held
      modifies this`held, this`trace, this`process
      ensures Valid() && !held && process == None
    {
      ghost var step := Crash(Around(AppendForeign), 0);
      ghost var longer, s' := Extend(trace, State(log, process), step);
      assert s'.log == log;
      held := false;
      trace, process := longer, None;
    }

    /** The process evidence of one observation, if it carries any. */
    method RecordEvidence(env: nat, state: Event, o: Observation, takeover: bool)
      requires Valid() && held && StateOf(state, Look(BoardOf(log), env))
      requires Awaits(process.value, env, o, takeover, Observing)
      modifies this`log, this`held, this`trace, this`process
      ensures Valid() && held && log == old(log) + Evidence(epoch, env, state.who, o)
      ensures o.lifecycle.Some? ==> log == old(log) + [Observed(epoch, env, state.who, o.lifecycle.value)]
      ensures o.lifecycle.None? ==> log == old(log)
      ensures process == old(Some(Staged(process.value, env, takeover, o, Deciding)))
      ensures StateOf(state, Look(BoardOf(log), env))
      ensures GateOf(BoardOf(log), state.who.generation) == GateOf(BoardOf(old(log)), state.who.generation)
    {
      ObserveMove(State(log, process), env, o, takeover, state);
      var events := [];
      if o.lifecycle.Some? {
        events := [Observed(epoch, env, state.who, o.lifecycle.value)];
        EvidenceStays(log, events[0], env, state);
      } else {
        assert log + events == log;
      }
      Perform(events, false, Recorder(takeover, env, Observing, true));
    }

    /** The cleaned result arrived late: record the refused authority, then the discard. */
    method RecordLate(env: nat, state: Event, o: Observation, takeover: bool, attempt: string)
      requires Valid() && held && StateOf(state, Look(BoardOf(log), env))
      requires Awaits(process.value, env, o, takeover, Deciding)
      requires GateOf(BoardOf(log), state.who.generation).Shut?
      requires GateOf(BoardOf(log), state.who.generation).attempt == attempt
      modifies this`log, this`held, this`trace, this`process
      ensures Valid()
      ensures log == old(log) + [Generation(LateEvent, state.who.generation, attempt),
                                 RecordFor(Discarded, epoch, binding, env, state, o)]
      ensures log[|log| - 1] == Envelope(Discarded, epoch, env, state.who, STRICT_PROFILE, binding, o.cgroup, None,
                                         o.cleanupComplete, state.declared)
      ensures process == old(Recorded(process.value, env, takeover))
    {
      ghost var log0 := log;
      var late := Generation(LateEvent, state.who.generation, attempt);
      LateMove(State(log, process), env, o, takeover, state);
      StagedRecorded(process.value, env, o, takeover, Deciding, Discarding);
      EvidenceStays(log, late, env, state);
      Perform([late], false, Recorder(takeover, env, Deciding, false));
      DiscardMove(State(log, process), env, o, takeover, state);
      var discarded := RecordFor(Discarded, epoch, binding, env, state, o);
      Perform([discarded], takeover && !o.cleanupComplete, Recorder(takeover, env, Discarding, true));
      assert log == log0 + [late, discarded];
    }

    /** The result is in time: record the authority and the result, and write the receipt. */
    method RecordCommitted(env: nat, state: Event, o: Observation, takeover: bool, attempt: string)
      returns (written: bool)
      requires Valid() && held && StateOf(state, Look(BoardOf(log), env))
      requires Awaits(process.value, env, o, takeover, Deciding)
      requires GateOf(BoardOf(log), state.who.generation) == Open(attempt)
      modifies this`log, this`held, this`trace, this`process
      ensures Valid() && (written <==> ResourceReceipt.Reconstruct(log, isolation).Ok?)
      ensures log == old(log) + [Generation(Authority, state.who.generation, attempt),
                                 RecordFor(Result, epoch, binding, env, state, o)]
      ensures log[|log| - 1] == Envelope(Result, epoch, env, state.who, STRICT_PROFILE, binding, o.cgroup,
                                         Some(o.outcome), o.cleanupComplete, state.declared)
      ensures process == if takeover && !written then None else old(Recorded(process.value, env, takeover))
    {
      CommitMove(State(log, process), env, o, takeover, state);
      Perform([Generation(Authority, state.who.generation, attempt), RecordFor(Result, epoch, binding, env, state, o)],
              takeover && !o.cleanupComplete, Recorder(takeover, env, Deciding, true));
      var receipt := ResourceReceipt.ReconstructReceipt(log, isolation);
      written := receipt.Ok?;
      if takeover && held && !written {
        Raise();
      }
    }

    /**
      Record what the runtime observed: the process evidence, then RESULT if the generation still
      has authority and DISCARDED if it was closed.  After a RESULT the resource receipt is written.
      Takeover raises on an incomplete cleanup and on a receipt that cannot be reconstructed.
     */
    method RecordResult(env: nat, state: Event, o: Observation, takeover: bool) returns (accepted: bool, written: bool)
      requires Valid() && held && StateOf(state, Look(BoardOf(log), env))
      requires Awaits(process.value, env, o, takeover, Observing)
      modifies this`log, this`held, this`trace, this`process
      ensures Valid()
      ensures accepted == Active(BoardOf(old(log)), state.who.generation)
      ensures log == old(log) + Evidence(epoch, env, state.who, o)
                     + Verdict(GateOf(BoardOf(old(log)), state.who.generation), epoch, binding, env, state, o)
      ensures |log| == |old(log)| + (if o.lifecycle.Some? then 3 else 2)
      ensures o.lifecycle.Some? ==> log[|old(log)|] == Observed(epoch, env, state.who, o.lifecycle.value)
      ensures log[|log| - 1] == Envelope(if accepted then Result else Discarded, epoch, env, state.who, STRICT_PROFILE,
                                         binding, o.cgroup, if accepted then Some(o.outcome) else None,
                                         o.cleanupComplete, state.declared)
      ensures written <==> accepted && ResourceReceipt.Reconstruct(log, isolation).Ok?
      ensures process == if takeover && accepted && !written then None else old(Recorded(process.value, env, takeover))
    {
      KnownGate(trace, State(log, process), env);
      StagedRecorded(process.value, env, o, takeover, Observing, Deciding);
      RecordEvidence(env, state, o, takeover);
      var gate := GenerationState(log, state.who.generation);
      accepted := gate.Open?;
      if accepted {
        written := RecordCommitted(env, state, o, takeover, gate.attempt);
      } else {
        RecordLate(env, state, o, takeover, gate.attempt);
        written := false;
      }
    }

    /** One takeover item that was already finished: only its new process evidence is recorded. */
    method RecordResidue(env: nat, state: Event, o: Observation)
      requires Valid() && held && StateOf(state, Look(BoardOf(log), env))
      requires process.value.phase.Reconciling? && process.value.phase.todo != []
      requires process.value.phase.todo[0] == Item(env, true, o, Observing)
      modifies this`log, this`held, this`trace, this`process
      ensures Valid() && (held <==> o.lifecycle.Some? && o.cleanupComplete)
      ensures log == old(log) + Evidence(epoch, env, state.who, o)
      ensures o.lifecycle.Some? ==> log == old(log) + [Observed(epoch, env, state.who, o.lifecycle.value)]
      ensures o.lifecycle.None? ==> log == old(log)
      ensures held ==> process == old(FinishItem(process.value))
    {
      if o.lifecycle.Some? {
        Perform([Observed(epoch, env, state.who, o.lifecycle.value)], !o.cleanupComplete, TakeOver(ItemObserve));
      } else {
        Perform([], true, TakeOver(ItemRefuse));
      }
    }

    /** One takeover item that was unfinished: it goes on if its cleanup was complete and its receipt succeeds. */
    method RecordUnfinished(env: nat, state: Event, o: Observation)
      requires Valid() && held && StateOf(state, Look(BoardOf(log), env)) && state.record !in {Result, Discarded}
      requires process.value.phase.Reconciling? && process.value.phase.todo != []
      requires process.value.phase.todo[0] == Item(env, false, o, Observing)
      modifies this`log, this`held, this`trace, this`process
      ensures Valid() && log == old(log) + ItemEvents(BoardOf(old(log)), epoch, binding, env, state, o)
      ensures held <==> && o.cleanupComplete
                        && (Commits(BoardOf(old(log)), state) ==> ResourceReceipt.Reconstruct(log, isolation).Ok?)
      ensures held ==> process == old(FinishItem(process.value))
    {
      ghost var before, events := log, ItemEvents(BoardOf(log), epoch, binding, env, state, o);
      var accepted, written := RecordResult(env, state, o, true);
      assert log == before + events;
    }

    /**
      One takeover item, whether residue or unfinished: it raises unless the observation settles it and
      the receipt after a RESULT can be reconstructed.
     */
    method ReconcileItem(worklist: seq<nat>, states: map<nat, Event>, k: nat, o: Observation)
      requires Valid() && held && k < |worklist| && Current(log, worklist, states, k)
      requires forall j :: k < j < |worklist| ==> worklist[j] != worklist[k]
      requires process.value.phase.Reconciling? && process.value.phase.todo != []
      requires process.value.phase.todo[0]
               == Item(worklist[k], states[worklist[k]].record in {Result, Discarded}, o, Observing)
      modifies this`log, this`held, this`trace, this`process
      ensures Valid() && Current(log, worklist, states, k + 1)
      ensures log == old(log) + ItemEvents(BoardOf(old(log)), epoch, binding, worklist[k], states[worklist[k]], o)
      ensures held <==> && Settles(states[worklist[k]], o)
                        && (Commits(BoardOf(old(log)), states[worklist[k]]) ==>
                              ResourceReceipt.Reconstruct(log, isolation).Ok?)
      ensures held ==> process == old(Some(process.value.(phase := Reconciling(process.value.phase.todo[1..]))))
    {
      var env := worklist[k];
      var state := states[env];
      ItemAbout(BoardOf(log), epoch, binding, env, state, o);
      CurrentStays(log, ItemEvents(BoardOf(log), epoch, binding, env, state, o), worklist, states, k);
      if state.record in {Result, Discarded} {
        RecordResidue(env, state, o);
      } else {
        RecordUnfinished(env, state, o);
      }
    }

    /**
      The takeover loop over the worklist and the runtime's reports, zipped.  It ends normally exactly
      when every report settles its envelope and every receipt can be reconstructed.
     */
    method ReconcileItems(worklist: seq<nat>, states: map<nat, Event>, observations: seq<Observation>)
      requires Valid() && held && |observations| == |worklist| && Current(log, worklist, states, 0)
      requires forall i, j :: 0 <= i < j < |worklist| ==> worklist[i] != worklist[j]
      requires process.value.phase.Reconciling? && Zipped(process.value.phase.todo, worklist, states, observations)
      modifies this`log, this`held, this`trace, this`process
      ensures Valid()
      ensures held <==> && SettledUpTo(worklist, states, observations, |worklist|)
                        && Receipted(old(log), CommitsOf(BoardOf(old(log)), worklist, states, |worklist|), binding,
                                     isolation)
      ensures held ==> process == Some(old(process.value).(phase := Reconciling([])))
    {
      ghost var items, p, log0, b0 := process.value.phase.todo, process.value, log, BoardOf(log);
      assert items[0..] == items;
      for k := 0 to |worklist|
        invariant Valid() && held && Current(log, worklist, states, k)
        invariant process == Some(p.(phase := Reconciling(items[k..])))
        invariant SettledUpTo(worklist, states, observations, k)
        invariant Along(log0, log, CommitsOf(b0, worklist, states, k), binding)
        invariant Receipted(log0, CommitsOf(b0, worklist, states, k), binding, isolation)
      {
        assert items[k..][0] == items[k] && items[k..][1..] == items[k + 1..];
        ItemReady(trace, State(log, process), log0, worklist, states, k, epoch, binding, observations[k]);
        ReconcileItem(worklist, states, k, observations[k]);
        ItemReceipted(trace, State(log, process), log0, worklist, states, k, binding, isolation);
        if !held {
          return;
        }
      }
      assert items[|worklist|..] == [];
    }

    /** Read the envelopes to examine back from the log and hand them to the runtime. */
    method Survey(observations: seq<Observation>) returns (worklist: seq<nat>, states: map<nat, Event>)
      requires Valid() && held && process.value.phase.Opening?
      requires |observations| == |Worklist(BoardOf(log))|
      requires forall i :: 0 <= i < |observations| ==>
                 ReconcileReports(Look(BoardOf(log), Worklist(BoardOf(log))[i]).cgroup, observations[i])
      modifies this`log, this`held, this`trace, this`process
      ensures Valid() && held && log == old(log)
      ensures worklist == Worklist(BoardOf(log)) && Current(log, worklist, states, 0)
      ensures forall i, j :: 0 <= i < j < |worklist| ==> worklist[i] != worklist[j]
      ensures process.value.binding == binding && process.value.phase.Reconciling?
              && Zipped(process.value.phase.todo, worklist, states, observations)
    {
      RunKeeps(trace);
      worklist, states := TakeoverStates(log);
      WorklistCurrent(log, worklist, states);
      AllSettleRead(log, worklist, states, observations);
      assert log + [] == log;
      Perform([], false, TakeOver(Takeover.Survey(observations)));
    }

    /**
      Takeover.  It returns normally exactly when every reported observation settles its envelope and
      the log it starts from lets every receipt succeed; then every envelope in the log is finished
      and its latest observation left no process behind.  Otherwise it raises, and the lock is free.
     */
    method Reconcile(observations: seq<Observation>) returns (ok: bool)
      requires Valid() && held && process.value.phase.Opening?
      requires |observations| == |Worklist(BoardOf(log))|
      requires forall i :: 0 <= i < |observations| ==>
                 ReconcileReports(Look(BoardOf(log), Worklist(BoardOf(log))[i]).cgroup, observations[i])
      modifies this`log, this`held, this`trace, this`process
      ensures Valid() && (ok <==> held) && (ok ==> process == Some(Process(binding, Serving(map[], map[], map[], {}))))
      ensures ok <==> AllSettle(old(log), observations) && ReceiptsSucceed(old(log), binding, isolation)
      ensures ok ==>
                forall env :: Records(log, env) != [] ==> Finished(Records(log, env)) && LatestSurvivors(log, env) == []
    {
      var worklist, states := Survey(observations);
      AllSettleRead(log, worklist, states, observations);
      CommittingRead(trace, State(log, process), worklist, states, binding, isolation);
      ReconcileItems(worklist, states, observations);
      if !held {
        return false;
      }
      TakeoverSettled(trace, State(log, process));
      assert log + [] == log;
      Perform([], false, TakeOver(BeginServing));
      return true;
    }

    /**
      Start: refused unless the request owns an open generation, carries a usable command and has a
      workspace; otherwise authority and the reservation are appended and the handle is registered.
     */
    method Start(request: Request, argv: seq<string>, workspaceExists: bool)
      returns (r: Prelude.Result<nat, StartError>)
      requires Valid() && held && process.value.phase.Serving?
      modifies this`log, this`held, this`trace, this`process
      ensures Valid() && held
      ensures r.Ok? <==> && GateOf(BoardOf(old(log)), request.who.generation) == Open(request.who.attempt)
                         && argv != [] && (forall i :: 0 <= i < |argv| ==> argv[i] != "" && '\0' !in argv[i])
                         && workspaceExists
      ensures r.Err? ==> log == old(log) && process == old(process)
      ensures r.Ok? ==> r.value == BoardOf(old(log)).reserved + 1 && process.value.phase.Serving?
                        && process.value.phase.handles
                           == old(process.value.phase.handles)[r.value := Handle(request, false, Preparing)]
                        && log == old(log) + [Generation(Authority, request.who.generation, request.who.attempt),
                                              Envelope(Reserved, epoch, r.value, request.who, STRICT_PROFILE,
                                                       binding, "", None, false, request.declared)]
    {
      var refusal := CheckStart(request, argv, workspaceExists);
      if refusal.Some? {
        return Err(refusal.value);
      }
      var env := Admit(request);
      return Ok(env);
    }

    /** The checks a start makes before it writes anything. */
    method CheckStart(request: Request, argv: seq<string>, workspaceExists: bool) returns (refusal: Option<StartError>)
      ensures var owns := GateOf(BoardOf(log), request.who.generation) == Open(request.who.attempt);
              var usable := argv != [] && forall i :: 0 <= i < |argv| ==> argv[i] != "" && '\0' !in argv[i];
              && (refusal == Some(NotOwner) <==> !owns)
              && (refusal == Some(BadCommand) <==> owns && !usable)
              && (refusal == Some(NoWorkspace) <==> owns && usable && !workspaceExists)
              && (refusal == None <==> owns && usable && workspaceExists)
    {
      var gate := GenerationState(log, request.who.generation);
      if gate != Open(request.who.attempt) {
        return Some(NotOwner);
      }
      if !UsableCommand(argv) {
        return Some(BadCommand);
      }
      return if workspaceExists then None else Some(NoWorkspace);
    }

    /** Reserve under one lock and register under the other. */
    method Admit(request: Request) returns (env: nat)
      requires Valid() && held && process.value.phase.Serving?
      requires GateOf(BoardOf(log), request.who.generation) == Open(request.who.attempt)
      modifies this`log, this`held, this`trace, this`process
      ensures Valid() && held && env == BoardOf(old(log)).reserved + 1 && process.value.phase.Serving?
      ensures process.value.phase.handles
              == old(process.value.phase.handles)[env := Handle(request, false, Preparing)]
      ensures log == old(log) + [Generation(Authority, request.who.generation, request.who.attempt),
                                 Envelope(Reserved, epoch, env, request.who, STRICT_PROFILE, binding, "", None, false,
                                          request.declared)]
    {
      env := Reserve(request);
      RegisterHandle(env);
    }

    /** Under the second lock: the handle joins the others. */
    method RegisterHandle(env: nat)
      requires Valid() && held && process.value.phase.Serving? && env in process.value.phase.starting
      modifies this`log, this`held, this`trace, this`process
      ensures Valid() && held && log == old(log) && process.value.phase.Serving?
      ensures var phase := old(process.value.phase);
              process.value.phase.handles == phase.handles[env := Handle(phase.starting[env], false, Preparing)]
    {
      RegisterMove(State(log, process), env);
      assert log + [] == log;
      Perform([], false, Thread(env, Register));
    }

    /** Under the first lock: authority and the reservation. */
    method Reserve(request: Request) returns (env: nat)
      requires Valid() && held && process.value.phase.Serving?
      requires GateOf(BoardOf(log), request.who.generation) == Open(request.who.attempt)
      modifies this`log, this`held, this`trace, this`process
      ensures Valid() && held && env == BoardOf(old(log)).reserved + 1
      ensures process.value.phase.Serving? && process.value.phase.handles == old(process.value.phase.handles)
      ensures env in process.value.phase.starting && process.value.phase.starting[env] == request
      ensures log == old(log) + [Generation(Authority, request.who.generation, request.who.attempt),
                                 Envelope(Reserved, epoch, env, request.who, STRICT_PROFILE, binding, "", None, false,
                                          request.declared)]
    {
      env := NextEnvelope(log);
      CalmStart(State(log, process), request);
      Perform([Generation(Authority, request.who.generation, request.who.attempt),
               Envelope(Reserved, epoch, env, request.who, STRICT_PROFILE, binding, "", None, false, request.declared)],
              false, Move.Start(request, [], []));
    }

    /**
      Close the generation if it is open, then fence each of its envelopes that has no fence yet.  A
      generation already closed with another disposition is refused.
     */
    method CloseAndFence(generation: string, sameDisposition: bool, ghost token: nat) returns (ok: bool)
      requires Valid() && held && process.value.phase.Serving? && token !in process.value.phase.closers
      modifies this`log, this`held, this`trace, this`process
      ensures Valid() && held
      ensures ok <==> var gate := GateOf(BoardOf(old(log)), generation); gate.Open? || (gate.Shut? && sameDisposition)
      ensures ok ==> log == old(log) + ClosingEvents(BoardOf(old(log)), Closing.CloseAndFence(generation))
      ensures !ok ==> log == old(log)
    {
      RunKeeps(trace);
      var gate := GenerationState(log, generation);
      if gate.Unknown? || (gate.Shut? && !sameDisposition) {
        return false;
      }
      ghost var b := BoardOf(log);
      var closing := if gate.Open? then [Generation(Close, generation, gate.attempt)] else [];
      var sequence := if gate.Open? then |log| + 1 else gate.sequence;
      GoodBoard(log);
      assert closing == CloseEvents(b, generation);
      CloseOnly(b, generation);
      var order, latest := EnvelopeStates(log);
      var fenced := FencedEnvelopes(log);
      var fences := FenceList(order, latest, fenced, generation, sequence, epoch, AdvanceAll(b, closing));
      Perform(closing + fences, false, CloseCall(token, Closing.CloseAndFence(generation)));
      return true;
    }
  }

  /** A start that nobody interrupts. */
  lemma CalmStart(s: State, request: Request)
    requires s.owner.Some? && s.owner.value.phase.Serving?
    requires GateOf(BoardOf(s.log), request.who.generation) == Open(request.who.attempt)
    ensures var m, b := Move.Start(request, [], []), BoardOf(s.log);
            && Enabled(s, m)
            && Events(s, m) == [Generation(Authority, request.who.generation, request.who.attempt),
                                ReservedEvent(b, s.owner.value.binding, request)]
            && Volatile(s, m) == Some(StartNext(b, s.owner.value, request))
  {
    var m, b := Move.Start(request, [], []), BoardOf(s.log);
    var authority, reserved :=
        AuthorityEvent(b, request.who.generation), ReservedEvent(b, s.owner.value.binding, request);
    assert Events(s, m) == [] + ([authority] + ([] + [reserved]));
  }

  lemma RegisterMove(s: State, env: nat)
    requires s.owner.Some? && s.owner.value.phase.Serving? && env in s.owner.value.phase.starting
    ensures var m, phase := Thread(env, Register), s.owner.value.phase;
            && Enabled(s, m) && Events(s, m) == [] && Volatile(s, m).Some? && Volatile(s, m).value.phase.Serving?
            && Volatile(s, m).value.phase.handles == phase.handles[env := Handle(phase.starting[env], false, Preparing)]
  {}

  /** What the next item will have done to completions and to the end of the log. */
  lemma ItemReady(steps: seq<Step>, s: State, log0: Log, worklist: seq<nat>, states: map<nat, Event>, k: nat,
                  epoch: nat, binding: Binding, o: Observation)
    requires Run(steps) == Some(s) && k < |worklist| && Current(s.log, worklist, states, k)
    requires forall i :: 0 <= i < |worklist| ==> worklist[i] in states && states[worklist[i]].Envelope?
    requires Along(log0, s.log, CommitsOf(BoardOf(log0), worklist, states, k), binding)
    ensures var state, b0 := states[worklist[k]], BoardOf(log0);
            var log := s.log + ItemEvents(BoardOf(s.log), epoch, binding, worklist[k], state, o);
            && Along(log0, log, CommitsOf(b0, worklist, states, k + 1), binding)
            && Commits(BoardOf(s.log), state) == Commits(b0, state)
            && (Commits(b0, state) ==>
                  log != [] && var last := log[|log| - 1];
                  IsRecord(last, Result) && last.envelope == worklist[k] && last.binding == binding)
  {
    var state, b0 := states[worklist[k]], BoardOf(log0);
    KnownGate(steps, s, worklist[k]);
    ItemAlong(log0, s.log, CommitsOf(b0, worklist, states, k), epoch, binding, worklist[k], state, o);
    ItemWrites(BoardOf(s.log), epoch, binding, worklist[k], state, o);
    CommitsNext(b0, worklist, states, k);
  }

  /** After one item, the receipt says whether all receipts so far succeed. */
  lemma ItemReceipted(steps: seq<Step>, s: State, log0: Log, worklist: seq<nat>, states: map<nat, Event>, k: nat,
                      binding: Binding, isolation: ResourceReceipt.Isolation)
    requires Run(steps) == Some(s) && k < |worklist|
    requires forall i :: 0 <= i < |worklist| ==> worklist[i] in states && states[worklist[i]].Envelope?
    requires Along(log0, s.log, CommitsOf(BoardOf(log0), worklist, states, k + 1), binding)
    requires Receipted(log0, CommitsOf(BoardOf(log0), worklist, states, k), binding, isolation)
    requires Commits(BoardOf(log0), states[worklist[k]]) ==>
               s.log != [] && var last := s.log[|s.log| - 1];
               IsRecord(last, Result) && last.envelope == worklist[k] && last.binding == binding
    ensures var b0 := BoardOf(log0);
            var all := Receipted(log0, CommitsOf(b0, worklist, states, |worklist|), binding, isolation);
            if Commits(b0, states[worklist[k]]) && ResourceReceipt.Reconstruct(s.log, isolation).Err? then !all
            else Receipted(log0, CommitsOf(b0, worklist, states, k + 1), binding, isolation)
  {
    var b0 := BoardOf(log0);
    var done, all := CommitsOf(b0, worklist, states, k + 1), CommitsOf(b0, worklist, states, |worklist|);
    CommitsNext(b0, worklist, states, k);
    if Commits(b0, states[worklist[k]]) {
      RunKeeps(steps);
      ReceiptAlong(log0, s.log, done, binding, isolation);
      if Receipted(log0, all, binding, isolation) {
        ReceiptedLess(log0, done, all, binding, isolation);
      }
    }
  }

  lemma CommittingRead(steps: seq<Step>, s: State, worklist: seq<nat>, states: map<nat, Event>, binding: Binding,
                       isolation: ResourceReceipt.Isolation)
    requires Run(steps) == Some(s) && worklist == Worklist(BoardOf(s.log)) && Current(s.log, worklist, states, 0)
    ensures Receipted(s.log, CommitsOf(BoardOf(s.log), worklist, states, |worklist|), binding, isolation)
            <==> ReceiptsSucceed(s.log, binding, isolation)
  {
    RunKeeps(steps);
    forall env ensures env in CommitsOf(BoardOf(s.log), worklist, states, |worklist|) <==> Committing(s.log, env) {
      CommitsRead(s.log, worklist, states, env);
    }
    ReceiptedRead(s.log, CommitsOf(BoardOf(s.log), worklist, states, |worklist|), binding, isolation);
  }

  lemma TakeoverSettled(steps: seq<Step>, s: State)
    requires Run(steps) == Some(s) && s.owner.Some? && s.owner.value.phase == Reconciling([])
    ensures forall env :: Records(s.log, env) != [] ==>
              Finished(Records(s.log, env)) && LatestSurvivors(s.log, env) == []
  {
    var longer, s' := Extend(steps, s, Do(TakeOver(BeginServing)));
    assert s'.log == s.log;
    TakeoverReturns(steps);
  }

  /** No move but opening changes the owner's epoch or binding. */
  lemma KeepsOwner(s: State, m: Move, steps: seq<Step>)
    requires Run(steps) == Some(s) && Enabled(s, m) && !m.OpenOwner?
    ensures BoardOf(s.log + Events(s, m)).owners == BoardOf(s.log).owners
    ensures Volatile(s, m).Some? ==> s.owner.Some? && Volatile(s, m).value.binding == s.owner.value.binding
  {
    NoOwnerOpened(s, m);
    OwnersStay(s.log, Events(s, m));
  }

  lemma {:induction false} OwnersStay(log: Log, events: Log)
    requires forall e :: e in events ==> !e.OwnerOpened?
    ensures BoardOf(log + events).owners == BoardOf(log).owners
  {
    if events == [] {
      assert log + events == log;
    } else {
      var before, e := events[..|events| - 1], events[|events| - 1];
      assert log + events == (log + before) + [e];
      assert e in events;
      OwnersStay(log, before);
      AppendOne(log + before, e);
    }
  }

  lemma NoOwnerOpened(s: State, m: Move)
    requires Enabled(s, m) && !m.OpenOwner?
    ensures forall e :: e in Events(s, m) ==> !e.OwnerOpened?
  {
    if m.Start? {
      SurroundingsQuiet(BoardOf(s.log), m.before);
      SurroundingsQuiet(Granted(BoardOf(s.log), m.request, m.before), m.between);
    } else if m.CloseCall? && m.closing.CloseAndFence? {
      var b, g := BoardOf(s.log), m.closing.generation;
      var closed := AdvanceAll(b, CloseEvents(b, g));
      FencesOnly(closed, closed.order, g);
    }
  }
}
