/**
  The canonical events of the Attempt executor and everything its code reads back out of them.

  The log is a sequence of events; an event's sequence number is its position plus one.  Envelope
  ids ("envelope-000001", ...) and owner epochs ("executor-owner-000001", ...) are modelled by the
  serial they spell.  `Good` says which events may follow which: it is the whole of what the
  protocol's writers guarantee, and every theorem about logs is proved from it.
 */
module ExecutorLog {
  import opened Prelude

  datatype Outcome =
    | Exited | Cpu | Memory | Pids | Filesystem | Network | Deadline | Cancelled
    | LaunchFailed | Reconciled

  datatype EnvelopeRecord = Reserved | Launched | Result | Discarded

  datatype GenerationRecord = Acquire | Close | Authority | LateEvent

  /** Who an envelope belongs to. */
  datatype Ownership = Ownership(generation: string, attempt: string, step: string)

  datatype Binding = Binding(imageId: string, manifestDigest: string, configDigest: string, platform: string)

  /** The declared limits that later checks compare; `cleanupSeconds` bounds teardown. */
  datatype Limits = Limits(memoryBytes: int, pids: int, filesystemBytes: int, wallSeconds: real, cleanupSeconds: real)

  /** What one teardown saw: the processes left after the kill, and whether every inventory was readable. */
  datatype Lifecycle = Lifecycle(afterKill: seq<nat>, inventoryComplete: bool)

  datatype Event =
    | OwnerOpened(epoch: nat)
    | Envelope(record: EnvelopeRecord, epoch: nat, envelope: nat, who: Ownership, profile: string,
               binding: Binding, cgroup: string, outcome: Option<Outcome>, cleanupComplete: bool,
               declared: Limits)
    | Fenced(epoch: nat, envelope: nat, who: Ownership, fenceSequence: nat)
    | Observed(epoch: nat, envelope: nat, who: Ownership, lifecycle: Lifecycle)
    | Generation(kind: GenerationRecord, generation: string, attempt: string)
    | Foreign

  type Log = seq<Event>

  const STRICT_PROFILE: string := "strict-profile"

  // ---------------------------------------------------------------- identities

  /** The identity the event store keys an event by; `Unkeyed` events take no part. */
  datatype EventId =
    | OwnerId(epoch: nat)
    | EnvelopeId(record: EnvelopeRecord, envelope: nat)
    | FencedId(envelope: nat)
    | ObservedId(envelope: nat, epoch: nat)
    | CloseId(generation: string)
    | Unkeyed

  function IdentityOf(e: Event): EventId {
    match e
    case OwnerOpened(epoch) => OwnerId(epoch)
    case Envelope(record, _, envelope, _, _, _, _, _, _, _) => EnvelopeId(record, envelope)
    case Fenced(_, envelope, _, _) => FencedId(envelope)
    case Observed(epoch, envelope, _, _) => ObservedId(envelope, epoch)
    case Generation(kind, generation, _) => if kind == Close then CloseId(generation) else Unkeyed
    case Foreign => Unkeyed
  }

  // ---------------------------------------------------------------- what the log projects to

  datatype Gate = Unknown | Open(attempt: string) | Shut(attempt: string, sequence: nat)

  /**
    Everything later code reads about one envelope: the payload of its latest envelope event
    (`who`, `declared`, `cgroup`), its fence, the epochs it was observed in, and the processes its
    latest observation left behind.
   */
  datatype View = View(records: seq<EnvelopeRecord>, who: Ownership, declared: Limits, cgroup: string,
                       fence: nat, observedIn: set<nat>, survivors: seq<nat>)

  const UNSEEN: View := View([], Ownership("", "", ""), Limits(0, 0, 0, 0.0, 0.0), "", 0, {}, [])

  /**
    The whole projection: how many events, owners and reservations there are, one view per envelope
    in order of first mention, the envelopes in order of first observation, and one gate per
    generation (a closed gate remembers the sequence number of its close event).
   */
  datatype Board = Board(length: nat, owners: nat, reserved: nat, order: seq<nat>, views: map<nat, View>,
                         observedOrder: seq<nat>, gates: map<string, Gate>)

  const EMPTY_BOARD: Board := Board(0, 0, 0, [], map[], [], map[])

  function Look(b: Board, env: nat): View {
    if env in b.views then b.views[env] else UNSEEN
  }

  function GateOf(b: Board, generation: string): Gate {
    if generation in b.gates then b.gates[generation] else Unknown
  }

  predicate Active(b: Board, generation: string) {
    GateOf(b, generation).Open?
  }

  predicate Known(v: View) {
    v.records != []
  }

  predicate Terminal(v: View) {
    v.records != [] && v.records[|v.records| - 1] in {Result, Discarded}
  }

  function AddOnce(order: seq<nat>, env: nat): seq<nat> {
    if env in order then order else order + [env]
  }

  predicate AboutSome(e: Event) {
    e.Envelope? || e.Fenced? || e.Observed?
  }

  predicate About(e: Event, env: nat) {
    AboutSome(e) && e.envelope == env
  }

  function LookStep(v: View, e: Event): View
    requires AboutSome(e)
  {
    if e.Envelope? then
      v.(records := v.records + [e.record], who := e.who, declared := e.declared, cgroup := e.cgroup)
    else if e.Fenced? then v.(fence := e.fenceSequence)
    else v.(observedIn := v.observedIn + {e.epoch}, survivors := e.lifecycle.afterKill)
  }

  function GateStep(gate: Gate, e: Event, sequence: nat): Gate
    requires e.Generation?
  {
    if e.kind == Acquire then Open(e.attempt) else if e.kind == Close then Shut(e.attempt, sequence) else gate
  }

  /** How one event moves the projection. */
  function Advance(b: Board, e: Event): Board {
    Board(b.length + 1,
          b.owners + if e.OwnerOpened? then 1 else 0,
          b.reserved + if IsRecord(e, Reserved) then 1 else 0,
          if e.Envelope? then AddOnce(b.order, e.envelope) else b.order,
          if AboutSome(e) then b.views[e.envelope := LookStep(Look(b, e.envelope), e)] else b.views,
          if e.Observed? then AddOnce(b.observedOrder, e.envelope) else b.observedOrder,
          if e.Generation?
          then b.gates[e.generation := GateStep(GateOf(b, e.generation), e, b.length + 1)] else b.gates)
  }

  function BoardOf(log: Log): Board {
    if log == [] then EMPTY_BOARD else Advance(BoardOf(log[..|log| - 1]), log[|log| - 1])
  }

  function AdvanceAll(b: Board, events: Log): Board
    decreases |events|
  {
    if events == [] then b else AdvanceAll(Advance(b, events[0]), events[1..])
  }

  /** The record kinds of one envelope, in log order. */
  function Records(log: Log, env: nat): seq<EnvelopeRecord> {
    if log == [] then []
    else
      var e := log[|log| - 1];
      Records(log[..|log| - 1], env) + if e.Envelope? && e.envelope == env then [e.record] else []
  }

  predicate IsRecord(e: Event, record: EnvelopeRecord) {
    e.Envelope? && e.record == record
  }

  // ---------------------------------------------------------------- what may follow what

  /** The envelope lifecycle: RESERVED, then optionally LAUNCHED, then one of RESULT or DISCARDED. */
  predicate Lifecycles(records: seq<EnvelopeRecord>) {
    || records == [] || records == [Reserved] || records == [Reserved, Launched]
    || records == [Reserved, Result] || records == [Reserved, Discarded]
    || records == [Reserved, Launched, Result] || records == [Reserved, Launched, Discarded]
  }

  predicate Unfinished(records: seq<EnvelopeRecord>) {
    records == [Reserved] || records == [Reserved, Launched]
  }

  predicate AllowedRecord(b: Board, e: Event)
    requires e.Envelope?
  {
    var v, gate := Look(b, e.envelope), GateOf(b, e.who.generation);
    && e.epoch == b.owners && 1 <= e.epoch && e.profile == STRICT_PROFILE
    && (e.record != Reserved ==> e.who == v.who && e.declared == v.declared)
    && (e.outcome.Some? <==> e.record == Result)
    && match e.record
       case Reserved => e.envelope == b.reserved + 1 && e.cgroup == "" && !gate.Unknown?
       case Launched => v.records == [Reserved] && e.cgroup != ""
       case Result =>
         && Unfinished(v.records) && gate.Open?
         && (v.records == [Reserved] ==> e.outcome.value in {LaunchFailed, Reconciled})
       case Discarded => Unfinished(v.records) && gate.Shut?
  }

  predicate Allowed(b: Board, e: Event) {
    match e
    case OwnerOpened(epoch) => epoch == b.owners + 1
    case Envelope(_, _, _, _, _, _, _, _, _, _) => AllowedRecord(b, e)
    case Fenced(_, env, who, fenceSequence) =>
      && Known(Look(b, env)) && Look(b, env).fence == 0 && who == Look(b, env).who
      && GateOf(b, who.generation).Shut? && GateOf(b, who.generation).sequence == fenceSequence
    case Observed(epoch, env, who, _) =>
      && epoch == b.owners && epoch !in Look(b, env).observedIn && Launched in Look(b, env).records
      && who == Look(b, env).who
    case Generation(kind, g, attempt) =>
      (match kind
       case Acquire => GateOf(b, g).Unknown?
       case Close => GateOf(b, g) == Open(attempt)
       case Authority => GateOf(b, g).Open?
       case LateEvent => GateOf(b, g).Shut?)
    case Foreign => true
  }

  /** Every event of the list is allowed where its turn comes. */
  predicate Allows(b: Board, events: Log)
    decreases |events|
  {
    events == [] || (Allowed(b, events[0]) && Allows(Advance(b, events[0]), events[1..]))
  }

  /** A log every event of which was allowed when it was appended. */
  predicate Good(log: Log) {
    log == [] || (Good(log[..|log| - 1]) && Allowed(BoardOf(log[..|log| - 1]), log[|log| - 1]))
  }

  // ---------------------------------------------------------------- appending

  lemma AppendOne(log: Log, e: Event)
    ensures BoardOf(log + [e]) == Advance(BoardOf(log), e)
    ensures Good(log + [e]) == (Good(log) && Allowed(BoardOf(log), e))
  {
    assert (log + [e])[..|log|] == log;
  }

  lemma {:induction false} AppendAll(log: Log, events: Log)
    requires Good(log) && Allows(BoardOf(log), events)
    ensures Good(log + events) && BoardOf(log + events) == AdvanceAll(BoardOf(log), events)
    decreases |events|
  {
    if events == [] {
      assert log + events == log;
    } else {
      var grown, rest := log + [events[0]], events[1..];
      assert log + events == grown + rest;
      AppendOne(log, events[0]);
      AppendAll(grown, rest);
    }
  }

  lemma {:induction false} AllowsPrefix(b: Board, events: Log, kept: nat)
    requires Allows(b, events) && kept <= |events|
    ensures Allows(b, events[..kept])
    decreases |events|
  {
    if events != [] && kept > 0 {
      AllowsPrefix(Advance(b, events[0]), events[1..], kept - 1);
      assert events[..kept][1..] == events[1..][..kept - 1];
    }
  }

  lemma Allows1(b: Board, e: Event)
    ensures Allows(b, [e]) == Allowed(b, e)
    ensures AdvanceAll(b, [e]) == Advance(b, e)
  {
    assert [e][1..] == [];
  }

  lemma Allows2(b: Board, e: Event, f: Event)
    ensures Allows(b, [e, f]) == (Allowed(b, e) && Allowed(Advance(b, e), f))
    ensures AdvanceAll(b, [e, f]) == Advance(Advance(b, e), f)
  {
    assert [e, f][1..] == [f];
    Allows1(Advance(b, e), f);
  }

  lemma {:induction false} AllowsConcat(b: Board, xs: Log, ys: Log)
    ensures Allows(b, xs + ys) == (Allows(b, xs) && Allows(AdvanceAll(b, xs), ys))
    ensures AdvanceAll(b, xs + ys) == AdvanceAll(AdvanceAll(b, xs), ys)
    decreases |xs|
  {
    if xs == [] {
      assert xs + ys == ys;
    } else {
      AllowsConcat(Advance(b, xs[0]), xs[1..], ys);
      assert (xs + ys)[1..] == xs[1..] + ys;
    }
  }

  lemma {:induction false} GoodAt(log: Log, k: nat)
    requires Good(log) && k < |log|
    ensures Good(log[..k]) && Allowed(BoardOf(log[..k]), log[k])
  {
    if k < |log| - 1 {
      GoodAt(log[..|log| - 1], k);
      assert log[..|log| - 1][..k] == log[..k];
    }
  }

  // ---------------------------------------------------------------- what every good log's projection satisfies

  /** The facts about one envelope's view. */
  predicate ViewInv(b: Board, env: nat) {
    var v := Look(b, env);
    && Lifecycles(v.records)
    && (Known(v) <==> 1 <= env <= b.reserved)
    && (Known(v) ==> 1 <= b.owners && !GateOf(b, v.who.generation).Unknown?)
    && (v.records == [Reserved] ==> v.cgroup == "")
    && (v.records == [Reserved, Launched] ==> v.cgroup != "")
    && (v.fence != 0 ==> Known(v) && GateOf(b, v.who.generation).Shut?
                         && GateOf(b, v.who.generation).sequence == v.fence)
    && (v.observedIn != {} ==> Launched in v.records)
    && (v.survivors != [] ==> v.observedIn != {})
    && (forall k :: k in v.observedIn ==> k <= b.owners)
  }

  predicate Distinct(s: seq<nat>) {
    forall i, j :: 0 <= i < j < |s| ==> s[i] != s[j]
  }

  /** The two orders list each envelope they should exactly once. */
  ghost predicate OrderInv(b: Board) {
    && Distinct(b.order) && Distinct(b.observedOrder)
    && (forall env :: env in b.order <==> Known(Look(b, env)))
    && (forall env :: env in b.observedOrder <==> Look(b, env).observedIn != {})
  }

  ghost predicate BoardInv(b: Board) {
    && (forall env :: ViewInv(b, env))
    && OrderInv(b)
    && (forall g :: GateOf(b, g).Shut? ==> 1 <= GateOf(b, g).sequence <= b.length)
  }

  /** An event moves only the view it is about. */
  lemma AdvanceLook(b: Board, e: Event, env: nat)
    ensures Look(Advance(b, e), env) == if About(e, env) then LookStep(Look(b, env), e) else Look(b, env)
  {}

  lemma AdvanceViewInv(b: Board, e: Event, env: nat)
    requires ViewInv(b, env) && Allowed(b, e)
    ensures ViewInv(Advance(b, e), env)
  {
    AdvanceLook(b, e, env);
    if e.Envelope? && e.envelope == env {
      assert [Reserved] + [e.record] == [Reserved, e.record];
      assert [Reserved, Launched] + [e.record] == [Reserved, Launched, e.record];
    }
  }

  lemma AdvanceOrderInv(b: Board, e: Event)
    requires OrderInv(b)
    ensures OrderInv(Advance(b, e))
  {
    forall env ensures (env in Advance(b, e).order <==> Known(Look(Advance(b, e), env)))
                       && (env in Advance(b, e).observedOrder <==> Look(Advance(b, e), env).observedIn != {})
    {
      AdvanceLook(b, e, env);
    }
  }

  lemma AdvanceInv(b: Board, e: Event)
    requires BoardInv(b) && Allowed(b, e)
    ensures BoardInv(Advance(b, e))
  {
    forall env ensures ViewInv(Advance(b, e), env) {
      AdvanceViewInv(b, e, env);
    }
    AdvanceOrderInv(b, e);
    forall g | GateOf(Advance(b, e), g).Shut? ensures 1 <= GateOf(Advance(b, e), g).sequence <= b.length + 1 {
      assert GateOf(b, g).Shut? ==> 1 <= GateOf(b, g).sequence <= b.length;
    }
  }

  lemma {:induction false} AdvanceAllInv(b: Board, events: Log)
    requires BoardInv(b) && Allows(b, events)
    ensures BoardInv(AdvanceAll(b, events))
    decreases |events|
  {
    if events != [] {
      AdvanceInv(b, events[0]);
      AdvanceAllInv(Advance(b, events[0]), events[1..]);
    }
  }

  lemma {:induction false} GoodBoard(log: Log)
    requires Good(log)
    ensures BoardInv(BoardOf(log)) && BoardOf(log).length == |log|
  {
    if log != [] {
      GoodBoard(log[..|log| - 1]);
      AdvanceInv(BoardOf(log[..|log| - 1]), log[|log| - 1]);
    }
  }

  lemma {:induction false} LookRecords(log: Log, env: nat)
    ensures Look(BoardOf(log), env).records == Records(log, env)
  {
    if log != [] {
      LookRecords(log[..|log| - 1], env);
    }
  }

  /** Each envelope's records follow the lifecycle. */
  lemma GoodLifecycle(log: Log, env: nat)
    requires Good(log)
    ensures Lifecycles(Records(log, env))
  {
    GoodBoard(log);
    LookRecords(log, env);
    assert ViewInv(BoardOf(log), env);
  }

  // ---------------------------------------------------------------- identities are used once

  /** The mark an event's identity leaves on the projection for good. */
  predicate Marked(b: Board, id: EventId) {
    match id
    case OwnerId(epoch) => epoch <= b.owners
    case EnvelopeId(record, envelope) => record in Look(b, envelope).records && 1 <= envelope <= b.reserved
    case FencedId(envelope) => Look(b, envelope).fence != 0
    case ObservedId(envelope, epoch) => epoch in Look(b, envelope).observedIn
    case CloseId(generation) => GateOf(b, generation).Shut?
    case Unkeyed => true
  }

  lemma MarkStays(b: Board, e: Event, id: EventId)
    requires BoardInv(b) && Allowed(b, e) && Marked(b, id)
    ensures Marked(Advance(b, e), id)
  {
    if id.FencedId? {
      assert ViewInv(b, id.envelope);
    }
  }

  lemma MarkMade(b: Board, e: Event)
    requires BoardInv(b) && Allowed(b, e)
    ensures Marked(Advance(b, e), IdentityOf(e))
  {
    if e.Envelope? {
      assert ViewInv(b, e.envelope);
    }
  }

  lemma MarkRefuses(b: Board, e: Event)
    requires BoardInv(b) && Allowed(b, e) && IdentityOf(e) != Unkeyed
    ensures !Marked(b, IdentityOf(e))
  {
    if e.Envelope? {
      assert ViewInv(b, e.envelope);
    }
  }

  lemma {:induction false} MarkOf(log: Log, i: nat)
    requires Good(log) && i < |log|
    ensures Marked(BoardOf(log), IdentityOf(log[i]))
  {
    var before, e := log[..|log| - 1], log[|log| - 1];
    GoodBoard(before);
    if i < |log| - 1 {
      MarkOf(before, i);
      MarkStays(BoardOf(before), e, IdentityOf(log[i]));
    } else {
      MarkMade(BoardOf(before), e);
    }
  }

  /** No two events of a good log share an identity. */
  lemma {:induction false} IdentitiesDistinct(log: Log, i: nat, j: nat)
    requires Good(log) && i < j < |log|
    requires IdentityOf(log[j]) != Unkeyed
    ensures IdentityOf(log[i]) != IdentityOf(log[j])
  {
    GoodAt(log, j);
    GoodBoard(log[..j]);
    MarkOf(log[..j], i);
    MarkRefuses(BoardOf(log[..j]), log[j]);
  }

  // ---------------------------------------------------------------- closing a generation

  predicate IsClose(e: Event, generation: string) {
    e.Generation? && e.kind == Close && e.generation == generation
  }

  /** No RESULT of a generation follows that generation's close. */
  lemma {:induction false} NoResultAfterClose(log: Log, i: nat, j: nat)
    requires Good(log) && i < j < |log|
    requires IsRecord(log[j], Result)
    ensures !IsClose(log[i], log[j].who.generation)
  {
    var before := log[..|log| - 1];
    if j == |before| {
      MarkOf(before, i);
    } else {
      NoResultAfterClose(before, i, j);
    }
  }

  /** A closed gate's sequence number is that of a close event of its generation. */
  lemma {:induction false} GateSequence(log: Log, generation: string, s: nat)
    requires Good(log) && GateOf(BoardOf(log), generation).Shut? && GateOf(BoardOf(log), generation).sequence == s
    ensures 1 <= s <= |log| && IsClose(log[s - 1], generation)
  {
    var before, e := log[..|log| - 1], log[|log| - 1];
    GoodBoard(before);
    if GateOf(BoardOf(before), generation).Shut? {
      GateSequence(before, generation, s);
    }
  }

  lemma DiscardAfter(before: Log, e: Event)
    requires Good(before) && Allowed(BoardOf(before), e) && IsRecord(e, Discarded)
    ensures exists i :: 0 <= i < |before| && IsClose(before[i], e.who.generation)
  {
    GateSequence(before, e.who.generation, GateOf(BoardOf(before), e.who.generation).sequence);
  }

  /** An envelope is discarded only after its generation was closed. */
  lemma DiscardFollowsClose(log: Log, j: nat)
    requires Good(log) && j < |log| && IsRecord(log[j], Discarded)
    ensures exists i :: 0 <= i < j && IsClose(log[i], log[j].who.generation)
  {
    GoodAt(log, j);
    DiscardAfter(log[..j], log[j]);
  }

  lemma GateFenced(b: Board, e: Event)
    requires Allowed(b, e) && e.Fenced?
    ensures GateOf(b, e.who.generation).Shut? && GateOf(b, e.who.generation).sequence == e.fenceSequence
  {}

  /** Every fence carries the sequence number of its own generation's close event. */
  lemma {:induction false} FenceNamesClose(log: Log, j: nat)
    requires Good(log) && j < |log| && log[j].Fenced?
    ensures 1 <= log[j].fenceSequence <= j && IsClose(log[log[j].fenceSequence - 1], log[j].who.generation)
  {
    var before := log[..|log| - 1];
    if j == |before| {
      GateFenced(BoardOf(before), log[j]);
      GateSequence(before, log[j].who.generation, log[j].fenceSequence);
    } else {
      FenceNamesClose(before, j);
    }
  }
}
