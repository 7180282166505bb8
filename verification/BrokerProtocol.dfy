/**
  Concurrent broker requests: each thread draws an id, appends its reservation, dispatches to the
  transport, draws a second id and appends the classification.

  The store answers an append of an event id it already holds without writing anything when the body
  is the same, and refuses it otherwise; reservations have an empty body.  The serial is volatile: a
  new boot starts it at the number of broker events in the log.
 */
module BrokerProtocol {
  import opened Prelude
  import opened Ordering
  import opened BrokerReceipt

  /** How far one request has got. */
  datatype Stage =
    | Drawn(request: nat, identity: Identity)
    | Held(request: nat, identity: Identity)
    | Sent(request: nat, identity: Identity)
    | Closing(request: nat, identity: Identity, id: nat)

  /** A dispatch to the transport, and how long the log was when it happened. */
  datatype Dispatch = Dispatch(request: nat, identity: Identity, at: nat)

  /**
    `lost` are the requests whose thread ended after reserving and before classifying, or whose
    classification the store answered without writing it.
   */
  datatype State = State(log: Log, serial: nat, threads: map<nat, Stage>, dispatches: seq<Dispatch>, lost: set<nat>)

  const INIT: State := State([], 0, map[], [], {})

  datatype Step =
    | Draw(thread: nat, identity: Identity)
    | Reserve(thread: nat)
    | Send(thread: nat)
    | DrawAgain(thread: nat)
    | Classify(thread: nat, finding: nat)
    | GiveUp(thread: nat)
    | Restart
    | Append(event: Event)

  function RecordCount(log: Log): nat {
    if log == [] then 0 else RecordCount(log[..|log| - 1]) + if log[|log| - 1].Record? then 1 else 0
  }

  predicate HasId(log: Log, id: nat) {
    exists k :: 0 <= k < |log| && log[k].Record? && log[k].id == id
  }

  /** The earlier record with this id, if any; it is the one the store answers with. */
  function Prior(log: Log, id: nat): Option<Event> {
    if log == [] then None
    else
      var e := log[|log| - 1];
      if e.Record? && e.id == id then Some(e) else Prior(log[..|log| - 1], id)
  }

  /** The body digest of a record: reservations carry none. */
  function BodyOf(e: Event): nat
    requires e.Record?
  {
    if e.kind == Reserved then 0 else e.finding
  }

  /** The log after an append, or nothing when the store refuses it. */
  function Stored(log: Log, e: Event): Option<Log>
    requires e.Record?
  {
    match Prior(log, e.id)
    case None => Some(log + [e])
    case Some(prior) => if prior.Record? && BodyOf(prior) == BodyOf(e) then Some(log) else None
  }

  predicate Enabled(s: State, step: Step) {
    match step
    case Draw(t, _) => t !in s.threads
    case Reserve(t) => t in s.threads && s.threads[t].Drawn?
    case Send(t) => t in s.threads && s.threads[t].Held?
    case DrawAgain(t) => t in s.threads && s.threads[t].Sent?
    case Classify(t, _) => t in s.threads && s.threads[t].Closing?
    case GiveUp(t) => t in s.threads
    case Restart => true
    case Append(e) => !e.Record?
  }

  function ReservedFor(stage: Stage): Event {
    Record(stage.request, Reserved, stage.request, stage.identity, 0)
  }

  function ClassifiedFor(stage: Stage, finding: nat): Event
    requires stage.Closing?
  {
    Record(stage.id, Classified, stage.request, stage.identity, finding)
  }

  /** The requests of threads that have reserved and not classified. */
  function Pending(threads: map<nat, Stage>): set<nat> {
    set t | t in threads && !threads[t].Drawn? :: threads[t].request
  }

  /** A thread ends without having classified. */
  function Ended(s: State, t: nat): State
    requires t in s.threads
  {
    s.(threads := s.threads - {t}, lost := s.lost + if s.threads[t].Drawn? then {} else {s.threads[t].request})
  }

  function After(s: State, step: Step): State
    requires Enabled(s, step)
  {
    match step
    case Draw(t, identity) => s.(serial := s.serial + 1, threads := s.threads[t := Drawn(s.serial + 1, identity)])
    case Reserve(t) =>
      (match Stored(s.log, ReservedFor(s.threads[t]))
       case None => Ended(s, t)
       case Some(log) => s.(log := log, threads := s.threads[t := Held(s.threads[t].request, s.threads[t].identity)]))
    case Send(t) =>
      s.(threads := s.threads[t := Sent(s.threads[t].request, s.threads[t].identity)],
         dispatches := s.dispatches + [Dispatch(s.threads[t].request, s.threads[t].identity, |s.log|)])
    case DrawAgain(t) =>
      s.(serial := s.serial + 1,
         threads := s.threads[t := Closing(s.threads[t].request, s.threads[t].identity, s.serial + 1)])
    case Classify(t, finding) =>
      (match Stored(s.log, ClassifiedFor(s.threads[t], finding))
       case None => Ended(s, t)
       case Some(log) =>
         s.(log := log, threads := s.threads - {t},
            lost := s.lost + if log == s.log then {s.threads[t].request} else {}))
    case GiveUp(t) => Ended(s, t)
    case Restart => s.(serial := RecordCount(s.log), threads := map[], lost := s.lost + Pending(s.threads))
    case Append(e) => s.(log := s.log + [e])
  }

  function RunFrom(s: State, steps: seq<Step>): Option<State>
    decreases |steps|
  {
    if steps == [] then Some(s)
    else if Enabled(s, steps[0]) then RunFrom(After(s, steps[0]), steps[1..]) else None
  }

  // ---------------------------------------------------------------- the store

  lemma {:induction false} PriorFacts(log: Log, id: nat)
    ensures Prior(log, id).None? <==> !HasId(log, id)
    ensures Prior(log, id).Some? ==>
              Prior(log, id).value in log && Prior(log, id).value.Record? && Prior(log, id).value.id == id
  {
    if log != [] {
      var front, e := log[..|log| - 1], log[|log| - 1];
      PriorFacts(front, id);
      assert forall k :: 0 <= k < |front| ==> front[k] == log[k];
      if e.Record? && e.id == id {
        assert log[|log| - 1].id == id;
      } else if HasId(front, id) {
        var k :| 0 <= k < |front| && front[k].Record? && front[k].id == id;
        assert log[k].id == id;
      }
    }
  }

  /** No later record has this one's id. */
  predicate LastWithId(log: Log, k: nat) {
    k < |log| && log[k].Record? && forall j :: k < j < |log| && log[j].Record? ==> log[j].id != log[k].id
  }

  lemma {:induction false} PriorLast(log: Log, k: nat)
    requires LastWithId(log, k)
    ensures Prior(log, log[k].id) == Some(log[k])
  {
    if k < |log| - 1 {
      assert log[..|log| - 1][k] == log[k];
      PriorLast(log[..|log| - 1], k);
    }
  }

  /**
    The store writes a record whose id is new.  It answers one whose id is taken without writing when
    both bodies are the same, a reservation's being empty, and refuses it otherwise.
   */
  lemma StoredExact(log: Log, e: Event)
    requires e.Record?
    ensures !HasId(log, e.id) ==> Stored(log, e) == Some(log + [e])
    ensures forall k: nat :: LastWithId(log, k) && log[k].id == e.id ==>
              var body, asked := if log[k].kind == Reserved then 0 else log[k].finding,
                                 if e.kind == Reserved then 0 else e.finding;
              Stored(log, e) == if body == asked then Some(log) else None
  {
    PriorFacts(log, e.id);
    forall k: nat | LastWithId(log, k) && log[k].id == e.id ensures Prior(log, e.id) == Some(log[k]) {
      PriorLast(log, k);
    }
  }

  /** Every record with this id has a body. */
  predicate NoEmpty(log: Log, id: nat) {
    forall k :: 0 <= k < |log| && log[k].Record? && log[k].id == id ==> BodyOf(log[k]) != 0
  }

  /** A reservation is written, or refused, but never swallowed, when no empty record has its id. */
  lemma ReserveStored(log: Log, e: Event)
    requires e.Record? && e.kind == Reserved && NoEmpty(log, e.id)
    ensures Stored(log, e) == if HasId(log, e.id) then None else Some(log + [e])
  {
    PriorFacts(log, e.id);
    if HasId(log, e.id) {
      var prior := Prior(log, e.id).value;
      var k :| 0 <= k < |log| && log[k] == prior;
      assert BodyOf(log[k]) != 0;
    }
  }

  // ---------------------------------------------------------------- every dispatch is reserved

  predicate IdUsed(stage: Stage, id: nat) {
    (stage.Drawn? && stage.request == id) || (stage.Closing? && stage.id == id)
  }

  /** The request's own reservation is among the first `n` events. */
  predicate Own(log: Log, request: nat, identity: Identity, n: nat) {
    exists k :: 0 <= k < |log| && k < n && log[k] == Record(request, Reserved, request, identity, 0)
  }

  /** Empty records have ids up to the serial. */
  predicate EmptyBelow(log: Log, serial: nat) {
    forall k :: 0 <= k < |log| && log[k].Record? && BodyOf(log[k]) == 0 ==> log[k].id <= serial
  }

  predicate StageInv(log: Log, serial: nat, stage: Stage) {
    match stage
    case Drawn(request, _) => request <= serial && NoEmpty(log, request)
    case Held(request, identity) => Own(log, request, identity, |log|)
    case Sent(request, identity) => Own(log, request, identity, |log|)
    case Closing(request, identity, id) => Own(log, request, identity, |log|) && id <= serial
  }

  /** No two live threads hold the same unused id. */
  ghost predicate IdsApart(threads: map<nat, Stage>) {
    forall t, u, id: nat :: t in threads && u in threads && t != u && IdUsed(threads[t], id) ==> !IdUsed(threads[u], id)
  }

  ghost predicate Inv(s: State) {
    && EmptyBelow(s.log, s.serial) && IdsApart(s.threads)
    && (forall t :: t in s.threads ==> StageInv(s.log, s.serial, s.threads[t]))
    && (forall d :: d in s.dispatches ==> Own(s.log, d.request, d.identity, d.at))
  }

  /** The guard on restarts: no empty record has an id beyond the number of records. */
  predicate SafeRestart(s: State) {
    EmptyBelow(s.log, RecordCount(s.log))
  }

  lemma OwnStays(log: Log, log': Log, request: nat, identity: Identity, n: nat)
    requires log <= log' && Own(log, request, identity, n)
    ensures Own(log', request, identity, n) && Own(log', request, identity, |log'|)
  {
    var k :| 0 <= k < |log| && k < n && log[k] == Record(request, Reserved, request, identity, 0);
    assert log'[k] == log[k];
  }

  lemma StageStays(log: Log, e: Event, serial: nat, serial': nat, stage: Stage)
    requires StageInv(log, serial, stage) && serial <= serial'
    requires e.Record? ==> !(stage.Drawn? && e.id == stage.request)
    ensures StageInv(log + [e], serial', stage)
  {
    if !stage.Drawn? {
      OwnStays(log, log + [e], stage.request, stage.identity, |log|);
    }
  }

  lemma DispatchesStay(log: Log, e: Event, dispatches: seq<Dispatch>)
    requires forall d :: d in dispatches ==> Own(log, d.request, d.identity, d.at)
    ensures forall d :: d in dispatches ==> Own(log + [e], d.request, d.identity, d.at)
  {
    forall d | d in dispatches ensures Own(log + [e], d.request, d.identity, d.at) {
      OwnStays(log, log + [e], d.request, d.identity, d.at);
    }
  }

  /** A record appended by thread `t` leaves what the other threads rely on. */
  lemma AppendKeeps(s: State, t: nat, e: Event)
    requires Inv(s) && t in s.threads && e.Record? && IdUsed(s.threads[t], e.id) && e.id <= s.serial
    ensures EmptyBelow(s.log + [e], s.serial)
    ensures forall u :: u in s.threads && u != t ==> StageInv(s.log + [e], s.serial, s.threads[u])
    ensures forall d :: d in s.dispatches ==> Own(s.log + [e], d.request, d.identity, d.at)
  {
    forall u | u in s.threads && u != t ensures StageInv(s.log + [e], s.serial, s.threads[u]) {
      assert !IdUsed(s.threads[u], e.id);
      StageStays(s.log, e, s.serial, s.serial, s.threads[u]);
    }
    DispatchesStay(s.log, e, s.dispatches);
  }

  lemma ReserveKeeps(s: State, t: nat)
    requires Inv(s) && Enabled(s, Reserve(t))
    ensures Inv(After(s, Reserve(t)))
  {
    var stage := s.threads[t];
    var e := ReservedFor(stage);
    assert StageInv(s.log, s.serial, stage);
    ReserveStored(s.log, e);
    if !HasId(s.log, e.id) {
      AppendKeeps(s, t, e);
      assert (s.log + [e])[|s.log|] == e;
      assert Own(s.log + [e], stage.request, stage.identity, |s.log| + 1);
    }
  }

  lemma ClassifyKeeps(s: State, t: nat, finding: nat)
    requires Inv(s) && Enabled(s, Classify(t, finding))
    ensures Inv(After(s, Classify(t, finding)))
  {
    var e := ClassifiedFor(s.threads[t], finding);
    assert StageInv(s.log, s.serial, s.threads[t]);
    PriorFacts(s.log, e.id);
    if !HasId(s.log, e.id) {
      AppendKeeps(s, t, e);
    }
  }

  lemma DrawKeeps(s: State, step: Step)
    requires Inv(s) && Enabled(s, step) && (step.Draw? || step.DrawAgain?)
    ensures Inv(After(s, step))
  {
    var s' := After(s, step);
    forall t, id: nat | t in s.threads && IdUsed(s.threads[t], id) ensures id <= s.serial {
      assert StageInv(s.log, s.serial, s.threads[t]);
    }
    forall t | t in s'.threads ensures StageInv(s'.log, s'.serial, s'.threads[t]) {
      if t in s.threads {
        assert StageInv(s.log, s.serial, s.threads[t]);
      }
    }
  }

  lemma StepKeeps(s: State, step: Step)
    requires Inv(s) && Enabled(s, step) && (step.Restart? ==> SafeRestart(s))
    ensures Inv(After(s, step))
  {
    match step
    case Draw(_, _) => DrawKeeps(s, step);
    case DrawAgain(_) => DrawKeeps(s, step);
    case Reserve(t) => ReserveKeeps(s, t);
    case Classify(t, finding) => ClassifyKeeps(s, t, finding);
    case Send(t) => assert StageInv(s.log, s.serial, s.threads[t]);
    case GiveUp(t) =>
    case Restart =>
    case Append(e) =>
      forall t | t in s.threads ensures StageInv(s.log + [e], s.serial, s.threads[t]) {
        StageStays(s.log, e, s.serial, s.serial, s.threads[t]);
      }
      DispatchesStay(s.log, e, s.dispatches);
  }

  /** Every restart of the run met the guard. */
  predicate RestartsSafely(s: State, steps: seq<Step>)
    requires RunFrom(s, steps).Some?
    decreases |steps|
  {
    steps != [] ==> (steps[0].Restart? ==> SafeRestart(s)) && RestartsSafely(After(s, steps[0]), steps[1..])
  }

  lemma {:induction false} RunKeeps(s: State, steps: seq<Step>)
    requires Inv(s) && RunFrom(s, steps).Some? && RestartsSafely(s, steps)
    ensures Inv(RunFrom(s, steps).value)
    decreases |steps|
  {
    if steps != [] {
      StepKeeps(s, steps[0]);
      RunKeeps(After(s, steps[0]), steps[1..]);
    }
  }

  /**
    Under any interleaving, every dispatch was preceded by its own reservation, as long as no
    restart found an empty record numbered beyond the count of records.
   */
  lemma DispatchesReserved(steps: seq<Step>)
    requires RunFrom(INIT, steps).Some? && RestartsSafely(INIT, steps)
    ensures var s := RunFrom(INIT, steps).value;
            forall d :: d in s.dispatches ==> Own(s.log, d.request, d.identity, d.at)
  {
    RunKeeps(INIT, steps);
  }

  // ---------------------------------------------------------------- the guard is needed

  predicate DistinctIds(log: Log) {
    forall i, j :: 0 <= i < j < |log| && log[i].Record? && log[j].Record? ==> log[i].id != log[j].id
  }

  lemma {:induction false} PriorIs(log: Log, k: nat)
    requires DistinctIds(log) && k < |log| && log[k].Record?
    ensures Prior(log, log[k].id) == Some(log[k])
  {
    if k < |log| - 1 {
      PriorIs(log[..|log| - 1], k);
    }
  }

  /** In every run the ids in the log are distinct, whatever the restarts. */
  lemma {:induction false} RunDistinct(s: State, steps: seq<Step>)
    requires DistinctIds(s.log) && RunFrom(s, steps).Some?
    ensures DistinctIds(RunFrom(s, steps).value.log)
    decreases |steps|
  {
    if steps != [] {
      var s' := After(s, steps[0]);
      if |s'.log| > |s.log| && steps[0].Reserve? {
        PriorFacts(s.log, s.threads[steps[0].thread].request);
      } else if |s'.log| > |s.log| && steps[0].Classify? {
        PriorFacts(s.log, s.threads[steps[0].thread].id);
      }
      RunDistinct(s', steps[1..]);
    }
  }

  lemma {:induction false} RunConcat(s: State, a: seq<Step>, b: seq<Step>)
    requires RunFrom(s, a).Some?
    ensures RunFrom(s, a + b) == RunFrom(RunFrom(s, a).value, b)
    decreases |a|
  {
    if a == [] {
      assert a + b == b;
    } else {
      assert (a + b)[1..] == a[1..] + b;
      RunConcat(After(s, a[0]), a[1..], b);
    }
  }

  /** Requests that give up before reserving only use up serials. */
  lemma {:induction false} SkipTo(s: State, n: nat, identity: Identity) returns (steps: seq<Step>)
    requires 0 !in s.threads
    ensures RunFrom(s, steps) == Some(s.(serial := s.serial + n))
    decreases n
  {
    if n == 0 {
      steps := [];
    } else {
      var front := SkipTo(s, n - 1, identity);
      var s1 := s.(serial := s.serial + n - 1);
      var pair := [Draw(0, identity), GiveUp(0)];
      assert pair[1..] == [GiveUp(0)] && pair[1..][1..] == [];
      var s2 := After(s1, Draw(0, identity));
      assert s2.threads - {0} == s.threads && s.lost + {} == s.lost;
      var s3 := After(s2, GiveUp(0));
      assert s3 == s.(serial := s.serial + n);
      assert RunFrom(s2, [GiveUp(0)]) == RunFrom(s3, []);
      RunConcat(s, front, pair);
      steps := front + pair;
    }
  }

  predicate Unseen(log: Log, digest: nat) {
    forall k :: 0 <= k < |log| && log[k].Record? ==> log[k].identity.digest < digest
  }

  lemma {:induction false} FreshDigest(log: Log) returns (digest: nat)
    ensures Unseen(log, digest)
  {
    if log == [] {
      digest := 0;
    } else {
      var front, e := log[..|log| - 1], log[|log| - 1];
      digest := FreshDigest(front);
      assert forall k :: 0 <= k < |front| ==> front[k] == log[k];
      if e.Record? && e.identity.digest >= digest {
        digest := e.identity.digest + 1;
      }
    }
  }

  /**
    Whenever a boot starts while an empty record is numbered beyond the count of records, some
    request of that boot is dispatched without a reservation of its own: the store swallows it.
   */
  lemma UnsafeBreaks(s: State, k: nat) returns (steps: seq<Step>, d: Dispatch)
    requires DistinctIds(s.log) && k < |s.log| && s.log[k].Record? && BodyOf(s.log[k]) == 0
    requires s.log[k].id > RecordCount(s.log)
    ensures RunFrom(After(s, Restart), steps).Some?
    ensures d in RunFrom(After(s, Restart), steps).value.dispatches
    ensures !Own(RunFrom(After(s, Restart), steps).value.log, d.request, d.identity, d.at)
  {
    var boot, m := After(s, Restart), s.log[k].id;
    var digest := FreshDigest(s.log);
    var identity := Identity(0, 0, 0, 0, digest);
    var front := SkipTo(boot, m - 1 - boot.serial, identity);
    var s1 := boot.(serial := m - 1);
    var tail := [Draw(0, identity), Reserve(0), Send(0)];
    var s2 := After(s1, Draw(0, identity));
    PriorIs(s.log, k);
    assert Stored(s2.log, ReservedFor(s2.threads[0])) == Some(s.log);
    var s3 := After(s2, Reserve(0));
    var s4 := After(s3, Send(0));
    assert tail[1..] == [Reserve(0), Send(0)] && tail[1..][1..] == [Send(0)] && tail[1..][1..][1..] == [];
    assert RunFrom(s2, tail[1..]) == RunFrom(s3, [Send(0)]) && RunFrom(s3, [Send(0)]) == RunFrom(s4, []);
    RunConcat(boot, front, tail);
    steps, d := front + tail, Dispatch(m, identity, |s.log|);
    assert s4.dispatches[|s4.dispatches| - 1] == d;
  }

  /** One request drew the first id and wrote nothing; another drew the second and reserved. */
  lemma Gap() returns (steps: seq<Step>, s: State)
    ensures RunFrom(INIT, steps) == Some(s) && s.log == [Record(2, Reserved, 2, Identity(0, 0, 0, 0, 0), 0)]
  {
    var i := Identity(0, 0, 0, 0, 0);
    steps := [Draw(1, i), Draw(2, i), Reserve(2)];
    var s1 := After(INIT, Draw(1, i));
    var s2 := After(s1, Draw(2, i));
    s := After(s2, Reserve(2));
    assert Prior([], 2) == None;
    assert s.log == [] + [Record(2, Reserved, 2, i, 0)];
    assert steps[1..] == [Draw(2, i), Reserve(2)] && steps[1..][1..] == [Reserve(2)] && steps[1..][1..][1..] == [];
    assert RunFrom(s1, steps[1..]) == RunFrom(s2, [Reserve(2)]) && RunFrom(s2, [Reserve(2)]) == RunFrom(s, []);
  }

  /** Such a restart is reachable. */
  lemma UnsafeReachable() returns (steps: seq<Step>, d: Dispatch)
    ensures RunFrom(INIT, steps).Some? && d in RunFrom(INIT, steps).value.dispatches
    ensures !Own(RunFrom(INIT, steps).value.log, d.request, d.identity, d.at)
  {
    var first, s := Gap();
    assert s.log[..0] == [] && RecordCount(s.log) == 1;
    var rest;
    rest, d := UnsafeBreaks(s, 0);
    var tail := [Restart] + rest;
    assert tail[1..] == rest;
    RunConcat(INIT, first, tail);
    steps := first + tail;
  }
}
