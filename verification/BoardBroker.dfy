/** One broker boot executing requests from one thread, with a ghost trace of protocol steps. */
module BoardBroker {
  import opened Prelude
  import opened BrokerReceipt
  import opened BrokerProtocol

  datatype Answer = CapabilityRefused | ReservationRefused | Answered(request: nat) | Indeterminate(request: nat)

  lemma RunSnoc(s: State, steps: seq<Step>, step: Step)
    requires RunFrom(s, steps).Some? && Enabled(RunFrom(s, steps).value, step)
    ensures RunFrom(s, steps + [step]) == Some(After(RunFrom(s, steps).value, step))
  {
    RunConcat(s, steps, [step]);
    assert [step][1..] == [];
  }

  class Broker {
    var log: Log
    var serial: nat
    var dispatches: seq<Dispatch>
    ghost var threads: map<nat, Stage>
    ghost var lost: set<nat>
    ghost var trace: seq<Step>

    ghost function Current(): State
      reads this
    {
      State(log, serial, threads, dispatches, lost)
    }

    ghost predicate Valid()
      reads this
    {
      RunFrom(INIT, trace) == Some(Current())
    }

    /** A new boot counts the broker events already in the log. */
    constructor (before: State, history: seq<Step>)
      requires RunFrom(INIT, history) == Some(before)
      ensures Valid() && log == before.log && serial == RecordCount(log) && threads == map[]
      ensures dispatches == before.dispatches
    {
      log, serial, dispatches := before.log, RecordCount(before.log), before.dispatches;
      threads, lost, trace := map[], before.lost + Pending(before.threads), history + [Restart];
      new;
      RunSnoc(INIT, history, Restart);
    }

    ghost method Took(step: Step, before: State)
      requires RunFrom(INIT, trace) == Some(before) && Enabled(before, step) && Current() == After(before, step)
      modifies this`trace
      ensures Valid()
    {
      RunSnoc(INIT, trace, step);
      trace := trace + [step];
    }

    /** Ids count up, whatever becomes of them. */
    method NextId() returns (id: nat)
      modifies this`serial
      ensures id == serial == old(serial) + 1
    {
      serial := serial + 1;
      id := serial;
    }

    /**
      Draw an id and append the reservation.  The store may refuse it; it is written, and is then the
      request's own, whenever no record holds the id already.
     */
    method ReserveRequest(identity: Identity) returns (request: nat, ok: bool)
      requires Valid() && threads == map[]
      modifies this
      ensures Valid() && dispatches == old(dispatches) && request == serial == old(serial) + 1
      ensures ok ==> threads == map[0 := Held(request, identity)] && lost == old(lost)
      ensures !ok ==> threads == map[] && log == old(log)
      ensures !HasId(old(log), request) ==> ok && log == old(log) + [Record(request, Reserved, request, identity, 0)]
      ensures Stored(old(log), Record(request, Reserved, request, identity, 0)) == if ok then Some(log) else None
    {
      ghost var start := Current();
      request := NextId();
      threads := map[0 := Drawn(request, identity)];
      assert start.threads[0 := Drawn(request, identity)] == threads;
      Took(Draw(0, identity), start);
      ghost var drawn := Current();
      PriorFacts(log, request);
      var stored := Stored(log, Record(request, Reserved, request, identity, 0));
      ok := stored.Some?;
      if ok {
        log := stored.value;
        threads := map[0 := Held(request, identity)];
        assert drawn.threads[0 := Held(request, identity)] == threads;
      } else {
        threads := map[];
        assert drawn.threads - {0} == threads && drawn.lost + {} == lost;
      }
      Took(Reserve(0), drawn);
    }

    /** Dispatch to the transport, then draw a second id for the classification. */
    method DispatchRequest(request: nat, identity: Identity) returns (id: nat)
      requires Valid() && threads == map[0 := Held(request, identity)]
      modifies this
      ensures Valid() && log == old(log) && lost == old(lost) && id == serial == old(serial) + 1
      ensures dispatches == old(dispatches) + [Dispatch(request, identity, |log|)]
      ensures threads == map[0 := Closing(request, identity, id)]
    {
      ghost var held := Current();
      dispatches := dispatches + [Dispatch(request, identity, |log|)];
      threads := map[0 := Sent(request, identity)];
      assert held.threads[0 := Sent(request, identity)] == threads;
      Took(Send(0), held);
      ghost var sent := Current();
      id := NextId();
      threads := map[0 := Closing(request, identity, id)];
      assert sent.threads[0 := Closing(request, identity, id)] == threads;
      Took(DrawAgain(0), sent);
    }

    /** Append the classification: written whenever no record holds its id already. */
    method ClassifyRequest(request: nat, identity: Identity, id: nat, finding: nat) returns (ok: bool)
      requires Valid() && threads == map[0 := Closing(request, identity, id)]
      modifies this
      ensures Valid() && threads == map[] && dispatches == old(dispatches) && serial == old(serial)
      ensures !HasId(old(log), id) ==> ok && log == old(log) + [Record(id, Classified, request, identity, finding)]
      ensures Stored(old(log), Record(id, Classified, request, identity, finding)) == if ok then Some(log) else None
      ensures !ok ==> log == old(log)
    {
      ghost var closing := Current();
      PriorFacts(log, id);
      var stored := Stored(log, Record(id, Classified, request, identity, finding));
      ok := stored.Some?;
      threads := map[];
      assert closing.threads - {0} == threads;
      lost := lost + if stored.None? || stored.value == log then {request} else {};
      if ok {
        log := stored.value;
      }
      Took(Classify(0, finding), closing);
    }

    /**
      One request from authorisation to classification.  Nothing is dispatched without a reservation
      that the store took; with unused ids the log gains exactly the two records of this request.  The
      answer says how far the store let it come.
     */
    method Execute(identity: Identity, allowed: bool, finding: nat) returns (answer: Answer)
      requires Valid() && threads == map[]
      modifies this
      ensures Valid() && threads == map[]
      ensures !allowed ==>
                answer == CapabilityRefused && log == old(log) && dispatches == old(dispatches) && serial == old(serial)
      ensures var q := old(serial) + 1;
              allowed ==>
                match Stored(old(log), Record(q, Reserved, q, identity, 0))
                case None => answer == ReservationRefused && log == old(log) && dispatches == old(dispatches)
                case Some(reserved) =>
                  && dispatches == old(dispatches) + [Dispatch(q, identity, |reserved|)]
                  && match Stored(reserved, Record(q + 1, Classified, q, identity, finding))
                     case None => answer == Indeterminate(q) && log == reserved
                     case Some(classified) => answer == Answered(q) && log == classified
      ensures allowed && !HasId(old(log), old(serial) + 1) && !HasId(old(log), old(serial) + 2) ==>
                var q := old(serial) + 1;
                && answer == Answered(q)
                && log == old(log) + [Record(q, Reserved, q, identity, 0)]
                   + [Record(q + 1, Classified, q, identity, finding)]
                && dispatches == old(dispatches) + [Dispatch(q, identity, |old(log)| + 1)]
    {
      if !allowed {
        return CapabilityRefused;
      }
      var request, ok := ReserveRequest(identity);
      if !ok {
        return ReservationRefused;
      }
      var id := DispatchRequest(request, identity);
      ok := ClassifyRequest(request, identity, id, finding);
      return if ok then Answered(request) else Indeterminate(request);
    }
  }
}
