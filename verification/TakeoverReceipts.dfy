/**
  The receipts written while an owner takes over: after each RESULT the resource receipt is
  reconstructed, and a refusal ends the takeover.  Which refusals come is settled by the log the
  takeover starts from.
 */
module TakeoverReceipts {
  import opened Prelude
  import opened ExecutorLog
  import opened ExecutorProtocol
  import opened ExecutorInvariant
  import opened ExecutorTheorems
  import opened ResourceReceipt

  /** Events that record one envelope, under one binding, with this final record if any. */
  predicate Writes(events: Log, env: nat, binding: Binding, record: Option<EnvelopeRecord>) {
    && (forall e :: e in events && e.Envelope? ==> e.envelope == env && e.binding == binding && record.Some?)
    && (forall e :: e in events && e.Generation? ==> e.kind in {Authority, LateEvent})
    && (record.Some? ==> events != [] && IsRecord(events[|events| - 1], record.value))
  }

  lemma CompletedRecords(log: Log, env: nat)
    ensures IsCompleted(log, env) <==>
            Records(log, env) != [] && Records(log, env)[|Records(log, env)| - 1] == EnvelopeRecord.Result
  {
    GroupRecords(log, env);
    assert |RecordsOf(Group(log, env))| == |Group(log, env)|;
  }

  /** Recording one envelope completes it or not, and completes no other. */
  lemma WritesCompletes(log: Log, events: Log, env: nat, binding: Binding, record: Option<EnvelopeRecord>, other: nat)
    requires Writes(events, env, binding, record) && (record.Some? ==> !IsCompleted(log, env))
    ensures IsCompleted(log + events, other) <==>
            IsCompleted(log, other) || (other == env && record == Some(EnvelopeRecord.Result))
  {
    CompletedRecords(log, other);
    CompletedRecords(log + events, other);
    if other == env && record.Some? {
      assert events[|events| - 1] in events;
      LastRecord(log, events, env);
    } else {
      RecordsStay(log, events, other);
    }
  }

  lemma WritesCarries(log: Log, events: Log, env: nat, binding: Binding, record: Option<EnvelopeRecord>, other: nat)
    requires Writes(events, env, binding, record)
    ensures Carries(log + events, other, binding) <==> Carries(log, other, binding)
  {
    var all := log + events;
    assert forall i :: 0 <= i < |log| ==> all[i] == log[i];
    forall i | |log| <= i < |all| && all[i].Envelope? ensures all[i].binding == binding {
      assert all[i] in events;
    }
  }

  lemma {:induction false} GatesStay(log: Log, events: Log, generation: string)
    requires forall e :: e in events && e.Generation? ==> e.kind in {Authority, LateEvent}
    ensures GateOf(BoardOf(log + events), generation) == GateOf(BoardOf(log), generation)
  {
    if events == [] {
      assert log + events == log;
    } else {
      var before, e := events[..|events| - 1], events[|events| - 1];
      assert log + events == (log + before) + [e] && e in events;
      GatesStay(log, before, generation);
      AppendOne(log + before, e);
    }
  }

  // ---------------------------------------------------------------- one receipt

  /** Once an envelope is completed under this binding, the receipt succeeds exactly if all completed ones carry it. */
  lemma ReceiptUnder(log: Log, binding: Binding, isolation: Isolation, k: nat)
    requires Good(log) && k < |log| && log[k].Envelope? && log[k].binding == binding
    requires IsCompleted(log, log[k].envelope)
    ensures Reconstruct(log, isolation).Ok? <==> ReceiptBinding(binding, isolation) && AllCarry(log, binding)
  {
    ReceiptExact(log, isolation);
    forall b | AllCarry(log, b) ensures b == binding {
      assert Carries(log, log[k].envelope, b);
    }
  }

  // ---------------------------------------------------------------- along a takeover

  /** How the log stands after the envelopes in `done` were completed: nothing else about completion changed. */
  ghost predicate Along(log0: Log, log: Log, done: set<nat>, binding: Binding) {
    && (forall g :: GateOf(BoardOf(log), g) == GateOf(BoardOf(log0), g))
    && (forall env :: Carries(log, env, binding) <==> Carries(log0, env, binding))
    && (forall env :: IsCompleted(log, env) <==> IsCompleted(log0, env) || env in done)
  }

  /** The receipts of a takeover that completes `done` succeed. */
  ghost predicate Receipted(log0: Log, done: set<nat>, binding: Binding, isolation: Isolation) {
    done != {} ==>
      && ReceiptBinding(binding, isolation)
      && forall env :: IsCompleted(log0, env) || env in done ==> Carries(log0, env, binding)
  }

  function Completes(done: set<nat>, env: nat, record: Option<EnvelopeRecord>): set<nat> {
    if record == Some(EnvelopeRecord.Result) then done + {env} else done
  }

  lemma AlongMore(log0: Log, log: Log, done: set<nat>, binding: Binding, events: Log, env: nat,
                  record: Option<EnvelopeRecord>)
    requires Along(log0, log, done, binding) && Writes(events, env, binding, record)
    requires record.Some? ==> !IsCompleted(log, env)
    ensures Along(log0, log + events, Completes(done, env, record), binding)
  {
    forall g ensures GateOf(BoardOf(log + events), g) == GateOf(BoardOf(log0), g) {
      GatesStay(log, events, g);
    }
    forall other ensures Carries(log + events, other, binding) <==> Carries(log0, other, binding) {
      WritesCarries(log, events, env, binding, record, other);
    }
    forall other
      ensures IsCompleted(log + events, other) <==> IsCompleted(log0, other) || other in Completes(done, env, record)
    {
      WritesCompletes(log, events, env, binding, record, other);
    }
  }

  /** The receipt after completing one more envelope says whether all receipts up to it succeed. */
  lemma ReceiptAlong(log0: Log, log: Log, done: set<nat>, binding: Binding, isolation: Isolation)
    requires Along(log0, log, done, binding) && Good(log) && log != []
    requires IsRecord(log[|log| - 1], EnvelopeRecord.Result) && log[|log| - 1].binding == binding
    requires log[|log| - 1].envelope in done
    ensures Reconstruct(log, isolation).Ok? <==> Receipted(log0, done, binding, isolation)
  {
    ReceiptUnder(log, binding, isolation, |log| - 1);
    if Receipted(log0, done, binding, isolation) {
      assert AllCarry(log, binding);
    }
    if AllCarry(log, binding) && ReceiptBinding(binding, isolation) {
      forall env | IsCompleted(log0, env) || env in done ensures Carries(log0, env, binding) {
        assert IsCompleted(log, env);
      }
    }
  }

  /** More completions can only make receipts fail. */
  lemma ReceiptedLess(log0: Log, done: set<nat>, done': set<nat>, binding: Binding, isolation: Isolation)
    requires done <= done' && Receipted(log0, done', binding, isolation)
    ensures Receipted(log0, done, binding, isolation)
  {}

  // ---------------------------------------------------------------- what the first log settles

  /** The takeover will complete this envelope: it is unfinished and its generation still open. */
  predicate Committing(log: Log, env: nat) {
    Unfinished(Records(log, env)) && Active(BoardOf(log), Look(BoardOf(log), env).who.generation)
  }

  /**
    What the log must look like for every receipt of a takeover to succeed: nothing to complete, or an
    admitted binding that every envelope completed, before or now, carries in all its events.
   */
  ghost predicate ReceiptsSucceed(log: Log, binding: Binding, isolation: Isolation) {
    (exists env :: Committing(log, env)) ==>
      && ReceiptBinding(binding, isolation)
      && forall env :: IsCompleted(log, env) || Committing(log, env) ==> Carries(log, env, binding)
  }

  lemma ReceiptedRead(log: Log, done: set<nat>, binding: Binding, isolation: Isolation)
    requires forall env :: env in done <==> Committing(log, env)
    ensures Receipted(log, done, binding, isolation) <==> ReceiptsSucceed(log, binding, isolation)
  {
    if done != {} {
      var env :| env in done;
      assert Committing(log, env);
    }
  }
}
