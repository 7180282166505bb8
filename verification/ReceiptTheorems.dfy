/** The resource receipt over every run: when the evidence the executor wrote can be reconstructed. */
module ReceiptTheorems {
  import opened Prelude
  import opened ExecutorLog
  import opened ExecutorProtocol
  import opened ExecutorInvariant
  import opened ExecutorTheorems
  import opened ExecutorBoundaries
  import opened ResourceReceipt

  predicate LogBinds(log: Log, b: Binding) {
    forall i :: 0 <= i < |log| && log[i].Envelope? ==> log[i].binding == b
  }

  /** A move writes envelope events with its own owner's binding. */
  lemma MoveBinds(s: State, m: Move, b: Binding)
    requires Enabled(s, m) && (s.owner.Some? ==> s.owner.value.binding == b)
    ensures LogBinds(Events(s, m), b)
  {
    var events := Events(s, m);
    forall i | 0 <= i < |events| && events[i].Envelope? ensures events[i].binding == b {
      assert events[i] in events;
      if m.Start? {
        SurroundingsQuiet(BoardOf(s.log), m.before);
        SurroundingsQuiet(Granted(BoardOf(s.log), m.request, m.before), m.between);
      } else if m.CloseCall? {
        ClosingRecords(BoardOf(s.log), m.closing);
      }
    }
  }

  lemma {:induction false} RunBinds(steps: seq<Step>, b: Binding)
    requires Run(steps).Some? && OwnersBind(steps, b)
    ensures LogBinds(Run(steps).value.log, b)
    ensures Run(steps).value.owner.Some? ==> Run(steps).value.owner.value.binding == b
  {
    if steps != [] {
      var before, step := steps[..|steps| - 1], steps[|steps| - 1];
      RunBinds(before, b);
      MoveBinds(Run(before).value, step.move, b);
    }
  }

  /** Some RESULT in the log is some completed envelope. */
  lemma ResultCompletes(log: Log, k: nat)
    requires Good(log) && k < |log| && IsRecord(log[k], EnvelopeRecord.Result)
    ensures IsCompleted(log, log[k].envelope)
  {
    var env := log[k].envelope;
    GoodLifecycle(log, env);
    GroupRecords(log, env);
    InGroup(log, k);
    var entries, entry := Group(log, env), Entry(k + 1, log[k]);
    var i :| 0 <= i < |entries| && entries[i] == entry;
    ResultIsLast(RecordsOf(entries), i);
  }

  lemma InGroup(log: Log, k: nat)
    requires k < |log| && log[k].Envelope?
    ensures Entry(k + 1, log[k]) in Group(log, log[k].envelope)
  {
    GroupHolds(log, log[k].envelope);
  }

  lemma ResultIsLast(records: seq<EnvelopeRecord>, i: nat)
    requires Lifecycles(records) && i < |records| && records[i] == EnvelopeRecord.Result
    ensures i == |records| - 1
  {}

  /**
    In every run whose owners all carry one runtime binding for the admitted image, the receipt can
    be reconstructed after any result exactly when both image digests carry the algorithm prefix.
    It then lists each completed envelope once.
   */
  lemma RunReceipt(steps: seq<Step>, b: Binding, isolation: Isolation, k: nat)
    requires Run(steps).Some? && OwnersBind(steps, b) && RuntimeBinding(b) && b.imageId == isolation.imageId
    requires k < |Run(steps).value.log| && IsRecord(Run(steps).value.log[k], EnvelopeRecord.Result)
    ensures var r := Reconstruct(Run(steps).value.log, isolation);
            && (r.Ok? <==> PREFIX <= b.manifestDigest && PREFIX <= b.configDigest)
            && (r.Ok? ==>
                r.value.binding == b && Lists(r.value.rows, Run(steps).value.log, AllCompleted(Run(steps).value.log)))
  {
    var log := Run(steps).value.log;
    RunKeeps(steps);
    RunBinds(steps, b);
    ResultCompletes(log, k);
    ReceiptExact(log, isolation);
    PrefixedBinding(b, isolation);
    assert AllCarry(log, b);
    forall c | AllCarry(log, c) ensures c == b {
      assert Carries(log, log[k].envelope, c);
    }
  }

  /** A digest the runtime admits and the receipt does not. */
  function BareDigest(): (d: string)
    ensures AdmittedDigest(d) && !(PREFIX <= d)
  {
    var d := seq(64, _ => '0');
    assert d[0] != PREFIX[0];
    d
  }

  /** With such digests a result is reached whose receipt cannot be reconstructed. */
  lemma UnprefixedRefused() returns (steps: seq<Step>, b: Binding)
    ensures RuntimeBinding(b) && Run(steps).Some? && SomeCompleted(Run(steps).value.log)
    ensures Reconstruct(Run(steps).value.log, Isolation(b.imageId)).Err?
  {
    b := Binding(BareDigest(), BareDigest(), BareDigest(), "linux/arm64");
    var k;
    steps, k := FirstResult(b);
    RunKeeps(steps);
    ResultCompletes(Run(steps).value.log, k);
    RunReceipt(steps, b, Isolation(b.imageId), k);
  }
}
