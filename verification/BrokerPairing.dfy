/**
  When the receipt can be projected: if no restart finds an empty record numbered beyond the count of
  records, every classified request's records pair up, and a run that lost no request and has none in
  flight yields a receipt.
 */
module BrokerPairing {
  import opened Prelude
  import opened Ordering
  import opened BrokerReceipt
  import opened BrokerProtocol

  predicate Mentions(log: Log, q: nat) {
    exists k :: 0 <= k < |log| && log[k].Record? && log[k].request == q
  }

  predicate HasClassified(log: Log, q: nat) {
    exists k :: 0 <= k < |log| && IsRecord(log[k], Classified, q)
  }

  predicate HasReserved(log: Log, q: nat) {
    exists k :: 0 <= k < |log| && IsRecord(log[k], Reserved, q)
  }

  /** What every record of the log satisfies. */
  predicate RecordInv(log: Log, k: nat)
    requires k < |log| && log[k].Record?
  {
    && (log[k].kind == Reserved ==> log[k] == Record(log[k].request, Reserved, log[k].request, log[k].identity, 0))
    && (log[k].kind == Classified ==> Own(log, log[k].request, log[k].identity, k))
  }

  predicate IsClassified(e: Event) {
    e.Record? && e.kind == Classified
  }

  ghost predicate LogInv(log: Log, serial: nat) {
    && DistinctIds(log) && EmptyBelow(log, serial)
    && (forall k: nat :: k < |log| && log[k].Record? ==> RecordInv(log, k))
    && (forall i: nat, j: nat :: i < j < |log| && IsClassified(log[i]) && IsClassified(log[j]) ==>
          log[i].request != log[j].request)
  }

  predicate ThreadInv(log: Log, serial: nat, stage: Stage) {
    match stage
    case Drawn(request, _) => request <= serial && !Mentions(log, request) && NoEmpty(log, request)
    case Held(request, identity) => Own(log, request, identity, |log|) && !HasClassified(log, request)
    case Sent(request, identity) => Own(log, request, identity, |log|) && !HasClassified(log, request)
    case Closing(request, identity, id) =>
      Own(log, request, identity, |log|) && !HasClassified(log, request) && id <= serial && NoEmpty(log, id)
  }

  ghost predicate RequestsApart(threads: map<nat, Stage>) {
    forall t, u :: t in threads && u in threads && t != u ==> threads[t].request != threads[u].request
  }

  /** A reserved request was classified, is in flight, or was lost. */
  ghost predicate Accounted(s: State) {
    forall q :: HasReserved(s.log, q) ==> HasClassified(s.log, q) || q in s.lost || q in Pending(s.threads)
  }

  ghost predicate Inv(s: State) {
    && LogInv(s.log, s.serial) && IdsApart(s.threads) && RequestsApart(s.threads)
    && (forall t :: t in s.threads ==> ThreadInv(s.log, s.serial, s.threads[t]))
    && Accounted(s)
  }

  // ---------------------------------------------------------------- appending

  lemma OwnPrefix(log: Log, e: Event, q: nat, identity: Identity, n: nat)
    requires n <= |log|
    ensures Own(log + [e], q, identity, n) == Own(log, q, identity, n)
  {
    if Own(log, q, identity, n) {
      OwnStays(log, log + [e], q, identity, n);
    }
    if Own(log + [e], q, identity, n) {
      var k :| 0 <= k < |log + [e]| && k < n && (log + [e])[k] == Record(q, Reserved, q, identity, 0);
      assert log[k] == (log + [e])[k];
    }
  }

  lemma MentionsMore(log: Log, e: Event, q: nat)
    ensures Mentions(log + [e], q) <==> Mentions(log, q) || (e.Record? && e.request == q)
    ensures HasClassified(log + [e], q) <==> HasClassified(log, q) || IsRecord(e, Classified, q)
    ensures HasReserved(log + [e], q) <==> HasReserved(log, q) || IsRecord(e, Reserved, q)
    ensures HasId(log + [e], q) <==> HasId(log, q) || (e.Record? && e.id == q)
  {
    var all := log + [e];
    assert all[|log|] == e;
    assert forall k :: 0 <= k < |log| ==> all[k] == log[k];
  }

  lemma LogMore(log: Log, e: Event, serial: nat)
    requires LogInv(log, serial)
    requires e.Record? ==> !HasId(log, e.id) && e.id <= serial
    requires e.Record? && e.kind == Reserved ==> e == Record(e.request, Reserved, e.request, e.identity, 0)
    requires e.Record? && e.kind == Classified ==>
               Own(log, e.request, e.identity, |log|) && !HasClassified(log, e.request)
    ensures LogInv(log + [e], serial)
  {
    var all := log + [e];
    assert forall k :: 0 <= k < |log| ==> all[k] == log[k];
    forall k: nat | k < |all| && all[k].Record? ensures RecordInv(all, k) {
      if k < |log| {
        assert RecordInv(log, k);
        OwnPrefix(log, e, all[k].request, all[k].identity, k);
      } else {
        OwnPrefix(log, e, e.request, e.identity, |log|);
      }
    }
  }

  lemma ThreadMore(log: Log, e: Event, serial: nat, stage: Stage)
    requires ThreadInv(log, serial, stage)
    requires e.Record? ==> e.request != stage.request && !IdUsed(stage, e.id)
    ensures ThreadInv(log + [e], serial, stage)
  {
    MentionsMore(log, e, stage.request);
    if stage.Closing? {
      MentionsMore(log, e, stage.id);
    }
    if !stage.Drawn? {
      OwnStays(log, log + [e], stage.request, stage.identity, |log|);
    }
  }

  /** Thread `t` appends its own record: the other threads do not notice. */
  lemma OthersKeep(s: State, t: nat, e: Event)
    requires Inv(s) && t in s.threads && e.Record? && e.request == s.threads[t].request && IdUsed(s.threads[t], e.id)
    ensures forall u :: u in s.threads && u != t ==> ThreadInv(s.log + [e], s.serial, s.threads[u])
  {
    forall u | u in s.threads && u != t ensures ThreadInv(s.log + [e], s.serial, s.threads[u]) {
      assert !IdUsed(s.threads[u], e.id);
      ThreadMore(s.log, e, s.serial, s.threads[u]);
    }
  }

  lemma PendingMember(threads: map<nat, Stage>, q: nat)
    ensures q in Pending(threads) <==> exists t :: t in threads && !threads[t].Drawn? && threads[t].request == q
  {}

  // ---------------------------------------------------------------- the steps

  lemma ReserveKeeps(s: State, t: nat)
    requires Inv(s) && Enabled(s, Reserve(t))
    ensures Inv(After(s, Reserve(t)))
  {
    var stage := s.threads[t];
    var e, s' := ReservedFor(stage), After(s, Reserve(t));
    assert ThreadInv(s.log, s.serial, stage);
    ReserveStored(s.log, e);
    if HasId(s.log, e.id) {
      EndKeeps(s, t);
    } else {
      ReservedKeeps(s, t);
    }
  }

  lemma ReservedKeeps(s: State, t: nat)
    requires Inv(s) && Enabled(s, Reserve(t)) && !HasId(s.log, s.threads[t].request)
    ensures Inv(After(s, Reserve(t)))
  {
    var stage := s.threads[t];
    var e, s' := ReservedFor(stage), After(s, Reserve(t));
    assert ThreadInv(s.log, s.serial, stage);
    ReserveStored(s.log, e);
    assert s'.log == s.log + [e];
    LogMore(s.log, e, s.serial);
    OthersKeep(s, t, e);
    MentionsMore(s.log, e, stage.request);
    assert s'.log[|s.log|] == e;
    assert Own(s'.log, stage.request, stage.identity, |s'.log|);
    ClassifiedMentions(s.log, stage.request);
    forall q | HasReserved(s'.log, q) ensures HasClassified(s'.log, q) || q in s'.lost || q in Pending(s'.threads) {
      MentionsMore(s.log, e, q);
      if q == stage.request {
        PendingMember(s'.threads, q);
        assert s'.threads[t].request == q;
      } else {
        StillPending(s.threads, s'.threads, q, t);
      }
    }
  }

  lemma ClassifiedMentions(log: Log, q: nat)
    requires !Mentions(log, q)
    ensures !HasClassified(log, q) && !HasReserved(log, q)
  {}

  /** What is pending stays pending, the changed thread's own request apart. */
  lemma StillPending(threads: map<nat, Stage>, threads': map<nat, Stage>, q: nat, t: nat)
    requires forall u :: u in threads && u != t ==> u in threads' && threads'[u] == threads[u]
    requires t in threads && threads[t].request == q ==>
               t in threads' && !threads'[t].Drawn? && threads'[t].request == q
    ensures q in Pending(threads) ==> q in Pending(threads')
  {
    PendingMember(threads, q);
    PendingMember(threads', q);
    if q in Pending(threads) {
      var u :| u in threads && !threads[u].Drawn? && threads[u].request == q;
      assert u in threads' && !threads'[u].Drawn? && threads'[u].request == q;
    }
  }

  lemma AccountedClassified(s: State, s': State, t: nat, e: Event)
    requires Accounted(s) && t in s.threads && IsRecord(e, Classified, s.threads[t].request)
    requires s'.log == s.log + [e] && s'.threads == s.threads - {t} && s'.lost == s.lost
    ensures Accounted(s')
  {
    forall q | HasReserved(s'.log, q) ensures HasClassified(s'.log, q) || q in s'.lost || q in Pending(s'.threads) {
      MentionsMore(s.log, e, q);
      if q != s.threads[t].request {
        StillPending(s.threads, s'.threads, q, t);
      }
    }
  }

  lemma ClassifyKeeps(s: State, t: nat, finding: nat)
    requires Inv(s) && Enabled(s, Classify(t, finding))
    ensures Inv(After(s, Classify(t, finding)))
  {
    var stage := s.threads[t];
    var e, s' := ClassifiedFor(stage, finding), After(s, Classify(t, finding));
    assert ThreadInv(s.log, s.serial, stage);
    PriorFacts(s.log, e.id);
    if HasId(s.log, e.id) {
      EndKeeps(s, t);
      assert s' == Ended(s, t);
    } else {
      assert s'.log == s.log + [e];
      LogMore(s.log, e, s.serial);
      OthersKeep(s, t, e);
      AccountedClassified(s, s', t, e);
    }
  }

  lemma OwnBelow(log: Log, serial: nat, q: nat, identity: Identity)
    requires LogInv(log, serial) && Own(log, q, identity, |log|)
    ensures q <= serial
  {
    var k :| 0 <= k < |log| && log[k] == Record(q, Reserved, q, identity, 0);
    assert BodyOf(log[k]) == 0;
  }

  lemma NextUnused(log: Log, serial: nat)
    requires LogInv(log, serial)
    ensures !Mentions(log, serial + 1) && NoEmpty(log, serial + 1) && LogInv(log, serial + 1)
  {
    forall k: nat | k < |log| && log[k].Record? ensures log[k].request <= serial {
      assert RecordInv(log, k);
      if log[k].kind == Classified {
        OwnStays(log[..k], log, log[k].request, log[k].identity, k);
        OwnBelow(log, serial, log[k].request, log[k].identity);
      } else {
        assert BodyOf(log[k]) == 0;
      }
    }
  }

  lemma ThreadBelow(log: Log, serial: nat, stage: Stage)
    requires LogInv(log, serial) && ThreadInv(log, serial, stage)
    ensures ThreadInv(log, serial + 1, stage) && stage.request <= serial && !IdUsed(stage, serial + 1)
  {
    if !stage.Drawn? {
      OwnBelow(log, serial, stage.request, stage.identity);
    }
  }

  lemma AllBelow(s: State)
    requires Inv(s)
    ensures LogInv(s.log, s.serial + 1)
    ensures forall u :: u in s.threads ==>
              ThreadInv(s.log, s.serial + 1, s.threads[u]) && s.threads[u].request <= s.serial
                                           && !IdUsed(s.threads[u], s.serial + 1)
  {
    NextUnused(s.log, s.serial);
    forall u | u in s.threads
      ensures ThreadInv(s.log, s.serial + 1, s.threads[u]) && s.threads[u].request <= s.serial
              && !IdUsed(s.threads[u], s.serial + 1)
    {
      ThreadBelow(s.log, s.serial, s.threads[u]);
    }
  }

  lemma DrawKeeps(s: State, t: nat, identity: Identity)
    requires Inv(s) && Enabled(s, Draw(t, identity))
    ensures Inv(After(s, Draw(t, identity)))
  {
    var s' := After(s, Draw(t, identity));
    NextUnused(s.log, s.serial);
    AllBelow(s);
    forall q | HasReserved(s.log, q) ensures HasClassified(s.log, q) || q in s'.lost || q in Pending(s'.threads) {
      StillPending(s.threads, s'.threads, q, t);
    }
  }

  lemma DrawAgainKeeps(s: State, t: nat)
    requires Inv(s) && Enabled(s, DrawAgain(t))
    ensures Inv(After(s, DrawAgain(t)))
  {
    var s' := After(s, DrawAgain(t));
    NextUnused(s.log, s.serial);
    AllBelow(s);
    forall q | HasReserved(s.log, q) ensures HasClassified(s.log, q) || q in s'.lost || q in Pending(s'.threads) {
      StillPending(s.threads, s'.threads, q, t);
    }
  }

  lemma EndKeeps(s: State, t: nat)
    requires Inv(s) && t in s.threads
    ensures Inv(Ended(s, t))
  {
    var s' := Ended(s, t);
    assert ThreadInv(s.log, s.serial, s.threads[t]);
    if s.threads[t].Drawn? {
      ClassifiedMentions(s.log, s.threads[t].request);
    }
    forall q | HasReserved(s.log, q) ensures HasClassified(s.log, q) || q in s'.lost || q in Pending(s'.threads) {
      if q != s.threads[t].request {
        StillPending(s.threads, s'.threads, q, t);
      }
    }
  }

  lemma SendKeeps(s: State, t: nat)
    requires Inv(s) && Enabled(s, Send(t))
    ensures Inv(After(s, Send(t)))
  {
    var s' := After(s, Send(t));
    assert ThreadInv(s.log, s.serial, s.threads[t]);
    forall q | HasReserved(s.log, q) ensures HasClassified(s.log, q) || q in s'.lost || q in Pending(s'.threads) {
      StillPending(s.threads, s'.threads, q, t);
    }
  }

  lemma RestartKeeps(s: State)
    requires Inv(s) && SafeRestart(s)
    ensures Inv(After(s, Restart))
  {}

  lemma StepKeeps(s: State, step: Step)
    requires Inv(s) && Enabled(s, step) && (step.Restart? ==> SafeRestart(s))
    ensures Inv(After(s, step))
  {
    match step
    case Draw(t, identity) => DrawKeeps(s, t, identity);
    case DrawAgain(t) => DrawAgainKeeps(s, t);
    case Reserve(t) => ReserveKeeps(s, t);
    case Classify(t, finding) => ClassifyKeeps(s, t, finding);
    case Send(t) => SendKeeps(s, t);
    case GiveUp(t) => EndKeeps(s, t);
    case Restart => RestartKeeps(s);
    case Append(e) =>
      LogMore(s.log, e, s.serial);
      forall t | t in s.threads ensures ThreadInv(s.log + [e], s.serial, s.threads[t]) {
        ThreadMore(s.log, e, s.serial, s.threads[t]);
      }
      forall q ensures HasReserved(s.log + [e], q) == HasReserved(s.log, q)
                       && HasClassified(s.log + [e], q) == HasClassified(s.log, q) {
        MentionsMore(s.log, e, q);
      }
  }

  lemma {:induction false} RunKeeps(s: State, steps: seq<Step>)
    requires Inv(s) && RunFrom(s, steps).Some? && RestartsSafely(s, steps)
    ensures Inv(RunFrom(s, steps).value)
    decreases |steps|
  {
    if steps != [] {
      StepKeeps(s, steps[0]);
      RunKeeps(After(s, steps[0]), steps[1..]);
    }
  }

  // ---------------------------------------------------------------- the receipt

  lemma OneReserved(log: Log, serial: nat, i: nat, k: nat)
    requires LogInv(log, serial) && i < |log| && k < |log|
    requires log[i].Record? && log[i].kind == Reserved && IsRecord(log[k], Reserved, log[i].request)
    ensures i == k
  {
    assert RecordInv(log, i) && RecordInv(log, k);
  }

  /** A classification has its own earlier reservation. */
  lemma ReservationOf(log: Log, serial: nat, j: nat) returns (i: nat)
    requires LogInv(log, serial) && j < |log| && IsClassified(log[j])
    ensures i < j && log[i] == Record(log[j].request, Reserved, log[j].request, log[j].identity, 0)
  {
    assert RecordInv(log, j);
    i :| 0 <= i < |log| && i < j && log[i] == Record(log[j].request, Reserved, log[j].request, log[j].identity, 0);
  }

  /** They are the only records of their request. */
  lemma ClassifiedPaired(log: Log, serial: nat, j: nat)
    requires LogInv(log, serial) && j < |log| && IsClassified(log[j])
    ensures PairedSomewhere(log, log[j].request)
  {
    var q := log[j].request;
    var i := ReservationOf(log, serial, j);
    forall k | 0 <= k < |log| && log[k].Record? && log[k].request == q ensures k == i || k == j {
      if log[k].kind == Reserved {
        OneReserved(log, serial, i, k);
      } else {
        assert IsClassified(log[k]) && IsClassified(log[j]);
      }
    }
    assert PairedAt(log, q, i, j);
  }

  lemma RequestPaired(log: Log, serial: nat, q: nat)
    requires LogInv(log, serial) && HasClassified(log, q)
    ensures PairedSomewhere(log, q)
  {
    var j :| 0 <= j < |log| && IsRecord(log[j], Classified, q);
    ClassifiedPaired(log, serial, j);
  }

  lemma MentionedReserved(log: Log, serial: nat, k: nat)
    requires LogInv(log, serial) && k < |log| && log[k].Record?
    ensures HasReserved(log, log[k].request)
  {
    if log[k].kind == Classified {
      var i := ReservationOf(log, serial, k);
      assert IsRecord(log[i], Reserved, log[k].request);
    } else {
      assert IsRecord(log[k], Reserved, log[k].request);
    }
  }

  /** Every request is paired exactly when every reserved one is classified. */
  lemma EveryClassified(log: Log, serial: nat)
    requires LogInv(log, serial)
    ensures EveryPaired(log) <==> forall q :: HasReserved(log, q) ==> HasClassified(log, q)
  {
    if EveryPaired(log) {
      forall q | HasReserved(log, q) ensures HasClassified(log, q) {
        var k :| 0 <= k < |log| && IsRecord(log[k], Reserved, q);
        assert PairedSomewhere(log, log[k].request);
        var i: nat, j: nat :| PairedAt(log, log[k].request, i, j);
        assert IsRecord(log[j], Classified, q);
      }
    }
    if forall q :: HasReserved(log, q) ==> HasClassified(log, q) {
      forall k | 0 <= k < |log| && log[k].Record? ensures PairedSomewhere(log, log[k].request) {
        MentionedReserved(log, serial, k);
        RequestPaired(log, serial, log[k].request);
      }
    }
  }

  /**
    In a run whose restarts met the guard there is a receipt exactly when something was requested,
    the last probe of each kind passed and every reserved request is classified.
   */
  lemma RunReceiptExact(steps: seq<Step>)
    requires RunFrom(INIT, steps).Some? && RestartsSafely(INIT, steps)
    ensures var s := RunFrom(INIT, steps).value;
            Receipt(s.log).Some? <==>
              && SomeRecord(s.log) && (forall kind: ProbeKind :: LastPasses(s.log, kind))
              && forall q :: HasReserved(s.log, q) ==> HasClassified(s.log, q)
  {
    RunKeeps(INIT, steps);
    var s := RunFrom(INIT, steps).value;
    ReceiptExact(s.log);
    EveryClassified(s.log, s.serial);
  }

  /**
    If it also lost no request and has none in flight, the receipt is there as soon as its probes
    passed and it made any request: the requests in reservation order.
   */
  lemma RunReceipt(steps: seq<Step>)
    requires RunFrom(INIT, steps).Some? && RestartsSafely(INIT, steps)
    ensures var s := RunFrom(INIT, steps).value;
            s.threads == map[] && s.lost == {} ==>
              && (Receipt(s.log).Some? <==> SomeRecord(s.log) && forall kind: ProbeKind :: LastPasses(s.log, kind))
              && (Receipt(s.log).Some? ==> ListsRequests(Receipt(s.log).value, s.log))
  {
    RunKeeps(INIT, steps);
    var s := RunFrom(INIT, steps).value;
    RunReceiptExact(steps);
    ReceiptExact(s.log);
    if s.threads == map[] && s.lost == {} {
      forall q | HasReserved(s.log, q) ensures HasClassified(s.log, q) {
        PendingMember(s.threads, q);
      }
    }
  }
}
