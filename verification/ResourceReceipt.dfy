/**
  The independent reconstruction of Attempt Resource-envelope evidence: it re-reads the log, groups
  envelope events by id, validates each completed group and requires one candidate binding.
 */
module ResourceReceipt {
  import opened Prelude
  import opened Ordering
  import opened ExecutorLog

  /** What the admitted strict-isolation receipt states. */
  datatype Isolation = Isolation(imageId: string)

  datatype Entry = Entry(sequence: nat, event: Event)

  datatype Row = Row(envelope: nat, who: Ownership, binding: Binding, profile: string, epoch: nat,
                     cgroup: string, declared: Limits, outcome: Outcome, cleanupComplete: bool, resultSequence: nat)

  datatype Receipt = Receipt(binding: Binding, ownerEpochs: seq<nat>, rows: seq<Row>)

  datatype Refusal =
    | NoOwner | BrokenLifecycle | SkippedLaunch | ChangedOwnership | ChangedBinding | StaleEvidence | ChangedLimits
    | NoCompleted | MixedBindings | NotAdmitted | InvalidDigest | UnsupportedPlatform

  // ---------------------------------------------------------------- digests

  predicate Hex(s: string) {
    forall i :: 0 <= i < |s| ==> '0' <= s[i] <= '9' || 'a' <= s[i] <= 'f'
  }

  const PREFIX: string := "sha256:"

  /** What a runtime binding admits: 64 hex digits, with or without the algorithm prefix. */
  predicate AdmittedDigest(d: string) {
    (|d| == 64 && Hex(d)) || (PREFIX <= d && |d| == 71 && Hex(d[7..]))
  }

  /** What the receipt admits. */
  predicate ReceiptDigest(d: string) {
    PREFIX <= d && |d| == 71 && Hex(d[7..])
  }

  predicate Platform(p: string) {
    p == "linux/arm64" || p == "linux/amd64"
  }

  predicate RuntimeBinding(b: Binding) {
    AdmittedDigest(b.imageId) && AdmittedDigest(b.manifestDigest) && AdmittedDigest(b.configDigest)
    && Platform(b.platform)
  }

  predicate ReceiptBinding(b: Binding, isolation: Isolation) {
    b.imageId == isolation.imageId && ReceiptDigest(b.manifestDigest) && ReceiptDigest(b.configDigest)
    && Platform(b.platform)
  }

  lemma HexHasNoPrefix(d: string)
    ensures PREFIX <= d ==> !Hex(d)
  {
    assert PREFIX[0] == 's';
  }

  /** The receipt admits exactly the bindings the runtime could accept whose two digests carry the prefix. */
  lemma PrefixedBinding(b: Binding, isolation: Isolation)
    ensures ReceiptBinding(b, isolation) <==>
              && b.imageId == isolation.imageId && Platform(b.platform)
              && AdmittedDigest(b.manifestDigest) && AdmittedDigest(b.configDigest)
              && PREFIX <= b.manifestDigest && PREFIX <= b.configDigest
  {
    HexHasNoPrefix(b.manifestDigest);
    HexHasNoPrefix(b.configDigest);
  }

  // ---------------------------------------------------------------- the reconstruction

  /** The envelope events of one id, with their sequence numbers. */
  function Group(log: Log, env: nat): seq<Entry> {
    if log == [] then []
    else
      var e := log[|log| - 1];
      Group(log[..|log| - 1], env) + if e.Envelope? && e.envelope == env then [Entry(|log|, e)] else []
  }

  function Grouped(log: Log): set<nat> {
    set i | 0 <= i < |log| && log[i].Envelope? :: log[i].envelope
  }

  function OwnerEpochs(log: Log): seq<nat> {
    if log == [] then []
    else OwnerEpochs(log[..|log| - 1]) + if log[|log| - 1].OwnerOpened? then [log[|log| - 1].epoch] else []
  }

  function RecordsOf(entries: seq<Entry>): seq<EnvelopeRecord>
    requires AllEnvelope(entries)
  {
    seq(|entries|, i requires 0 <= i < |entries| => entries[i].event.record)
  }

  predicate AllEnvelope(entries: seq<Entry>) {
    forall i :: 0 <= i < |entries| ==> entries[i].event.Envelope?
  }

  predicate EndsInResult(entries: seq<Entry>) {
    entries != [] && IsRecord(entries[|entries| - 1].event, Result)
  }

  predicate SameWho(entries: seq<Entry>)
    requires entries != [] && AllEnvelope(entries)
  {
    forall i :: 0 <= i < |entries| ==> entries[i].event.who == entries[0].event.who
                                       && entries[i].event.envelope == entries[0].event.envelope
  }

  predicate SameBinding(entries: seq<Entry>)
    requires entries != [] && AllEnvelope(entries)
  {
    forall i :: 0 <= i < |entries| ==> entries[i].event.binding == entries[0].event.binding
                                       && entries[i].event.profile == entries[0].event.profile
  }

  predicate SameLimits(entries: seq<Entry>)
    requires entries != [] && AllEnvelope(entries)
  {
    forall i :: 0 <= i < |entries| ==> entries[i].event.declared == entries[0].event.declared
  }

  function RowOf(entry: Entry): Row
    requires entry.event.Envelope? && entry.event.outcome.Some?
  {
    var e := entry.event;
    Row(e.envelope, e.who, e.binding, e.profile, e.epoch, e.cgroup, e.declared, e.outcome.value, e.cleanupComplete,
        entry.sequence)
  }

  /** One completed envelope, or the reason it contradicts itself. */
  function Completed(entries: seq<Entry>, isolation: Isolation): Prelude.Result<Row, Refusal>
    requires AllEnvelope(entries) && EndsInResult(entries)
  {
    var records := RecordsOf(entries);
    var last := entries[|entries| - 1];
    if records != [Reserved, Launched, EnvelopeRecord.Result] && records != [Reserved, EnvelopeRecord.Result] then
      Err(BrokenLifecycle)
    else if last.event.outcome.None? then Err(BrokenLifecycle)
    else if |records| == 2 && last.event.outcome.value !in {Reconciled, LaunchFailed} then Err(SkippedLaunch)
    else if !SameWho(entries) then Err(ChangedOwnership)
    else if !SameBinding(entries) then Err(ChangedBinding)
    else if last.event.profile != STRICT_PROFILE || last.event.binding.imageId != isolation.imageId then
      Err(StaleEvidence)
    else if !SameLimits(entries) then Err(ChangedLimits)
    else
      Ok(RowOf(last))
  }

  /** The entry is the log's event at its sequence number, and belongs to the envelope. */
  predicate FromLog(entry: Entry, log: Log, env: nat) {
    && 1 <= entry.sequence <= |log| && log[entry.sequence - 1] == entry.event
    && entry.event.Envelope? && entry.event.envelope == env
  }

  lemma {:induction false} GroupFrom(log: Log, env: nat)
    ensures forall i :: 0 <= i < |Group(log, env)| ==> FromLog(Group(log, env)[i], log, env)
  {
    if log != [] {
      var before, e := log[..|log| - 1], log[|log| - 1];
      GroupFrom(before, env);
      var entries, all := Group(before, env), Group(log, env);
      forall i | 0 <= i < |all| ensures FromLog(all[i], log, env) {
        if i < |entries| {
          assert all[i] == entries[i] && FromLog(entries[i], before, env);
        }
      }
    }
  }

  lemma {:induction false} GroupRecords(log: Log, env: nat)
    ensures AllEnvelope(Group(log, env))
    ensures RecordsOf(Group(log, env)) == Records(log, env)
  {
    if log != [] {
      GroupRecords(log[..|log| - 1], env);
    }
  }

  lemma GroupFacts(log: Log, env: nat)
    ensures AllEnvelope(Group(log, env))
    ensures forall i :: 0 <= i < |Group(log, env)| ==> FromLog(Group(log, env)[i], log, env)
    ensures RecordsOf(Group(log, env)) == Records(log, env)
    ensures Group(log, env) != [] <==> env in Grouped(log)
  {
    GroupFrom(log, env);
    GroupRecords(log, env);
    GroupHolds(log, env);
    var entries := Group(log, env);
    if entries != [] {
      assert FromLog(entries[0], log, env);
    }
  }

  /** The completed rows of the listed envelopes, in that order; the first contradiction refuses. */
  function RowsOf(log: Log, envs: seq<nat>, isolation: Isolation): Prelude.Result<seq<Row>, Refusal> {
    if envs == [] then Ok([])
    else
      GroupFacts(log, envs[0]);
      var entries := Group(log, envs[0]);
      if !EndsInResult(entries) then RowsOf(log, envs[1..], isolation)
      else match Completed(entries, isolation)
        case Err(refusal) => Err(refusal)
        case Ok(row) =>
          match RowsOf(log, envs[1..], isolation)
          case Err(refusal) => Err(refusal)
          case Ok(rows) => Ok([row] + rows)
  }

  function OneBinding(rows: seq<Row>, isolation: Isolation): Prelude.Result<Binding, Refusal> {
    if rows == [] then Err(NoCompleted)
    else
      var b := rows[0].binding;
      if exists i :: 0 <= i < |rows| && (rows[i].binding != b || rows[i].profile != rows[0].profile) then
        Err(MixedBindings)
      else if b.imageId != isolation.imageId || rows[0].profile != STRICT_PROFILE then Err(NotAdmitted)
      else if !ReceiptDigest(b.manifestDigest) || !ReceiptDigest(b.configDigest) then Err(InvalidDigest)
      else if !Platform(b.platform) then Err(UnsupportedPlatform)
      else Ok(b)
  }

  function Reconstruct(log: Log, isolation: Isolation): Prelude.Result<Receipt, Refusal> {
    if OwnerEpochs(log) == [] then Err(NoOwner)
    else match RowsOf(log, Sorted(Grouped(log)), isolation)
      case Err(refusal) => Err(refusal)
      case Ok(rows) =>
        match OneBinding(rows, isolation)
        case Err(refusal) => Err(refusal)
        case Ok(b) => Ok(Receipt(b, OwnerEpochs(log), rows))
  }

  // ---------------------------------------------------------------- what a good log gives the reconstruction

  /** What the writers keep the same across one envelope's events. */
  lemma {:induction false} GroupAgrees(log: Log, env: nat)
    requires Good(log)
    ensures forall i :: 0 <= i < |Group(log, env)| ==>
              var e := Group(log, env)[i].event;
              e.Envelope? && e.who == Look(BoardOf(log), env).who && e.declared == Look(BoardOf(log), env).declared
              && e.profile == STRICT_PROFILE && (e.outcome.Some? <==> e.record == EnvelopeRecord.Result)
  {
    if log != [] {
      var before, e := log[..|log| - 1], log[|log| - 1];
      GroupAgrees(before, env);
      AdvanceLook(BoardOf(before), e, env);
      if IsRecord(e, Reserved) && e.envelope == env {
        GoodBoard(before);
        assert ViewInv(BoardOf(before), env);
        LookRecords(before, env);
        GroupFacts(before, env);
        assert Group(before, env) == [];
      }
    }
  }

  /** A result that skipped the launch says why. */
  lemma {:induction false} ChildlessOutcome(log: Log, env: nat)
    requires Good(log) && Records(log, env) == [Reserved, EnvelopeRecord.Result]
    ensures AllEnvelope(Group(log, env)) && EndsInResult(Group(log, env))
    ensures Group(log, env)[|Group(log, env)| - 1].event.outcome in {Some(LaunchFailed), Some(Reconciled)}
  {
    var before, e := log[..|log| - 1], log[|log| - 1];
    GroupFacts(log, env);
    GroupFacts(before, env);
    if e.Envelope? && e.envelope == env {
      LookRecords(before, env);
      assert Records(log, env)[..1] == Records(before, env);
    } else {
      ChildlessOutcome(before, env);
    }
  }

  /** Every envelope event of this id carries the binding `b`. */
  predicate Carries(log: Log, env: nat, b: Binding) {
    forall i :: 0 <= i < |log| && log[i].Envelope? && log[i].envelope == env ==> log[i].binding == b
  }

  ghost predicate CarriesImage(log: Log, env: nat, imageId: string) {
    exists b :: Carries(log, env, b) && b.imageId == imageId
  }

  predicate IsCompleted(log: Log, env: nat) {
    EndsInResult(Group(log, env))
  }

  /** The row the receipt should hold for one completed envelope. */
  predicate Describes(row: Row, log: Log, env: nat) {
    && 1 <= row.resultSequence <= |log| && IsRecord(log[row.resultSequence - 1], EnvelopeRecord.Result)
    && var e := log[row.resultSequence - 1];
       && e.envelope == env == row.envelope && e.who == row.who && e.binding == row.binding && e.profile == row.profile
       && e.epoch == row.epoch && e.cgroup == row.cgroup && e.declared == row.declared && e.outcome == Some(row.outcome)
       && e.cleanupComplete == row.cleanupComplete
  }

  /** One binding in the group is one binding among the log's events of that id. */
  lemma BindingCarried(log: Log, env: nat)
    requires AllEnvelope(Group(log, env)) && Group(log, env) != []
    requires forall i :: 0 <= i < |Group(log, env)| ==> Group(log, env)[i].event.profile == STRICT_PROFILE
    ensures SameBinding(Group(log, env)) <==> Carries(log, env, Group(log, env)[0].event.binding)
  {
    GroupHolds(log, env);
    GroupFacts(log, env);
  }

  /** On a good log a completed group is refused only for its binding. */
  lemma CompletedOnGood(log: Log, env: nat, isolation: Isolation)
    requires Good(log) && IsCompleted(log, env)
    ensures AllEnvelope(Group(log, env))
    ensures forall i :: 0 <= i < |Group(log, env)| ==> Group(log, env)[i].event.profile == STRICT_PROFILE
    ensures var entries := Group(log, env);
            var last := entries[|entries| - 1];
            last.event.outcome.Some?
            && (Completed(entries, isolation).Ok? <==>
                SameBinding(entries) && last.event.binding.imageId == isolation.imageId)
  {
    var entries := Group(log, env);
    GroupFacts(log, env);
    GroupAgrees(log, env);
    GoodLifecycle(log, env);
    assert RecordsOf(entries)[|entries| - 1] == EnvelopeRecord.Result;
    if |entries| == 2 {
      ChildlessOutcome(log, env);
    }
  }

  lemma GoodCompleted(log: Log, env: nat, isolation: Isolation)
    requires Good(log) && IsCompleted(log, env)
    ensures AllEnvelope(Group(log, env))
    ensures var r := Completed(Group(log, env), isolation);
            && (r.Ok? <==> CarriesImage(log, env, isolation.imageId))
            && (r.Ok? ==> Describes(r.value, log, env) && Carries(log, env, r.value.binding)
                          && r.value.profile == STRICT_PROFILE && r.value.binding.imageId == isolation.imageId)
  {
    var entries := Group(log, env);
    CompletedOnGood(log, env, isolation);
    BindingCarried(log, env);
    RowDescribes(log, env);
    if CarriesImage(log, env, isolation.imageId) {
      var b :| Carries(log, env, b) && b.imageId == isolation.imageId;
      OneCarried(log, env, b);
    }
  }

  /** A group holds some event, so at most one binding is carried. */
  lemma OneCarried(log: Log, env: nat, b: Binding)
    requires AllEnvelope(Group(log, env)) && Group(log, env) != [] && Carries(log, env, b)
    ensures forall i :: 0 <= i < |Group(log, env)| ==> Group(log, env)[i].event.binding == b
  {
    GroupFacts(log, env);
  }

  /** The row made of a completed group's last entry describes the log's RESULT event. */
  lemma RowDescribes(log: Log, env: nat)
    requires AllEnvelope(Group(log, env)) && IsCompleted(log, env)
    ensures var last := Group(log, env)[|Group(log, env)| - 1];
            last.event.outcome.Some? ==> Describes(RowOf(last), log, env)
  {
    GroupFacts(log, env);
  }

  /** The group holds every envelope event of its id. */
  lemma {:induction false} GroupHolds(log: Log, env: nat)
    ensures forall i :: 0 <= i < |log| && log[i].Envelope? && log[i].envelope == env ==>
              Entry(i + 1, log[i]) in Group(log, env)
  {
    if log != [] {
      var before := log[..|log| - 1];
      GroupHolds(before, env);
      forall i | 0 <= i < |log| && log[i].Envelope? && log[i].envelope == env
        ensures Entry(i + 1, log[i]) in Group(log, env)
      {
        if i < |before| {
          assert before[i] == log[i];
        }
      }
    }
  }

  // ---------------------------------------------------------------- the reconstruction is exact

  /** The row is the RESULT event of a completed envelope, all of whose events carry its binding. */
  predicate Fits(row: Row, log: Log) {
    && IsCompleted(log, row.envelope) && Describes(row, log, row.envelope)
    && Carries(log, row.envelope, row.binding) && row.profile == STRICT_PROFILE
  }

  /** The completed envelopes among `envs`, in their order. */
  function CompletedOf(log: Log, envs: seq<nat>): (r: seq<nat>)
    ensures forall env :: env in r <==> env in envs && IsCompleted(log, env)
  {
    if envs == [] then []
    else
      var rest := CompletedOf(log, envs[1..]);
      assert forall env :: env in envs <==> env == envs[0] || env in envs[1..];
      if IsCompleted(log, envs[0]) then [envs[0]] + rest else rest
  }

  lemma {:induction false} CompletedIncreasing(log: Log, envs: seq<nat>)
    requires Increasing(envs)
    ensures Increasing(CompletedOf(log, envs))
  {
    if envs != [] {
      CompletedIncreasing(log, envs[1..]);
      var rest := CompletedOf(log, envs[1..]);
      forall env | env in rest ensures envs[0] < env {
        assert env in envs[1..];
      }
      PrependIncreasing(envs[0], rest);
    }
  }

  function AllCompleted(log: Log): seq<nat> {
    CompletedOf(log, Sorted(Grouped(log)))
  }

  /** One fitting row for each of the envelopes, in their order. */
  predicate Lists(rows: seq<Row>, log: Log, envs: seq<nat>) {
    && |rows| == |envs|
    && forall i :: 0 <= i < |rows| ==> rows[i].envelope == envs[i] && Fits(rows[i], log)
  }

  ghost predicate AllImages(log: Log, envs: seq<nat>, imageId: string) {
    forall env :: env in envs && IsCompleted(log, env) ==> CarriesImage(log, env, imageId)
  }

  lemma AllImagesStep(log: Log, envs: seq<nat>, imageId: string)
    requires envs != []
    ensures AllImages(log, envs, imageId) <==>
            (IsCompleted(log, envs[0]) ==> CarriesImage(log, envs[0], imageId)) && AllImages(log, envs[1..], imageId)
  {
    assert forall env :: env in envs <==> env == envs[0] || env in envs[1..];
  }

  lemma ListsMore(row: Row, rows: seq<Row>, log: Log, envs: seq<nat>)
    requires Lists(rows, log, envs) && Fits(row, log)
    ensures Lists([row] + rows, log, [row.envelope] + envs)
  {}

  lemma {:induction false} RowsOnGood(log: Log, envs: seq<nat>, isolation: Isolation)
    requires Good(log)
    ensures RowsOf(log, envs, isolation).Ok? <==> AllImages(log, envs, isolation.imageId)
    ensures RowsOf(log, envs, isolation).Ok? ==>
              Lists(RowsOf(log, envs, isolation).value, log, CompletedOf(log, envs))
  {
    if envs != [] {
      RowsOnGood(log, envs[1..], isolation);
      AllImagesStep(log, envs, isolation.imageId);
      if IsCompleted(log, envs[0]) {
        GoodCompleted(log, envs[0], isolation);
        var row, rest := Completed(Group(log, envs[0]), isolation), RowsOf(log, envs[1..], isolation);
        if row.Ok? && rest.Ok? {
          ListsMore(row.value, rest.value, log, CompletedOf(log, envs[1..]));
        }
      }
    }
  }

  /** The owner epochs of a good log are 1, 2, 3, ... in order. */
  lemma {:induction false} EpochsCount(log: Log)
    requires Good(log)
    ensures |OwnerEpochs(log)| == BoardOf(log).owners
    ensures forall i :: 0 <= i < |OwnerEpochs(log)| ==> OwnerEpochs(log)[i] == i + 1
  {
    if log != [] {
      EpochsCount(log[..|log| - 1]);
    }
  }

  /** All completed envelopes carry the binding `b`. */
  ghost predicate AllCarry(log: Log, b: Binding) {
    forall env :: IsCompleted(log, env) ==> Carries(log, env, b)
  }

  ghost predicate SomeCompleted(log: Log) {
    exists env :: IsCompleted(log, env)
  }

  lemma OneCompletedBinding(rows: seq<Row>, log: Log, b: Binding)
    requires Lists(rows, log, AllCompleted(log)) && AllCarry(log, b)
    ensures forall i :: 0 <= i < |rows| ==> rows[i].binding == b && rows[i].profile == STRICT_PROFILE
  {
    forall i | 0 <= i < |rows| ensures rows[i].binding == b && rows[i].profile == STRICT_PROFILE {
      var row := rows[i];
      assert Fits(row, log);
      assert Carries(log, row.envelope, b);
    }
  }

  lemma CompletedGrouped(log: Log, env: nat)
    requires IsCompleted(log, env)
    ensures env in AllCompleted(log)
  {
    GroupFacts(log, env);
  }

  /** Rows list every completed envelope, so their one binding is carried by all of them. */
  lemma BindingOfAll(rows: seq<Row>, log: Log, b: Binding)
    requires Lists(rows, log, AllCompleted(log))
    requires forall i :: 0 <= i < |rows| ==> rows[i].binding == b
    ensures AllCarry(log, b)
  {
    forall env | IsCompleted(log, env) ensures Carries(log, env, b) {
      CompletedGrouped(log, env);
      var i :| 0 <= i < |AllCompleted(log)| && AllCompleted(log)[i] == env;
      assert Fits(rows[i], log);
    }
  }

  lemma SomeRow(log: Log)
    ensures AllCompleted(log) != [] <==> SomeCompleted(log)
  {
    if AllCompleted(log) != [] {
      assert IsCompleted(log, AllCompleted(log)[0]);
    }
    if SomeCompleted(log) {
      var env :| IsCompleted(log, env);
      CompletedGrouped(log, env);
    }
  }

  ghost predicate OneAdmitted(log: Log, isolation: Isolation) {
    exists b :: AllCarry(log, b) && ReceiptBinding(b, isolation)
  }

  lemma OneBindingExact(rows: seq<Row>, log: Log, isolation: Isolation)
    requires Lists(rows, log, AllCompleted(log))
    ensures OneBinding(rows, isolation).Ok? <==> SomeCompleted(log) && OneAdmitted(log, isolation)
    ensures OneBinding(rows, isolation).Ok? ==>
              AllCarry(log, OneBinding(rows, isolation).value)
              && ReceiptBinding(OneBinding(rows, isolation).value, isolation)
  {
    SomeRow(log);
    var r := OneBinding(rows, isolation);
    if r.Ok? {
      BindingOfAll(rows, log, r.value);
    }
    if OneAdmitted(log, isolation) {
      var b :| AllCarry(log, b) && ReceiptBinding(b, isolation);
      OneCompletedBinding(rows, log, b);
    }
  }

  /**
    On every log the executor can write, the reconstruction succeeds exactly when something
    completed and all completed envelopes carry one binding the receipt admits; it then names that
    binding and lists each completed envelope once, in order, by its own RESULT event.
   */
  lemma ReceiptExact(log: Log, isolation: Isolation)
    requires Good(log)
    ensures Reconstruct(log, isolation).Ok? <==>
            SomeCompleted(log) && OneAdmitted(log, isolation)
    ensures Reconstruct(log, isolation).Ok? ==>
              var receipt := Reconstruct(log, isolation).value;
              && Lists(receipt.rows, log, AllCompleted(log))
              && Increasing(AllCompleted(log)) && (forall env :: env in AllCompleted(log) <==> IsCompleted(log, env))
              && AllCarry(log, receipt.binding) && ReceiptBinding(receipt.binding, isolation)
              && |receipt.ownerEpochs| == BoardOf(log).owners
              && forall i :: 0 <= i < |receipt.ownerEpochs| ==> receipt.ownerEpochs[i] == i + 1
  {
    EpochsCount(log);
    CompletedIncreasing(log, Sorted(Grouped(log)));
    forall env | IsCompleted(log, env) ensures env in AllCompleted(log) {
      CompletedGrouped(log, env);
    }
    RowsOnGood(log, Sorted(Grouped(log)), isolation);
    if SomeCompleted(log) {
      CompletedHasOwner(log);
    }
    var rows := RowsOf(log, Sorted(Grouped(log)), isolation);
    if rows.Ok? {
      OneBindingExact(rows.value, log, isolation);
    } else {
      WrongImage(log, isolation);
    }
  }

  lemma CompletedHasOwner(log: Log)
    requires Good(log) && SomeCompleted(log)
    ensures BoardOf(log).owners >= 1
  {
    var env :| IsCompleted(log, env);
    GroupFacts(log, env);
    LookRecords(log, env);
    GoodBoard(log);
    assert |RecordsOf(Group(log, env))| > 0;
    assert ViewInv(BoardOf(log), env);
  }

  lemma WrongImage(log: Log, isolation: Isolation)
    requires exists env :: IsCompleted(log, env) && !CarriesImage(log, env, isolation.imageId)
    ensures !OneAdmitted(log, isolation)
  {
    var env :| IsCompleted(log, env) && !CarriesImage(log, env, isolation.imageId);
    forall b | AllCarry(log, b) ensures !ReceiptBinding(b, isolation) {
      assert Carries(log, env, b);
    }
  }

  /** One pass over the log: owner epochs, and envelope events grouped by id. */
  method GroupEvents(log: Log) returns (owners: seq<nat>, grouped: map<nat, seq<Entry>>)
    ensures owners == OwnerEpochs(log)
    ensures grouped.Keys == Grouped(log)
    ensures forall env :: env in grouped ==> grouped[env] == Group(log, env)
  {
    owners, grouped := [], map[];
    for i := 0 to |log|
      invariant owners == OwnerEpochs(log[..i])
      invariant grouped.Keys == Grouped(log[..i])
      invariant forall env :: env in grouped ==> grouped[env] == Group(log[..i], env)
    {
      var e := log[i];
      assert log[..i + 1][..i] == log[..i] && log[..i + 1] == log[..i] + [e];
      GroupedMore(log[..i], e);
      if e.OwnerOpened? {
        owners := owners + [e.epoch];
      } else if e.Envelope? {
        GroupFacts(log[..i], e.envelope);
        var prior := if e.envelope in grouped then grouped[e.envelope] else [];
        grouped := grouped[e.envelope := prior + [Entry(i + 1, e)]];
      }
    }
    assert log[..|log|] == log;
  }

  /** A second pass validates the completed groups in order of id. */
  method CompleteRows(log: Log, grouped: map<nat, seq<Entry>>, isolation: Isolation)
    returns (r: Prelude.Result<seq<Row>, Refusal>)
    requires forall env :: env in grouped ==> grouped[env] == Group(log, env)
    ensures r == RowsOf(log, Sorted(grouped.Keys), isolation)
  {
    var keys := Sorted(grouped.Keys);
    var rows: seq<Row> := [];
    assert keys[0..] == keys;
    PrefixedNil(RowsOf(log, keys, isolation));
    for k := 0 to |keys|
      invariant RowsOf(log, keys, isolation) == Prefixed(rows, RowsOf(log, keys[k..], isolation))
    {
      GroupFacts(log, keys[k]);
      RowsStep(rows, log, keys[k..], isolation);
      assert keys[k..][1..] == keys[k + 1..];
      var entries := grouped[keys[k]];
      if EndsInResult(entries) {
        var row := Completed(entries, isolation);
        if row.Err? {
          return Err(row.error);
        }
        rows := rows + [row.value];
      }
    }
    assert keys[|keys|..] == [] && rows + [] == rows;
    return Ok(rows);
  }

  method ReconstructReceipt(log: Log, isolation: Isolation) returns (r: Prelude.Result<Receipt, Refusal>)
    ensures r == Reconstruct(log, isolation)
  {
    var owners, grouped := GroupEvents(log);
    if owners == [] {
      return Err(NoOwner);
    }
    var rows := CompleteRows(log, grouped, isolation);
    if rows.Err? {
      return Err(rows.error);
    }
    var b := OneBinding(rows.value, isolation);
    if b.Err? {
      return Err(b.error);
    }
    return Ok(Receipt(b.value, owners, rows.value));
  }

  function Prefixed(rows: seq<Row>, rest: Prelude.Result<seq<Row>, Refusal>): Prelude.Result<seq<Row>, Refusal> {
    match rest
    case Ok(more) => Ok(rows + more)
    case Err(refusal) => Err(refusal)
  }

  lemma PrefixedNil(r: Prelude.Result<seq<Row>, Refusal>)
    ensures Prefixed([], r) == r
  {
    if r.Ok? {
      assert [] + r.value == r.value;
    }
  }

  lemma RowsStep(rows: seq<Row>, log: Log, envs: seq<nat>, isolation: Isolation)
    requires envs != []
    ensures AllEnvelope(Group(log, envs[0]))
    ensures var entries := Group(log, envs[0]);
            var rest := RowsOf(log, envs[1..], isolation);
            Prefixed(rows, RowsOf(log, envs, isolation))
            == if !EndsInResult(entries) then Prefixed(rows, rest)
               else match Completed(entries, isolation)
                    case Err(refusal) => Err(refusal)
                    case Ok(row) => Prefixed(rows + [row], rest)
  {
    GroupFacts(log, envs[0]);
    var rest := RowsOf(log, envs[1..], isolation);
    if rest.Ok? && EndsInResult(Group(log, envs[0])) {
      var row := Completed(Group(log, envs[0]), isolation);
      assert row.Ok? ==> rows + ([row.value] + rest.value) == rows + [row.value] + rest.value;
    }
  }

  lemma GroupedMore(log: Log, e: Event)
    ensures Grouped(log + [e]) == Grouped(log) + if e.Envelope? then {e.envelope} else {}
    ensures forall env :: Group(log + [e], env)
                          == Group(log, env) + if e.Envelope? && e.envelope == env then [Entry(|log| + 1, e)] else []
  {
    assert (log + [e])[..|log|] == log;
    forall env ensures env in Grouped(log + [e]) <==> env in Grouped(log) || (e.Envelope? && e.envelope == env) {
      if env in Grouped(log) {
        var i :| 0 <= i < |log| && log[i].Envelope? && log[i].envelope == env;
        assert (log + [e])[i] == log[i];
      }
      if e.Envelope? && e.envelope == env {
        assert (log + [e])[|log|] == e;
      }
    }
  }
}
