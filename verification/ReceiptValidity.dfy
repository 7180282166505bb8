/**
  What the reconstruction demands of any log whatever, written by the executor or not: it trusts no
  writer, so nothing here assumes that an event was allowed where it stands.
 */
module ReceiptValidity {
  import opened Prelude
  import opened Ordering
  import opened ExecutorLog
  import opened ResourceReceipt

  // ---------------------------------------------------------------- the events of one envelope

  predicate OfEnvelope(e: Event, env: nat) {
    e.Envelope? && e.envelope == env
  }

  /** The places of one envelope's events, in order. */
  ghost predicate PlacesOf(log: Log, env: nat, places: seq<nat>) {
    Increasing(places) && forall k: nat :: k in places <==> k < |log| && OfEnvelope(log[k], env)
  }

  lemma PlacesMore(log: Log, e: Event, env: nat, places: seq<nat>)
    requires PlacesOf(log, env, places)
    ensures PlacesOf(log + [e], env, if OfEnvelope(e, env) then places + [|log|] else places)
  {
    var longer, more := log + [e], if OfEnvelope(e, env) then places + [|log|] else places;
    assert forall k :: 0 <= k < |log| ==> longer[k] == log[k];
    forall i | 0 <= i < |places| ensures places[i] < |log| {
      assert places[i] in places;
    }
    forall k: nat ensures k in more <==> k < |longer| && OfEnvelope(longer[k], env) {
      assert k in more <==> k in places || (OfEnvelope(e, env) && k == |log|);
    }
  }

  /** The entries stand for the events at these places. */
  ghost predicate StandFor(entries: seq<Entry>, log: Log, places: seq<nat>) {
    |entries| == |places|
    && forall i :: 0 <= i < |places| ==> places[i] < |log| && entries[i] == Entry(places[i] + 1, log[places[i]])
  }

  lemma StandForMore(entries: seq<Entry>, log: Log, e: Event, places: seq<nat>)
    requires StandFor(entries, log, places)
    ensures StandFor(entries, log + [e], places)
    ensures StandFor(entries + [Entry(|log| + 1, e)], log + [e], places + [|log|])
  {}

  lemma GroupMore(log: Log, e: Event, env: nat)
    ensures Group(log + [e], env) == Group(log, env) + if OfEnvelope(e, env) then [Entry(|log| + 1, e)] else []
  {
    assert (log + [e])[..|log|] == log;
  }

  lemma {:induction false} GroupPlaces(log: Log, env: nat) returns (places: seq<nat>)
    ensures PlacesOf(log, env, places) && StandFor(Group(log, env), log, places)
  {
    if log == [] {
      places := [];
    } else {
      var front, e := log[..|log| - 1], log[|log| - 1];
      places := GroupPlaces(front, env);
      assert log == front + [e];
      PlacesMore(front, e, env, places);
      StandForMore(Group(front, env), front, e, places);
      GroupMore(front, e, env);
      if OfEnvelope(e, env) {
        places := places + [|front|];
      }
    }
  }

  lemma PlacesGroup(log: Log, env: nat, places: seq<nat>)
    requires PlacesOf(log, env, places)
    ensures StandFor(Group(log, env), log, places)
  {
    var found := GroupPlaces(log, env);
    IncreasingUnique(places, found);
  }

  /** The envelope's last event is a RESULT. */
  ghost predicate Concluded(log: Log, env: nat) {
    exists places :: PlacesOf(log, env, places) && places != [] && places[|places| - 1] < |log|
                     && IsRecord(log[places[|places| - 1]], EnvelopeRecord.Result)
  }

  lemma ConcludedExact(log: Log, env: nat)
    ensures Concluded(log, env) <==> IsCompleted(log, env)
  {
    var places := GroupPlaces(log, env);
    if Concluded(log, env) {
      var other :| PlacesOf(log, env, other) && other != [] && other[|other| - 1] < |log|
                   && IsRecord(log[other[|other| - 1]], EnvelopeRecord.Result);
      IncreasingUnique(places, other);
    }
  }

  /**
    What makes a completed envelope valid: RESERVED, then LAUNCHED unless the result says that nothing
    ran, then RESULT; and throughout the same ownership, limits, strict profile and binding, for the
    admitted image.
   */
  predicate Valid(log: Log, places: seq<nat>, isolation: Isolation)
    requires forall i :: 0 <= i < |places| ==> places[i] < |log| && log[places[i]].Envelope?
  {
    && 2 <= |places| <= 3
    && var last := log[places[|places| - 1]];
       && log[places[0]].record == Reserved && last.record == EnvelopeRecord.Result && last.outcome.Some?
       && (|places| == 3 ==> log[places[1]].record == Launched)
       && (|places| == 2 ==> last.outcome.value == Reconciled || last.outcome.value == LaunchFailed)
       && last.binding.imageId == isolation.imageId
       && forall i :: 0 <= i < |places| ==>
            && log[places[i]].who == last.who && log[places[i]].declared == last.declared
            && log[places[i]].binding == last.binding && log[places[i]].profile == STRICT_PROFILE
  }

  /** The checks on three or two entries, one by one. */
  lemma RecordsExact(log: Log, env: nat, places: seq<nat>)
    requires PlacesOf(log, env, places)
    ensures AllEnvelope(Group(log, env))
    ensures forall i :: 0 <= i < |places| ==> places[i] < |log| && log[places[i]].Envelope?
    ensures |RecordsOf(Group(log, env))| == |places|
    ensures forall i :: 0 <= i < |places| ==> RecordsOf(Group(log, env))[i] == log[places[i]].record
  {
    PlacesGroup(log, env, places);
    GroupFacts(log, env);
  }

  lemma SameExact(log: Log, env: nat, places: seq<nat>)
    requires PlacesOf(log, env, places) && places != []
    ensures AllEnvelope(Group(log, env)) && Group(log, env) != []
    ensures forall i :: 0 <= i < |places| ==> places[i] < |log| && log[places[i]].Envelope?
    ensures var last := log[places[|places| - 1]];
            && (SameWho(Group(log, env)) <==> forall i :: 0 <= i < |places| ==> log[places[i]].who == last.who)
            && (SameBinding(Group(log, env)) <==>
                  forall i :: 0 <= i < |places| ==>
                    log[places[i]].binding == last.binding && log[places[i]].profile == last.profile)
            && (SameLimits(Group(log, env)) <==>
                  forall i :: 0 <= i < |places| ==> log[places[i]].declared == last.declared)
  {
    RecordsExact(log, env, places);
    PlacesGroup(log, env, places);
    forall i | 0 <= i < |places| ensures log[places[i]].envelope == env {
      assert places[i] in places;
    }
    var entries, n := Group(log, env), |places|;
    assert entries[0].event == log[places[0]] && entries[n - 1].event == log[places[n - 1]];
    assert forall i :: 0 <= i < n ==> entries[i].event == log[places[i]];
  }

  lemma ThreeRecords(rs: seq<EnvelopeRecord>)
    ensures rs == [Reserved, Launched, EnvelopeRecord.Result] <==>
            |rs| == 3 && rs[0] == Reserved && rs[1] == Launched && rs[2] == EnvelopeRecord.Result
    ensures rs == [Reserved, EnvelopeRecord.Result] <==>
            |rs| == 2 && rs[0] == Reserved && rs[1] == EnvelopeRecord.Result
  {}

  /** A completed group passes exactly when it is valid, and gives its own RESULT as its row. */
  lemma CompletedExact(log: Log, env: nat, places: seq<nat>, isolation: Isolation)
    requires PlacesOf(log, env, places) && IsCompleted(log, env)
    ensures forall i :: 0 <= i < |places| ==> places[i] < |log| && log[places[i]].Envelope?
    ensures AllEnvelope(Group(log, env))
    ensures Completed(Group(log, env), isolation).Ok? <==> Valid(log, places, isolation)
    ensures Completed(Group(log, env), isolation).Ok? ==>
              Describes(Completed(Group(log, env), isolation).value, log, env)
  {
    RecordsExact(log, env, places);
    SameExact(log, env, places);
    PlacesGroup(log, env, places);
    ThreeRecords(RecordsOf(Group(log, env)));
    RowDescribes(log, env);
  }

  // ---------------------------------------------------------------- all envelopes

  ghost predicate ValidPlaces(log: Log, env: nat, places: seq<nat>, isolation: Isolation) {
    && PlacesOf(log, env, places) && (forall i :: 0 <= i < |places| ==> places[i] < |log| && log[places[i]].Envelope?)
    && Valid(log, places, isolation)
  }

  ghost predicate ValidEnvelope(log: Log, env: nat, isolation: Isolation) {
    exists places :: ValidPlaces(log, env, places, isolation)
  }

  lemma EnvelopeExact(log: Log, env: nat, isolation: Isolation)
    requires IsCompleted(log, env)
    ensures AllEnvelope(Group(log, env))
    ensures Completed(Group(log, env), isolation).Ok? <==> ValidEnvelope(log, env, isolation)
    ensures Completed(Group(log, env), isolation).Ok? ==>
              Describes(Completed(Group(log, env), isolation).value, log, env)
  {
    var places := GroupPlaces(log, env);
    CompletedExact(log, env, places, isolation);
    assert ValidPlaces(log, env, places, isolation) <==> Valid(log, places, isolation);
    if ValidEnvelope(log, env, isolation) {
      var other :| ValidPlaces(log, env, other, isolation);
      IncreasingUnique(places, other);
    }
  }

  ghost predicate AllValid(log: Log, envs: seq<nat>, isolation: Isolation) {
    forall env :: env in envs && IsCompleted(log, env) ==> ValidEnvelope(log, env, isolation)
  }

  /** One row for each of the envelopes, describing its RESULT. */
  predicate Describe(rows: seq<Row>, log: Log, envs: seq<nat>) {
    |rows| == |envs| && forall i :: 0 <= i < |rows| ==> Describes(rows[i], log, envs[i])
  }

  lemma AllValidStep(log: Log, envs: seq<nat>, isolation: Isolation)
    requires envs != []
    ensures AllValid(log, envs, isolation) <==>
            (IsCompleted(log, envs[0]) ==> ValidEnvelope(log, envs[0], isolation))
            && AllValid(log, envs[1..], isolation)
  {
    assert forall env :: env in envs <==> env == envs[0] || env in envs[1..];
  }

  lemma DescribeMore(row: Row, rows: seq<Row>, log: Log, env: nat, envs: seq<nat>)
    requires Describe(rows, log, envs) && Describes(row, log, env)
    ensures Describe([row] + rows, log, [env] + envs)
  {}

  lemma {:induction false} RowsAnywhere(log: Log, envs: seq<nat>, isolation: Isolation)
    ensures RowsOf(log, envs, isolation).Ok? <==> AllValid(log, envs, isolation)
    ensures RowsOf(log, envs, isolation).Ok? ==>
              Describe(RowsOf(log, envs, isolation).value, log, CompletedOf(log, envs))
  {
    if envs != [] {
      RowsAnywhere(log, envs[1..], isolation);
      AllValidStep(log, envs, isolation);
      if IsCompleted(log, envs[0]) {
        EnvelopeExact(log, envs[0], isolation);
        var row, rest := Completed(Group(log, envs[0]), isolation), RowsOf(log, envs[1..], isolation);
        if row.Ok? && rest.Ok? {
          DescribeMore(row.value, rest.value, log, envs[0], CompletedOf(log, envs[1..]));
        }
      }
    }
  }

  // ---------------------------------------------------------------- one admitted binding

  /** The algorithm's name and 64 hex digits. */
  predicate NamedDigest(d: string) {
    |d| == 71 && d[..7] == "sha256:" && forall i :: 7 <= i < 71 ==> '0' <= d[i] <= '9' || 'a' <= d[i] <= 'f'
  }

  predicate Admitted(b: Binding, isolation: Isolation) {
    && b.imageId == isolation.imageId && NamedDigest(b.manifestDigest) && NamedDigest(b.configDigest)
    && (b.platform == "linux/arm64" || b.platform == "linux/amd64")
  }

  lemma NamedExact(d: string)
    ensures ReceiptDigest(d) <==> NamedDigest(d)
  {
    if |d| == 71 {
      assert forall i :: 0 <= i < 64 ==> d[7..][i] == d[i + 7];
      assert PREFIX <= d <==> d[..7] == "sha256:";
      if Hex(d[7..]) {
        forall i | 7 <= i < 71 ensures '0' <= d[i] <= '9' || 'a' <= d[i] <= 'f' {
          assert d[i] == d[7..][i - 7];
        }
      }
    }
  }

  lemma AdmittedExact(b: Binding, isolation: Isolation)
    ensures ReceiptBinding(b, isolation) <==> Admitted(b, isolation)
  {
    NamedExact(b.manifestDigest);
    NamedExact(b.configDigest);
  }

  /** A RESULT stands here, and nothing about its envelope after it. */
  predicate EndsAt(log: Log, k: nat) {
    && k < |log| && IsRecord(log[k], EnvelopeRecord.Result)
    && forall j :: k < j < |log| ==> !OfEnvelope(log[j], log[k].envelope)
  }

  /** Every completed envelope ends in a RESULT of the binding `b`. */
  ghost predicate AllEndWith(log: Log, b: Binding) {
    forall k: nat :: EndsAt(log, k) ==> log[k].binding == b
  }

  lemma LastPlace(log: Log, env: nat, places: seq<nat>, k: nat)
    requires PlacesOf(log, env, places) && EndsAt(log, k) && log[k].envelope == env
    ensures places != [] && places[|places| - 1] == k
  {
    assert k in places;
    var i :| 0 <= i < |places| && places[i] == k;
    var last := places[|places| - 1];
    assert last in places;
    assert OfEnvelope(log[last], env);
  }

  lemma EndsCompleted(log: Log, k: nat)
    requires EndsAt(log, k)
    ensures IsCompleted(log, log[k].envelope)
  {
    var env := log[k].envelope;
    var places := GroupPlaces(log, env);
    LastPlace(log, env, places, k);
    ConcludedExact(log, env);
  }

  lemma OnlyLastIsResult(log: Log, env: nat, places: seq<nat>, k: nat, isolation: Isolation)
    requires PlacesOf(log, env, places)
    requires forall i :: 0 <= i < |places| ==> places[i] < |log| && log[places[i]].Envelope?
    requires Valid(log, places, isolation) && k < |log| && IsRecord(log[k], EnvelopeRecord.Result)
    requires log[k].envelope == env
    ensures k == places[|places| - 1]
  {
    assert k in places;
    var i :| 0 <= i < |places| && places[i] == k;
    assert log[places[0]].record == Reserved;
    if |places| == 3 {
      assert log[places[1]].record == Launched;
    }
  }

  lemma NothingAfter(log: Log, env: nat, places: seq<nat>)
    requires PlacesOf(log, env, places) && places != []
    ensures forall j :: places[|places| - 1] < j < |log| ==> !OfEnvelope(log[j], env)
  {
    assert forall m :: 0 <= m < |places| ==> places[m] <= places[|places| - 1];
    forall j | places[|places| - 1] < j < |log| ensures !OfEnvelope(log[j], env) {
      assert j !in places;
    }
  }

  /** The RESULT a row describes is its envelope's last event, if its envelope is valid. */
  lemma DescribesLast(log: Log, env: nat, row: Row, isolation: Isolation)
    requires Describes(row, log, env) && ValidEnvelope(log, env, isolation)
    ensures EndsAt(log, row.resultSequence - 1) && log[row.resultSequence - 1].envelope == row.envelope
    ensures log[row.resultSequence - 1].binding == row.binding
    ensures row.profile == STRICT_PROFILE && row.binding.imageId == isolation.imageId
  {
    var places :| ValidPlaces(log, env, places, isolation);
    OnlyLastIsResult(log, env, places, row.resultSequence - 1, isolation);
    NothingAfter(log, env, places);
  }

  /** No envelope ends in two places. */
  lemma EndsOnce(log: Log, j: nat, k: nat)
    requires EndsAt(log, j) && EndsAt(log, k) && log[j].envelope == log[k].envelope
    ensures j == k
  {
    var places := GroupPlaces(log, log[j].envelope);
    LastPlace(log, log[j].envelope, places, j);
    LastPlace(log, log[j].envelope, places, k);
  }

  ghost predicate RowsBound(rows: seq<Row>, b: Binding) {
    forall i :: 0 <= i < |rows| ==> rows[i].binding == b
  }

  /** Every completed envelope is valid, and these rows describe them. */
  ghost predicate Validated(log: Log, rows: seq<Row>, isolation: Isolation) {
    Describe(rows, log, AllCompleted(log)) && forall env :: IsCompleted(log, env) ==> ValidEnvelope(log, env, isolation)
  }

  lemma ListedCompleted(log: Log, i: nat)
    requires i < |AllCompleted(log)|
    ensures IsCompleted(log, AllCompleted(log)[i])
  {
    assert AllCompleted(log)[i] in AllCompleted(log);
  }

  lemma RowEnds(log: Log, rows: seq<Row>, isolation: Isolation, i: nat)
    requires Validated(log, rows, isolation) && i < |rows|
    ensures EndsAt(log, rows[i].resultSequence - 1) && log[rows[i].resultSequence - 1].envelope == rows[i].envelope
    ensures log[rows[i].resultSequence - 1].binding == rows[i].binding
    ensures rows[i].profile == STRICT_PROFILE && rows[i].binding.imageId == isolation.imageId
  {
    var env := AllCompleted(log)[i];
    ListedCompleted(log, i);
    assert Describes(rows[i], log, env);
    DescribesLast(log, env, rows[i], isolation);
  }

  /** The place where an envelope ends is in some row. */
  lemma EndsInRow(log: Log, rows: seq<Row>, isolation: Isolation, k: nat) returns (i: nat)
    requires Validated(log, rows, isolation) && EndsAt(log, k)
    ensures i < |rows| && rows[i].resultSequence - 1 == k
  {
    EndsCompleted(log, k);
    CompletedGrouped(log, log[k].envelope);
    i :| 0 <= i < |rows| && AllCompleted(log)[i] == log[k].envelope;
    RowEnds(log, rows, isolation, i);
    assert Describes(rows[i], log, log[k].envelope);
    EndsOnce(log, k, rows[i].resultSequence - 1);
  }

  lemma BoundExact(log: Log, rows: seq<Row>, isolation: Isolation, b: Binding)
    requires Validated(log, rows, isolation)
    ensures RowsBound(rows, b) <==> AllEndWith(log, b)
  {
    if AllEndWith(log, b) {
      forall i | 0 <= i < |rows| ensures rows[i].binding == b {
        RowEnds(log, rows, isolation, i);
      }
    }
    if RowsBound(rows, b) {
      forall k: nat | EndsAt(log, k) ensures log[k].binding == b {
        var i := EndsInRow(log, rows, isolation, k);
        RowEnds(log, rows, isolation, i);
      }
    }
  }

  lemma OneBindingAnywhere(rows: seq<Row>, isolation: Isolation)
    requires forall i :: 0 <= i < |rows| ==>
               rows[i].profile == STRICT_PROFILE && rows[i].binding.imageId == isolation.imageId
    ensures OneBinding(rows, isolation).Ok? <==>
              rows != [] && exists b :: RowsBound(rows, b) && Admitted(b, isolation)
    ensures OneBinding(rows, isolation).Ok? ==>
              RowsBound(rows, OneBinding(rows, isolation).value)
              && Admitted(OneBinding(rows, isolation).value, isolation)
  {
    if rows != [] {
      AdmittedExact(rows[0].binding, isolation);
      if b :| RowsBound(rows, b) && Admitted(b, isolation) {
        assert b == rows[0].binding;
      }
    }
  }

  ghost predicate HasOwner(log: Log) {
    exists k :: 0 <= k < |log| && log[k].OwnerOpened?
  }

  lemma {:induction false} OwnersExact(log: Log)
    ensures OwnerEpochs(log) != [] <==> HasOwner(log)
  {
    if log != [] {
      var front, e := log[..|log| - 1], log[|log| - 1];
      OwnersExact(front);
      assert log == front + [e];
      if HasOwner(front) {
        var k :| 0 <= k < |front| && front[k].OwnerOpened?;
        assert log[k].OwnerOpened?;
      }
      if e.OwnerOpened? {
        assert log[|front|].OwnerOpened?;
      }
    }
  }

  /**
    Of any log at all, a receipt is made exactly when an owner opened, some envelope is completed, every
    completed one is valid, and their results share one admitted binding.  It names that binding and
    describes each completed envelope's RESULT, in order of id.
   */
  lemma ReceiptAnywhere(log: Log, isolation: Isolation)
    ensures Reconstruct(log, isolation).Ok? <==>
              && HasOwner(log) && SomeCompleted(log)
              && (forall env :: IsCompleted(log, env) ==> ValidEnvelope(log, env, isolation))
              && exists b :: AllEndWith(log, b) && Admitted(b, isolation)
    ensures Reconstruct(log, isolation).Ok? ==>
              var receipt := Reconstruct(log, isolation).value;
              && AllEndWith(log, receipt.binding) && Admitted(receipt.binding, isolation)
              && Describe(receipt.rows, log, AllCompleted(log)) && Increasing(AllCompleted(log))
              && forall env :: env in AllCompleted(log) <==> IsCompleted(log, env)
  {
    OwnersExact(log);
    SomeRow(log);
    CompletedIncreasing(log, Sorted(Grouped(log)));
    forall env | IsCompleted(log, env) ensures env in AllCompleted(log) && env in Sorted(Grouped(log)) {
      CompletedGrouped(log, env);
    }
    RowsAnywhere(log, Sorted(Grouped(log)), isolation);
    var rows := RowsOf(log, Sorted(Grouped(log)), isolation);
    if rows.Ok? {
      RowsStrict(log, rows.value, isolation);
      OneBindingAnywhere(rows.value, isolation);
      forall b ensures RowsBound(rows.value, b) <==> AllEndWith(log, b) {
        BoundExact(log, rows.value, isolation, b);
      }
    }
  }

  lemma RowsStrict(log: Log, rows: seq<Row>, isolation: Isolation)
    requires Validated(log, rows, isolation)
    ensures forall i :: 0 <= i < |rows| ==>
              rows[i].profile == STRICT_PROFILE && rows[i].binding.imageId == isolation.imageId
  {
    forall i | 0 <= i < |rows|
      ensures rows[i].profile == STRICT_PROFILE && rows[i].binding.imageId == isolation.imageId
    {
      RowEnds(log, rows, isolation, i);
    }
  }
}
