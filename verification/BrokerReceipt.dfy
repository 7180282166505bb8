/**
  The broker's canonical records and the receipt projected from them.

  An event's sequence number is its position plus one.  Request and event ids are modelled by the
  serial they print; the rest of a request's identity, and what a classification found, by values.
 */
module BrokerReceipt {
  import opened Prelude
  import opened Ordering

  datatype Kind = Reserved | Classified

  /** Everything about a request that reservation and classification must agree on. */
  datatype Identity = Identity(operation: nat, binding: nat, scope: nat, peer: nat, digest: nat)

  datatype Event =
    | Record(id: nat, kind: Kind, request: nat, identity: Identity, finding: nat)
    | Probe(probe: ProbeKind, result: ProbeResult)
    | Elsewhere

  datatype ProbeKind = Memory | Environment | Argv | File | EventProbe | Socket

  datatype ProbeResult = Clear | Found | Incomplete | Refused

  type Log = seq<Event>

  /** A request as the receipt lists it, by the sequence numbers of its two records. */
  datatype Row = Row(reservation: nat, classification: nat, request: nat, identity: Identity, finding: nat)

  /** The positions of a request's two records. */
  datatype Pair = Pair(first: nat, second: nat)

  /** The positions of one request's records of one kind, in order. */
  function Positions(log: Log, kind: Kind, request: nat): (r: seq<nat>)
    ensures forall k: nat :: k in r <==> k < |log| && IsRecord(log[k], kind, request)
    ensures Increasing(r)
  {
    if log == [] then []
    else
      var front := log[..|log| - 1];
      var before := Positions(front, kind, request);
      assert forall k :: 0 <= k < |front| ==> front[k] == log[k];
      assert forall i :: 0 <= i < |before| ==> before[i] in before;
      if IsRecord(log[|log| - 1], kind, request) then before + [|log| - 1] else before
  }

  predicate IsRecord(e: Event, kind: Kind, request: nat) {
    e.Record? && e.kind == kind && e.request == request
  }

  /** The requests in order of first mention. */
  function Requests(log: Log): (r: seq<nat>)
    ensures forall q :: q in r <==> exists k :: 0 <= k < |log| && log[k].Record? && log[k].request == q
  {
    if log == [] then []
    else
      var front, e := log[..|log| - 1], log[|log| - 1];
      var before := Requests(front);
      assert forall k :: 0 <= k < |front| ==> front[k] == log[k];
      if e.Record? && e.request !in before then before + [e.request] else before
  }

  /** The last result of each probe kind. */
  function Probes(log: Log): map<ProbeKind, ProbeResult> {
    if log == [] then map[]
    else
      var e := log[|log| - 1];
      var before := Probes(log[..|log| - 1]);
      if e.Probe? then before[e.probe := e.result] else before
  }

  const ALL_PROBES: set<ProbeKind> := {Memory, Environment, Argv, File, EventProbe, Socket}

  /** The secret was not found; the socket must have refused the executor. */
  predicate Passes(kind: ProbeKind, result: ProbeResult) {
    result == if kind == Socket then Refused else Clear
  }

  predicate ProbesClear(log: Log) {
    Probes(log).Keys == ALL_PROBES && forall kind :: kind in ALL_PROBES ==> Passes(kind, Probes(log)[kind])
  }

  /** Exactly one reservation and one classification. */
  predicate Complete(log: Log, q: nat) {
    |Positions(log, Reserved, q)| == 1 && |Positions(log, Classified, q)| == 1
  }

  predicate AllComplete(log: Log, requests: seq<nat>) {
    forall q :: q in requests ==> Complete(log, q)
  }

  predicate AllPaired(log: Log, requests: seq<nat>) {
    forall q :: q in requests ==> Paired(log, q)
  }

  /** One reservation and one later classification, with the same identity. */
  predicate Paired(log: Log, q: nat) {
    Complete(log, q) && Matches(log, PairOf(log, q))
  }

  function PairOf(log: Log, q: nat): Pair
    requires Complete(log, q)
  {
    Pair(Positions(log, Reserved, q)[0], Positions(log, Classified, q)[0])
  }

  function Pairs(log: Log, requests: seq<nat>): (r: seq<Pair>)
    requires AllComplete(log, requests)
    ensures |r| == |requests| && forall i :: 0 <= i < |r| ==> r[i] == PairOf(log, requests[i])
  {
    if requests == [] then []
    else
      var front := requests[..|requests| - 1];
      assert forall q :: q in front ==> q in requests;
      assert requests[|requests| - 1] in requests;
      Pairs(log, front) + [PairOf(log, requests[|requests| - 1])]
  }

  /** The two records belong together, in that order. */
  predicate Matches(log: Log, pair: Pair) {
    && pair.first < |log| && pair.second < |log| && log[pair.first].Record? && log[pair.second].Record?
    && log[pair.first].request == log[pair.second].request && log[pair.first].identity == log[pair.second].identity
    && pair.first < pair.second
  }

  function First(pair: Pair): nat {
    pair.first
  }

  function RowOf(log: Log, pair: Pair): Row
    requires pair.second < |log| && log[pair.second].Record?
  {
    var e := log[pair.second];
    Row(pair.first + 1, pair.second + 1, e.request, e.identity, e.finding)
  }

  /** One row per pair; nothing when a pair does not match. */
  function Rows(log: Log, pairs: seq<Pair>): (r: Option<seq<Row>>)
    ensures r.Some? <==> forall i :: 0 <= i < |pairs| ==> Matches(log, pairs[i])
    ensures r.Some? ==> |r.value| == |pairs| && forall i :: 0 <= i < |pairs| ==> r.value[i] == RowOf(log, pairs[i])
  {
    if pairs == [] then Some([])
    else
      var before := Rows(log, pairs[..|pairs| - 1]);
      if before.None? || !Matches(log, pairs[|pairs| - 1]) then None
      else Some(before.value + [RowOf(log, pairs[|pairs| - 1])])
  }

  function Receipt(log: Log): Option<seq<Row>> {
    var requests := Requests(log);
    if requests == [] || !AllComplete(log, requests) then None
    else
      var rows := Rows(log, SortBy(First, Pairs(log, requests)));
      if ProbesClear(log) then rows else None
  }

  // ---------------------------------------------------------------- exactly when it succeeds

  predicate DistinctRequests(s: seq<nat>) {
    forall i, j :: 0 <= i < j < |s| ==> s[i] != s[j]
  }

  lemma {:induction false} RequestsDistinct(log: Log)
    ensures DistinctRequests(Requests(log))
  {
    if log != [] {
      RequestsDistinct(log[..|log| - 1]);
      var before := Requests(log[..|log| - 1]);
      assert forall i :: 0 <= i < |before| ==> before[i] in before;
    }
  }

  /** A complete request's pair is the positions of its own two records. */
  lemma PairIsOwn(log: Log, q: nat)
    requires Complete(log, q)
    ensures var pair := PairOf(log, q);
            && pair.first < |log| && IsRecord(log[pair.first], Reserved, q) && pair.second < |log|
            && IsRecord(log[pair.second], Classified, q)
    ensures forall k: nat :: k < |log| && IsRecord(log[k], Reserved, q) ==> k == PairOf(log, q).first
  {
    var rs, cs := Positions(log, Reserved, q), Positions(log, Classified, q);
    assert rs[0] in rs && cs[0] in cs;
    assert rs == [rs[0]];
  }

  lemma PairsDistinct(log: Log, requests: seq<nat>)
    requires DistinctRequests(requests) && AllComplete(log, requests)
    ensures DistinctBy(First, Pairs(log, requests))
  {
    var pairs := Pairs(log, requests);
    forall i, j | 0 <= i < j < |pairs| ensures First(pairs[i]) != First(pairs[j]) {
      assert requests[i] in requests && requests[j] in requests;
      PairIsOwn(log, requests[i]);
      PairIsOwn(log, requests[j]);
    }
  }

  lemma PairMember(log: Log, requests: seq<nat>, pair: Pair)
    requires AllComplete(log, requests)
    ensures pair in Pairs(log, requests) <==> exists i :: 0 <= i < |requests| && pair == PairOf(log, requests[i])
  {}

  predicate HasRow(rows: seq<Row>, q: nat) {
    exists i :: 0 <= i < |rows| && rows[i].request == q
  }

  /** The only records of the request are a reservation and a later classification, of one identity. */
  predicate PairedAt(log: Log, q: nat, i: nat, j: nat) {
    && i < j < |log| && IsRecord(log[i], Reserved, q) && IsRecord(log[j], Classified, q)
    && log[i].identity == log[j].identity
    && forall k :: 0 <= k < |log| && log[k].Record? && log[k].request == q ==> k == i || k == j
  }

  ghost predicate PairedSomewhere(log: Log, q: nat) {
    exists i: nat, j: nat :: PairedAt(log, q, i, j)
  }

  lemma OnlyPosition(log: Log, kind: Kind, q: nat, i: nat)
    requires i < |log| && IsRecord(log[i], kind, q)
    requires forall k: nat :: k < |log| && IsRecord(log[k], kind, q) ==> k == i
    ensures Positions(log, kind, q) == [i]
  {
    IncreasingUnique(Positions(log, kind, q), [i]);
  }

  lemma PairedFrom(log: Log, q: nat, i: nat, j: nat)
    requires PairedAt(log, q, i, j)
    ensures Paired(log, q) && PairOf(log, q) == Pair(i, j)
  {
    OnlyPosition(log, Reserved, q, i);
    OnlyPosition(log, Classified, q, j);
  }

  lemma PairedTo(log: Log, q: nat)
    requires Paired(log, q)
    ensures PairedAt(log, q, PairOf(log, q).first, PairOf(log, q).second)
  {
    PairIsOwn(log, q);
    var cs := Positions(log, Classified, q);
    assert cs == [cs[0]];
    forall k | 0 <= k < |log| && log[k].Record? && log[k].request == q
      ensures k == PairOf(log, q).first || k == PairOf(log, q).second
    {
      assert log[k].kind == Classified ==> k in cs;
    }
  }

  /** The row gives the positions and the content of its request's own two records. */
  predicate OwnRow(log: Log, row: Row) {
    && 1 <= row.reservation && 1 <= row.classification
    && PairedAt(log, row.request, row.reservation - 1, row.classification - 1)
    && row.identity == log[row.classification - 1].identity && row.finding == log[row.classification - 1].finding
  }

  /** Rows listed strictly by reservation, one for each request and no other. */
  ghost predicate ListsRequests(rows: seq<Row>, log: Log) {
    && (forall i, j :: 0 <= i < j < |rows| ==> rows[i].reservation < rows[j].reservation)
    && (forall i :: 0 <= i < |rows| ==> OwnRow(log, rows[i]))
    && (forall k :: 0 <= k < |log| && log[k].Record? ==> HasRow(rows, log[k].request))
  }

  ghost predicate SortedOf(log: Log, sorted: seq<Pair>) {
    && AllComplete(log, Requests(log)) && StrictlyBy(First, sorted)
    && (forall pair :: pair in sorted <==> pair in Pairs(log, Requests(log)))
  }

  lemma RowOwned(log: Log, q: nat)
    requires Paired(log, q)
    ensures PairOf(log, q).second < |log| && log[PairOf(log, q).second].Record?
    ensures OwnRow(log, RowOf(log, PairOf(log, q)))
  {
    PairedTo(log, q);
  }

  lemma RequestOf(log: Log, requests: seq<nat>, pair: Pair) returns (q: nat)
    requires AllComplete(log, requests) && pair in Pairs(log, requests)
    ensures q in requests && Complete(log, q) && pair == PairOf(log, q)
  {
    PairMember(log, requests, pair);
    var n :| 0 <= n < |requests| && pair == PairOf(log, requests[n]);
    q := requests[n];
  }

  lemma RowIsOwn(log: Log, pair: Pair)
    requires AllComplete(log, Requests(log)) && pair in Pairs(log, Requests(log)) && Matches(log, pair)
    ensures OwnRow(log, RowOf(log, pair))
  {
    var q := RequestOf(log, Requests(log), pair);
    RowOwned(log, q);
  }

  lemma RequestHasRow(log: Log, sorted: seq<Pair>, rows: seq<Row>, q: nat)
    requires SortedOf(log, sorted) && Rows(log, sorted) == Some(rows) && q in Requests(log)
    ensures HasRow(rows, q)
  {
    PairIsOwn(log, q);
    PairMember(log, Requests(log), PairOf(log, q));
    assert PairOf(log, q) in sorted;
    var i :| 0 <= i < |sorted| && sorted[i] == PairOf(log, q);
    assert rows[i].request == q;
  }

  lemma RowsList(log: Log, sorted: seq<Pair>, rows: seq<Row>)
    requires SortedOf(log, sorted) && Rows(log, sorted) == Some(rows)
    ensures ListsRequests(rows, log)
  {
    forall i | 0 <= i < |rows| ensures OwnRow(log, rows[i]) {
      assert sorted[i] in sorted;
      RowIsOwn(log, sorted[i]);
    }
    forall i, j | 0 <= i < j < |rows| ensures rows[i].reservation < rows[j].reservation {
      assert First(sorted[i]) < First(sorted[j]);
    }
    forall k | 0 <= k < |log| && log[k].Record? ensures HasRow(rows, log[k].request) {
      RequestHasRow(log, sorted, rows, log[k].request);
    }
  }

  // ---------------------------------------------------------------- the secret probes

  /** The last probe of its kind stands here. */
  predicate LastProbe(log: Log, kind: ProbeKind, k: nat) {
    && k < |log| && log[k].Probe? && log[k].probe == kind
    && forall j :: k < j < |log| && log[j].Probe? ==> log[j].probe != kind
  }

  /** There is a last probe of the kind, and it found nothing. */
  ghost predicate LastPasses(log: Log, kind: ProbeKind) {
    exists k: nat :: LastProbe(log, kind, k) && log[k].result == if kind == Socket then Refused else Clear
  }

  lemma {:induction false} ProbesLast(log: Log, kind: ProbeKind, k: nat)
    requires LastProbe(log, kind, k)
    ensures kind in Probes(log) && Probes(log)[kind] == log[k].result
  {
    if k < |log| - 1 {
      ProbesLast(log[..|log| - 1], kind, k);
    }
  }

  lemma {:induction false} ProbesFound(log: Log, kind: ProbeKind) returns (k: nat)
    requires kind in Probes(log)
    ensures LastProbe(log, kind, k)
  {
    var e := log[|log| - 1];
    if e.Probe? && e.probe == kind {
      k := |log| - 1;
    } else {
      k := ProbesFound(log[..|log| - 1], kind);
    }
  }

  lemma PassesExact(log: Log, kind: ProbeKind)
    ensures LastPasses(log, kind) <==> kind in Probes(log) && Passes(kind, Probes(log)[kind])
  {
    if LastPasses(log, kind) {
      var k: nat :| LastProbe(log, kind, k) && log[k].result == if kind == Socket then Refused else Clear;
      ProbesLast(log, kind, k);
    } else if kind in Probes(log) {
      var k := ProbesFound(log, kind);
      ProbesLast(log, kind, k);
    }
  }

  lemma ProbesClearExact(log: Log)
    ensures ProbesClear(log) <==> forall kind: ProbeKind :: LastPasses(log, kind)
  {
    forall kind: ProbeKind ensures kind in ALL_PROBES {
      match kind {
        case Memory => case Environment => case Argv => case File => case EventProbe => case Socket =>
      }
    }
    forall kind: ProbeKind
      ensures LastPasses(log, kind) <==> kind in Probes(log) && Passes(kind, Probes(log)[kind])
    {
      PassesExact(log, kind);
    }
    if forall kind: ProbeKind :: LastPasses(log, kind) {
      assert forall kind: ProbeKind :: LastPasses(log, kind) ==> kind in Probes(log);
      assert Probes(log).Keys == ALL_PROBES;
    }
  }

  // ---------------------------------------------------------------- when there is a receipt

  ghost predicate SomeRecord(log: Log) {
    exists k :: 0 <= k < |log| && log[k].Record?
  }

  ghost predicate EveryPaired(log: Log) {
    forall k :: 0 <= k < |log| && log[k].Record? ==> PairedSomewhere(log, log[k].request)
  }

  /** The log has a request, each is reserved once and later classified once, and the last probe of each kind passed. */
  ghost predicate Receiptable(log: Log) {
    SomeRecord(log) && EveryPaired(log) && forall kind: ProbeKind :: LastPasses(log, kind)
  }

  lemma EveryPairedExact(log: Log)
    ensures EveryPaired(log) <==> AllPaired(log, Requests(log))
  {
    if EveryPaired(log) {
      forall q | q in Requests(log) ensures Paired(log, q) {
        var k :| 0 <= k < |log| && log[k].Record? && log[k].request == q;
        var i: nat, j: nat :| PairedAt(log, log[k].request, i, j);
        PairedFrom(log, q, i, j);
      }
    }
    if AllPaired(log, Requests(log)) {
      forall k | 0 <= k < |log| && log[k].Record? ensures PairedSomewhere(log, log[k].request) {
        assert log[k].request in Requests(log);
        PairedTo(log, log[k].request);
      }
    }
  }

  lemma SomeRequest(log: Log)
    ensures SomeRecord(log) <==> Requests(log) != []
  {
    if Requests(log) != [] {
      assert Requests(log)[0] in Requests(log);
    }
  }

  /**
    A receipt can be projected exactly when the log has a request, every request has one reservation
    and one later classification of the same identity, and the last probe of each kind passed.  Its
    rows are then the requests in reservation order, however their records were interleaved.
   */
  lemma ReceiptExact(log: Log)
    ensures Receipt(log).Some? <==> Receiptable(log)
    ensures Receipt(log).Some? ==> ListsRequests(Receipt(log).value, log)
  {
    SomeRequest(log);
    EveryPairedExact(log);
    ProbesClearExact(log);
    if AllComplete(log, Requests(log)) {
      SortedPairs(log);
      var sorted := SortBy(First, Pairs(log, Requests(log)));
      AllMatch(log, sorted);
      if Rows(log, sorted).Some? {
        RowsList(log, sorted, Rows(log, sorted).value);
      }
    }
  }

  lemma SortedPairs(log: Log)
    requires AllComplete(log, Requests(log))
    ensures var sorted := SortBy(First, Pairs(log, Requests(log)));
            StrictlyBy(First, sorted) && forall pair :: pair in sorted <==> pair in Pairs(log, Requests(log))
  {
    RequestsDistinct(log);
    PairsDistinct(log, Requests(log));
    SortByStrict(First, Pairs(log, Requests(log)));
  }

  lemma AllMatch(log: Log, sorted: seq<Pair>)
    requires AllComplete(log, Requests(log))
    requires forall pair :: pair in sorted <==> pair in Pairs(log, Requests(log))
    ensures (forall i :: 0 <= i < |sorted| ==> Matches(log, sorted[i])) <==> AllPaired(log, Requests(log))
  {
    var requests := Requests(log);
    if forall i :: 0 <= i < |sorted| ==> Matches(log, sorted[i]) {
      forall q | q in requests ensures Paired(log, q) {
        var n :| 0 <= n < |requests| && requests[n] == q;
        PairMember(log, requests, PairOf(log, q));
        assert PairOf(log, q) in sorted;
      }
    }
    if AllPaired(log, requests) {
      forall i | 0 <= i < |sorted| ensures Matches(log, sorted[i]) {
        assert sorted[i] in sorted;
        PairMember(log, requests, sorted[i]);
        var n :| 0 <= n < |requests| && sorted[i] == PairOf(log, requests[n]);
        assert requests[n] in requests;
      }
    }
  }

  // ---------------------------------------------------------------- the projection as written

  datatype Lifecycle = Lifecycle(reserved: seq<nat>, classified: seq<nat>)

  function LifecycleOf(log: Log, q: nat): Lifecycle {
    Lifecycle(Positions(log, Reserved, q), Positions(log, Classified, q))
  }

  /** The dictionary holds each request's positions, and lists requests in order of first mention. */
  ghost predicate Grouped(order: seq<nat>, lifecycles: map<nat, Lifecycle>, log: Log) {
    && order == Requests(log)
    && (forall q :: q in lifecycles <==> q in order)
    && (forall q :: q in lifecycles ==> lifecycles[q] == LifecycleOf(log, q))
  }

  function Extended(l: Lifecycle, kind: Kind, k: nat): Lifecycle {
    if kind == Reserved then l.(reserved := l.reserved + [k]) else l.(classified := l.classified + [k])
  }

  lemma PositionsMore(log: Log, e: Event, kind: Kind, q: nat)
    ensures Positions(log + [e], kind, q) == Positions(log, kind, q) + if IsRecord(e, kind, q) then [|log|] else []
  {
    assert (log + [e])[..|log|] == log;
  }

  lemma RequestsMore(log: Log, e: Event)
    ensures Requests(log + [e]) == Requests(log) + if e.Record? && e.request !in Requests(log) then [e.request] else []
  {
    assert (log + [e])[..|log|] == log;
  }

  lemma Unmentioned(log: Log, q: nat)
    requires q !in Requests(log)
    ensures LifecycleOf(log, q) == Lifecycle([], [])
  {
    if Positions(log, Reserved, q) != [] {
      HasMember(Positions(log, Reserved, q));
    }
    if Positions(log, Classified, q) != [] {
      HasMember(Positions(log, Classified, q));
    }
  }

  lemma HasMember(s: seq<nat>)
    requires s != []
    ensures exists k: nat :: k in s
  {
    assert s[0] in s;
  }

  lemma LifecycleMore(log: Log, e: Event, q: nat)
    ensures LifecycleOf(log + [e], q)
            == if e.Record? && e.request == q then Extended(LifecycleOf(log, q), e.kind, |log|) else LifecycleOf(log, q)
  {
    PositionsMore(log, e, Reserved, q);
    PositionsMore(log, e, Classified, q);
  }

  function Grown(lifecycles: map<nat, Lifecycle>, e: Event, k: nat): map<nat, Lifecycle>
    requires e.Record?
  {
    var prior := if e.request in lifecycles then lifecycles[e.request] else Lifecycle([], []);
    lifecycles[e.request := Extended(prior, e.kind, k)]
  }

  lemma GroupedMore(order: seq<nat>, lifecycles: map<nat, Lifecycle>, log: Log, e: Event)
    requires Grouped(order, lifecycles, log)
    ensures e.Record? ==>
              Grouped(if e.request in lifecycles then order else order + [e.request],
                      Grown(lifecycles, e, |log|), log + [e])
    ensures !e.Record? ==> Grouped(order, lifecycles, log + [e])
  {
    RequestsMore(log, e);
    if e.Record? {
      var more := Grown(lifecycles, e, |log|);
      forall q | q in more ensures more[q] == LifecycleOf(log + [e], q) {
        LifecycleMore(log, e, q);
        if q !in lifecycles {
          Unmentioned(log, q);
        }
      }
    } else {
      forall q | q in lifecycles ensures lifecycles[q] == LifecycleOf(log + [e], q) {
        LifecycleMore(log, e, q);
      }
    }
  }

  /** Group the records by request in one pass. */
  method GroupRecords(log: Log) returns (order: seq<nat>, lifecycles: map<nat, Lifecycle>)
    ensures Grouped(order, lifecycles, log)
  {
    order, lifecycles := [], map[];
    for k := 0 to |log|
      invariant Grouped(order, lifecycles, log[..k])
    {
      var e := log[k];
      assert log[..k + 1] == log[..k] + [e];
      GroupedMore(order, lifecycles, log[..k], e);
      if e.Record? {
        order := if e.request in lifecycles then order else order + [e.request];
        lifecycles := Grown(lifecycles, e, k);
      }
    }
    assert log[..|log|] == log;
  }

  /** Pair each request's records in dictionary order; nothing when a lifecycle is incomplete or doubled. */
  method PairRecords(order: seq<nat>, lifecycles: map<nat, Lifecycle>, ghost log: Log)
    returns (pairs: Option<seq<Pair>>)
    requires Grouped(order, lifecycles, log)
    ensures pairs.Some? <==> AllComplete(log, order)
    ensures pairs.Some? ==> pairs.value == Pairs(log, order)
  {
    var found: seq<Pair> := [];
    for i := 0 to |order|
      invariant AllComplete(log, order[..i]) && found == Pairs(log, order[..i])
    {
      var l := lifecycles[order[i]];
      assert order[..i + 1] == order[..i] + [order[i]];
      if |l.reserved| != 1 || |l.classified| != 1 {
        assert !Complete(log, order[i]) && order[i] in order;
        return None;
      }
      PairsMore(log, order[..i], order[i]);
      found := found + [Pair(l.reserved[0], l.classified[0])];
    }
    assert order[..|order|] == order;
    return Some(found);
  }

  lemma PairsMore(log: Log, requests: seq<nat>, q: nat)
    requires AllComplete(log, requests) && Complete(log, q)
    ensures AllComplete(log, requests + [q]) && Pairs(log, requests + [q]) == Pairs(log, requests) + [PairOf(log, q)]
  {
    assert (requests + [q])[..|requests|] == requests;
  }

  method ProjectReceipt(log: Log) returns (r: Option<seq<Row>>)
    ensures r == Receipt(log) && (r.Some? <==> Receiptable(log)) && (r.Some? ==> ListsRequests(r.value, log))
  {
    ReceiptExact(log);
    var order, lifecycles := GroupRecords(log);
    if order == [] {
      return None;
    }
    var pairs := PairRecords(order, lifecycles, log);
    if pairs.None? {
      return None;
    }
    var rows := Rows(log, SortBy(First, pairs.value));
    return if rows.Some? && ProbesClear(log) then rows else None;
  }
}
