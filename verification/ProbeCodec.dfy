/**
  A whole probe recorded after earlier ones that may have died half-way, and the probe's own document
  form: flattened by name, and read back with its identities, endpoints and sizes checked.
 */
module ProbeCodec {
  import opened Prelude
  import opened Ordering
  import opened Text
  import opened ProfileDocuments
  import opened ProbeIndex
  import opened ProfileReceipt

  // ---------------------------------------------------------------- recording one probe after others

  function ProbeId(serial: nat): string {
    "profile-probe-" + Serial(serial)
  }

  lemma ProbeIdInjective(m: nat, n: nat)
    requires ProbeId(m) == ProbeId(n)
    ensures m == n
  {
    assert ProbeId(m)[14..] == Serial(m) && ProbeId(n)[14..] == Serial(n);
    SerialInjective(m, n);
  }

  /** Every observation so far belongs to a probe numbered below `serial`. */
  ghost predicate OnlyEarlier(log: Log, serial: nat) {
    forall i :: 0 <= i < |log| && log[i].Observation? ==> exists n: nat :: n < serial && log[i].probe == ProbeId(n)
  }

  lemma EarlierFiltered(log: Log, serial: nat)
    requires OnlyEarlier(log, serial)
    ensures Matching(log, ProbeId(serial)) == []
  {
    forall i | 0 <= i < |log| && log[i].Observation? ensures log[i].probe != ProbeId(serial) {
      var n: nat :| n < serial && log[i].probe == ProbeId(n);
      if ProbeId(n) == ProbeId(serial) {
        ProbeIdInjective(n, serial);
      }
    }
    MatchingNone(log, ProbeId(serial));
  }

  /**
    Run both passes of probe `serial` after any earlier probes, finished or not.  The log then
    rebuilds into exactly the probe returned.
   */
  method RecordProbe(w: World, serial: nat, log: Log) returns (first: Cycle, second: Cycle, log': Log)
    requires ValidWorld(w) && OnlyEarlier(log, serial)
    ensures first == Pass(w, ProbeId(serial), 1) && second == Pass(w, ProbeId(serial), 2)
    ensures CanonicalProbe(log', ProbeId(serial)) == Some((first, second))
    ensures log <= log'
    ensures Matching(log', ProbeId(serial)) == PassTrail(w, ProbeId(serial), 1) + PassTrail(w, ProbeId(serial), 2)
  {
    var probe := ProbeId(serial);
    first, log' := CollectCycle(w, probe, 1, log);
    second, log' := CollectCycle(w, probe, 2, log');
    EarlierFiltered(log, serial);
    TrailMatches(w, probe, log);
    ProbeRebuilt(w, probe, log');
  }

  predicate AllOf<D>(events: seq<Event<D>>, probe: string) {
    forall i :: 0 <= i < |events| ==> events[i].Observation? && events[i].probe == probe
  }

  lemma OnlyLater<D>(log: seq<Event<D>>, a: seq<Event<D>>, b: seq<Event<D>>, probe: string)
    requires Matching(log, probe) == [] && AllOf(a, probe) && AllOf(b, probe)
    ensures Matching(log + a + b, probe) == a + b
  {
    MatchingAll(a, probe);
    MatchingAll(b, probe);
    MatchingConcat(log, a, probe);
    assert [] + a == a;
    MatchingConcat(log + a, b, probe);
  }

  lemma TrailMatches(w: World, probe: string, log: Log)
    requires Matching(log, probe) == []
    ensures Matching(log + PassTrail(w, probe, 1) + PassTrail(w, probe, 2), probe)
            == PassTrail(w, probe, 1) + PassTrail(w, probe, 2)
  {
    TrailFacts(NameOf, Fetcher(w, probe, 1), probe, 1, Reads(Listed(w, probe, 1)));
    TrailFacts(NameOf, Fetcher(w, probe, 2), probe, 2, Reads(Listed(w, probe, 2)));
    OnlyLater(log, PassTrail(w, probe, 1), PassTrail(w, probe, 2), probe);
  }

  // ---------------------------------------------------------------- one document

  /** A document as the receipt holds it: the body twice, as itself and as its digest, and its sizes. */
  datatype Wire = Wire(requestId: string, endpoint: string, status: nat, contentType: string, body: string,
                       bodyDigest: string, bodyBytes: nat, originalBytes: nat, complete: bool)

  function ToWire(d: Document): Wire {
    Wire(d.requestId, d.endpoint, d.status, d.contentType, d.body, d.body, |d.body|, d.originalBytes, d.complete)
  }

  function FromWire(x: Wire): Option<Document> {
    if |x.body| != x.bodyBytes || x.body != x.bodyDigest then None
    else if x.originalBytes < |x.body| || x.complete != (x.originalBytes == |x.body|) then None
    else Some(MakeDocument(x.requestId, x.endpoint, x.status, x.contentType, x.body, x.originalBytes, x.complete))
  }

  /** A document survives the receipt exactly when its size and completeness agree with its body. */
  lemma WireRoundTrip(d: Document)
    ensures FromWire(ToWire(d)) == Some(d) <==>
              |d.body| <= d.originalBytes && (d.complete <==> d.originalBytes == |d.body|)
  {}

  // ---------------------------------------------------------------- a pass, flattened and read back

  /** The id a detail document answers for, read off its endpoint. */
  function DetailId(d: Document): nat {
    match DetailName(d.endpoint)
    case Some(name) => if KeyOf(name).Some? && KeyOf(name).value.Detail? then KeyOf(name).value.id else 0
    case None => 0
  }

  predicate HasDetailId(d: Document) {
    DetailName(d.endpoint).Some?
  }

  function NameDetail(d: Document): string {
    if DetailName(d.endpoint).Some? then DetailName(d.endpoint).value else ""
  }

  /** Name every document of a pass: the controls in declared order, then the details by number. */
  function Flatten(c: Cycle): Option<seq<(string, Document)>> {
    if |c.fixed| != 8 || exists i :: 0 <= i < |c.details| && !HasDetailId(c.details[i]) then None
    else
      var details := SortBy(DetailId, c.details);
      Some(seq(8, i requires 0 <= i < 8 => (NameOf((OPENING + ENDING)[i]), c.fixed[i]))
           + seq(|details|, i requires 0 <= i < |details| => (NameDetail(details[i]), details[i])))
  }

  function Dict<D>(pairs: seq<(string, D)>): map<string, D> {
    if pairs == [] then map[] else Dict(pairs[..|pairs| - 1])[pairs[|pairs| - 1].0 := pairs[|pairs| - 1].1]
  }

  function Wires(pairs: seq<(string, Document)>): map<string, Wire> {
    Dict(seq(|pairs|, i requires 0 <= i < |pairs| => (pairs[i].0, ToWire(pairs[i].1))))
  }

  predicate AllRead(wires: map<string, Wire>) {
    forall name :: name in wires ==> FromWire(wires[name]).Some?
  }

  function ReadBack(wires: map<string, Wire>): map<string, Document>
    requires AllRead(wires)
  {
    map name | name in wires :: FromWire(wires[name]).value
  }

  /** No request id is used twice within a pass or across the two. */
  predicate IdsUnused(first: map<string, Document>, second: map<string, Document>) {
    && (forall m, n :: m in first && n in first && first[m].requestId == first[n].requestId ==> m == n)
    && (forall m, n :: m in second && n in second && second[m].requestId == second[n].requestId ==> m == n)
    && (forall m, n :: m in first && n in second ==> first[m].requestId != second[n].requestId)
  }

  /** Read a two-pass probe document back. */
  function ProbeFrom(first: map<string, Wire>, second: map<string, Wire>): Option<(Cycle, Cycle)> {
    if !AllRead(first) || !AllRead(second) || !IdsUnused(ReadBack(first), ReadBack(second)) then None
    else
      match CycleFrom(ReadBack(first))
      case None => None
      case Some(a) =>
        match CycleFrom(ReadBack(second))
        case None => None
        case Some(b) => Some((a, b))
  }

  lemma DetailIdOf(w: World, probe: string, cycle: nat, id: nat)
    requires id > 0
    ensures var d := Fetch(w, probe, cycle, Detail(id));
            HasDetailId(d) && DetailId(d) == id && NameDetail(d) == NameOf(Detail(id))
  {
    KeyOfName(Detail(id));
    DetailBijection(EndpointOf(Detail(id)), NameOf(Detail(id)));
    FetchConsistent(w, probe, cycle, Detail(id));
  }

  /** Request ids tell passes and documents apart. */
  lemma RequestIdTells(probe: string, c: nat, k: Key, c': nat, k': Key)
    requires ValidKey(k) && ValidKey(k') && RequestId(probe, c, k) == RequestId(probe, c', k')
    ensures k == k' && c == c'
  {
    SameKey(probe, c, k, c', k');
    Cancel(probe, Decimal(c), Decimal(c'), TailOf(k));
    ParseOfDecimal(c);
    ParseOfDecimal(c');
  }

  lemma SameKey(probe: string, c: nat, k: Key, c': nat, k': Key)
    requires ValidKey(k) && ValidKey(k') && RequestId(probe, c, k) == RequestId(probe, c', k')
    ensures k == k'
  {
    ObservedNameOf(probe, c, k);
    ObservedNameOf(probe, c', k');
    KeyOfName(k);
    KeyOfName(k');
  }

  lemma Cancel(a: string, d: string, d': string, t: string)
    requires a + ":" + d + ":" + t == a + ":" + d' + ":" + t
    ensures d == d'
  {
    var n := |a| + 1;
    assert |d| == |d'|;
    assert (a + ":" + d + ":" + t)[n..n + |d|] == d;
    assert (a + ":" + d' + ":" + t)[n..n + |d|] == d';
  }

  // ---------------------------------------------------------------- the round trip

  function Pairs<D>(name: Key -> string, doc: Key -> D, keys: seq<Key>): seq<(string, D)> {
    seq(|keys|, i requires 0 <= i < |keys| => (name(keys[i]), doc(keys[i])))
  }

  lemma {:induction false} DictHolds<D>(name: Key -> string, key: string -> Option<Key>, doc: Key -> D, keys: seq<Key>)
    requires Named(name, key, keys)
    ensures Holds(Dict(Pairs(name, doc, keys)), name, key, doc, keys)
  {
    if keys != [] {
      var front, k := keys[..|keys| - 1], keys[|keys| - 1];
      var pairs := Pairs(name, doc, keys);
      assert pairs[..|pairs| - 1] == Pairs(name, doc, front);
      assert forall j :: j in front ==> j in keys;
      DictHolds(name, key, doc, front);
      assert k in keys;
      HoldsMore(Dict(Pairs(name, doc, front)), name, key, doc, front, k);
      assert keys == front + [k];
    }
  }

  lemma HoldsReordered<D>(docs: map<string, D>, name: Key -> string, key: string -> Option<Key>, doc: Key -> D,
                          a: seq<Key>, b: seq<Key>)
    requires Holds(docs, name, key, doc, a) && forall k :: k in a <==> k in b
    ensures Holds(docs, name, key, doc, b)
  {}

  /** The keys of a pass in the order it is flattened, and in the order it was read, are the same keys. */
  function Flat(ids: seq<nat>): seq<Key> {
    OPENING + ENDING + DetailKeys(ids)
  }

  lemma FlatMembers(ids: seq<nat>)
    ensures forall k :: k in Flat(ids) <==> k in Reads(ids)
  {
    assert multiset(Flat(ids)) == multiset(OPENING) + multiset(ENDING) + multiset(DetailKeys(ids))
           == multiset(Reads(ids));
    forall k ensures k in Flat(ids) <==> k in Reads(ids) {
      assert k in Flat(ids) <==> k in multiset(Flat(ids));
      assert k in Reads(ids) <==> k in multiset(Reads(ids));
    }
  }

  /** Details come in strictly increasing id order, so sorting leaves them alone. */
  lemma DetailsSorted(w: World, probe: string, cycle: nat)
    requires ValidWorld(w)
    ensures var details := Pass(w, probe, cycle).details;
            && SortBy(DetailId, details) == details
            && (forall i :: 0 <= i < |details| ==>
                HasDetailId(details[i]) && NameDetail(details[i]) == NameOf(DetailKeys(Listed(w, probe, cycle))[i]))
  {
    var ids, details := Listed(w, probe, cycle), Pass(w, probe, cycle).details;
    ListedPositive(w, probe, cycle);
    forall i | 0 <= i < |ids|
      ensures HasDetailId(details[i]) && DetailId(details[i]) == ids[i]
      ensures NameDetail(details[i]) == NameOf(Detail(ids[i]))
    {
      assert ValidKey(DetailKeys(ids)[i]);
      DetailIdOf(w, probe, cycle, ids[i]);
    }
    SortByFixed(DetailId, details);
  }

  lemma PairsConcat<D>(name: Key -> string, doc: Key -> D, a: seq<Key>, b: seq<Key>)
    ensures Pairs(name, doc, a + b) == Pairs(name, doc, a) + Pairs(name, doc, b)
  {}

  lemma FlattenPass(w: World, probe: string, cycle: nat)
    requires ValidWorld(w)
    ensures Flatten(Pass(w, probe, cycle))
            == Some(Pairs(NameOf, Fetcher(w, probe, cycle), Flat(Listed(w, probe, cycle))))
  {
    var c, f, keys := Pass(w, probe, cycle), Fetcher(w, probe, cycle), DetailKeys(Listed(w, probe, cycle));
    DetailsSorted(w, probe, cycle);
    PairsConcat(NameOf, f, OPENING + ENDING, keys);
    FlattenParts(c, f, keys);
  }

  lemma FlattenParts(c: Cycle, f: Key -> Document, keys: seq<Key>)
    requires c == Cycle(Documents(f, OPENING + ENDING), Documents(f, keys)) && SortBy(DetailId, c.details) == c.details
    requires forall i :: 0 <= i < |c.details| ==>
               HasDetailId(c.details[i]) && NameDetail(c.details[i]) == NameOf(keys[i])
    ensures Flatten(c) == Some(Pairs(NameOf, f, OPENING + ENDING) + Pairs(NameOf, f, keys))
  {
    var details := c.details;
    assert seq(8, i requires 0 <= i < 8 => (NameOf((OPENING + ENDING)[i]), c.fixed[i]))
           == Pairs(NameOf, f, OPENING + ENDING);
    assert seq(|details|, i requires 0 <= i < |details| => (NameDetail(details[i]), details[i]))
           == Pairs(NameOf, f, keys);
  }

  predicate Consistent(d: Document) {
    |d.body| <= d.originalBytes && (d.complete <==> d.originalBytes == |d.body|)
  }

  /** Consistent documents come back from the receipt as they went in. */
  lemma {:induction false} WiresBack(pairs: seq<(string, Document)>)
    requires forall i :: 0 <= i < |pairs| ==> Consistent(pairs[i].1)
    ensures AllRead(Wires(pairs)) && ReadBack(Wires(pairs)) == Dict(pairs)
  {
    if pairs != [] {
      var front, last := pairs[..|pairs| - 1], pairs[|pairs| - 1];
      var wires := seq(|pairs|, i requires 0 <= i < |pairs| => (pairs[i].0, ToWire(pairs[i].1)));
      assert wires[..|wires| - 1] == seq(|front|, i requires 0 <= i < |front| => (front[i].0, ToWire(front[i].1)));
      WiresBack(front);
      WireRoundTrip(last.1);
      assert Wires(pairs) == Wires(front)[last.0 := ToWire(last.1)];
    }
  }

  lemma PassReadBack(w: World, probe: string, cycle: nat)
    requires ValidWorld(w)
    ensures var pairs := Pairs(NameOf, Fetcher(w, probe, cycle), Flat(Listed(w, probe, cycle)));
            && AllRead(Wires(pairs))
            && Holds(ReadBack(Wires(pairs)), NameOf, KeyOf, Fetcher(w, probe, cycle), Reads(Listed(w, probe, cycle)))
  {
    var ids, f := Listed(w, probe, cycle), Fetcher(w, probe, cycle);
    var pairs := Pairs(NameOf, f, Flat(ids));
    forall i | 0 <= i < |pairs| ensures Consistent(pairs[i].1) {
      FetchConsistent(w, probe, cycle, Flat(ids)[i]);
    }
    WiresBack(pairs);
    FlatMembers(ids);
    ListedPositive(w, probe, cycle);
    AllNamed(Reads(ids));
    DictHolds(NameOf, KeyOf, f, Flat(ids));
    HoldsReordered(Dict(pairs), NameOf, KeyOf, f, Flat(ids), Reads(ids));
  }

  lemma FetchId(w: World, probe: string, cycle: nat, k: Key)
    ensures Fetch(w, probe, cycle, k).requestId == RequestId(probe, cycle, k)
  {}

  /** Two entries with one request id are one entry of one pass. */
  lemma HeldIds(w: World, probe: string, c: nat, a: map<string, Document>, c': nat, b: map<string, Document>,
                keys: seq<Key>, keys': seq<Key>, m: string, n: string)
    requires Holds(a, NameOf, KeyOf, Fetcher(w, probe, c), keys)
    requires Holds(b, NameOf, KeyOf, Fetcher(w, probe, c'), keys')
    requires m in a && n in b && a[m].requestId == b[n].requestId
    ensures m == n && c == c'
  {
    var k, k' := KeyOf(m).value, KeyOf(n).value;
    assert a[m] == Fetcher(w, probe, c)(k) && b[n] == Fetcher(w, probe, c')(k');
    FetchId(w, probe, c, k);
    FetchId(w, probe, c', k');
    RequestIdTells(probe, c, k, c', k');
  }

  /** A collected probe, written into the receipt and read back, is the same probe. */
  lemma ProbeRoundTrip(w: World, probe: string)
    requires ValidWorld(w)
    ensures var first, second := Flatten(Pass(w, probe, 1)), Flatten(Pass(w, probe, 2));
            && first.Some? && second.Some?
            && ProbeFrom(Wires(first.value), Wires(second.value)) == Some((Pass(w, probe, 1), Pass(w, probe, 2)))
  {
    FlattenPass(w, probe, 1);
    FlattenPass(w, probe, 2);
    PassReadBack(w, probe, 1);
    PassReadBack(w, probe, 2);
    var keys1, keys2 := Reads(Listed(w, probe, 1)), Reads(Listed(w, probe, 2));
    var a, b := ReadBack(Wires(Flatten(Pass(w, probe, 1)).value)), ReadBack(Wires(Flatten(Pass(w, probe, 2)).value));
    PassUnused(w, probe, a, b, keys1, keys2);
    PassBack(w, probe, 1, a);
    PassBack(w, probe, 2, b);
  }

  lemma PassUnused(w: World, probe: string, a: map<string, Document>, b: map<string, Document>, keys1: seq<Key>,
                   keys2: seq<Key>)
    requires Holds(a, NameOf, KeyOf, Fetcher(w, probe, 1), keys1)
    requires Holds(b, NameOf, KeyOf, Fetcher(w, probe, 2), keys2)
    ensures IdsUnused(a, b)
  {
    forall m, n | m in a && n in a && a[m].requestId == a[n].requestId ensures m == n {
      HeldIds(w, probe, 1, a, 1, a, keys1, keys1, m, n);
    }
    forall m, n | m in b && n in b && b[m].requestId == b[n].requestId ensures m == n {
      HeldIds(w, probe, 2, b, 2, b, keys2, keys2, m, n);
    }
    forall m, n | m in a && n in b ensures a[m].requestId != b[n].requestId {
      if a[m].requestId == b[n].requestId {
        HeldIds(w, probe, 1, a, 2, b, keys1, keys2, m, n);
      }
    }
  }

  lemma PassBack(w: World, probe: string, cycle: nat, docs: map<string, Document>)
    requires ValidWorld(w) && Holds(docs, NameOf, KeyOf, Fetcher(w, probe, cycle), Reads(Listed(w, probe, cycle)))
    ensures CycleFrom(docs) == Some(Pass(w, probe, cycle))
  {
    var ids := Listed(w, probe, cycle);
    ListedPositive(w, probe, cycle);
    AllNamed(Reads(ids));
    HeldPlaced(docs, w, probe, cycle, Reads(ids));
    PassRebuilt(docs, Fetcher(w, probe, cycle), ids);
  }
}
