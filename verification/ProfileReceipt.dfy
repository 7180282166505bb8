/**
  Collecting a two-pass probe, recording it document by document, and rebuilding it from the log.

  What the Board answers to each question in each pass is left open, unreachable and oversized
  answers included, and so is which Challenge ids a listing's body names.
 */
module ProfileReceipt {
  import opened Prelude
  import opened Ordering
  import opened Text
  import opened ProfileDocuments
  import opened ProbeIndex

  /** One response after redaction; nothing when the Board could not be reached. */
  datatype Answer = Answer(status: nat, contentType: string, body: string)

  datatype Document = Document(requestId: string, endpoint: string, status: nat, contentType: string, body: string,
                               originalBytes: nat, complete: bool)

  /** The fixed controls in declared order, and the Challenge details. */
  datatype Cycle = Cycle(fixed: seq<Document>, details: seq<Document>)

  type Log = seq<Event<Document>>

  /** The Board as one probe meets it. */
  datatype World = World(answer: (nat, Key) -> Option<Answer>, ids: string -> set<nat>, limit: nat)

  ghost predicate ValidWorld(w: World) {
    forall body, id :: id in w.ids(body) ==> id > 0
  }

  /** A document's size defaults to its body's when none is given. */
  function MakeDocument(requestId: string, endpoint: string, status: nat, contentType: string, body: string,
                        originalBytes: nat, complete: bool): Document
  {
    Document(requestId, endpoint, status, contentType, body,
             if originalBytes == 0 && body != "" then |body| else originalBytes, complete)
  }

  /** Read one document: an unreachable Board gives an empty one, an oversized body is cut at the limit. */
  function Fetch(w: World, probe: string, cycle: nat, k: Key): Document {
    match w.answer(cycle, k)
    case None => MakeDocument(RequestId(probe, cycle, k), EndpointOf(k), 0, "", "", 0, true)
    case Some(a) =>
      if |a.body| > w.limit
      then MakeDocument(RequestId(probe, cycle, k), EndpointOf(k), a.status, a.contentType, a.body[..w.limit],
                        |a.body|, false)
      else MakeDocument(RequestId(probe, cycle, k), EndpointOf(k), a.status, a.contentType, a.body, |a.body|, true)
  }

  /** A fetched document records its own size exactly, and is complete exactly when nothing was cut. */
  lemma FetchConsistent(w: World, probe: string, cycle: nat, k: Key)
    ensures var d := Fetch(w, probe, cycle, k);
            |d.body| <= d.originalBytes && (d.complete <==> d.originalBytes == |d.body|) && d.endpoint == EndpointOf(k)
  {}

  /**
    A fetched document is the Board's own answer under the question's id and endpoint: its status,
    type and size, and its body or as much of it as the limit lets through.  An unreachable Board
    leaves an empty document.
   */
  lemma FetchKeeps(w: World, probe: string, cycle: nat, k: Key)
    ensures var d := Fetch(w, probe, cycle, k);
            && d.requestId == RequestId(probe, cycle, k) && d.endpoint == EndpointOf(k)
            && match w.answer(cycle, k)
               case None => d.status == 0 && d.contentType == "" && d.body == "" && d.originalBytes == 0 && d.complete
               case Some(a) =>
                 && d.status == a.status && d.contentType == a.contentType && d.originalBytes == |a.body|
                 && d.body <= a.body && |d.body| == (if |a.body| <= w.limit then |a.body| else w.limit)
                 && (d.complete <==> |a.body| <= w.limit)
  {}

  /** The ids a pass asks details for, in increasing order. */
  function Listed(w: World, probe: string, cycle: nat): seq<nat> {
    Sorted(w.ids(Fetch(w, probe, cycle, Fixed(3)).body))
  }

  /** The controls read before the details, and those read after them. */
  const OPENING: seq<Key> := [Fixed(0), Fixed(1), Fixed(2), Fixed(3)]
  const ENDING: seq<Key> := [Fixed(4), Fixed(5), Fixed(6), Fixed(7)]

  function DetailKeys(ids: seq<nat>): seq<Key> {
    seq(|ids|, i requires 0 <= i < |ids| => Detail(ids[i]))
  }

  /** The order in which one pass reads: four controls, the details, and the other four controls. */
  function Reads(ids: seq<nat>): seq<Key> {
    OPENING + DetailKeys(ids) + ENDING
  }

  predicate ValidKeys(keys: seq<Key>) {
    forall i :: 0 <= i < |keys| ==> ValidKey(keys[i])
  }

  /** The documents of one pass, as a function of what is read. */
  function Fetcher(w: World, probe: string, cycle: nat): Key -> Document {
    k => Fetch(w, probe, cycle, k)
  }

  function Pass(w: World, probe: string, cycle: nat): Cycle {
    Cycle(Documents(Fetcher(w, probe, cycle), OPENING + ENDING),
          Documents(Fetcher(w, probe, cycle), DetailKeys(Listed(w, probe, cycle))))
  }

  /** The observations of one pass, each under its canonical name, in reading order. */
  function PassTrail(w: World, probe: string, cycle: nat): Log {
    Trail(NameOf, Fetcher(w, probe, cycle), probe, cycle, Reads(Listed(w, probe, cycle)))
  }

  lemma ListedPositive(w: World, probe: string, cycle: nat)
    requires ValidWorld(w)
    ensures ValidKeys(DetailKeys(Listed(w, probe, cycle))) && ValidKeys(Reads(Listed(w, probe, cycle)))
  {
    var ids := Listed(w, probe, cycle);
    forall i | 0 <= i < |ids| ensures ids[i] > 0 {
      assert ids[i] in ids;
    }
    assert ValidKeys(DetailKeys(ids)) && ValidKeys(OPENING) && ValidKeys(ENDING);
  }

  // ---------------------------------------------------------------- collecting

  /** Read documents one after another, recording each before the next one is asked for. */
  method ReadAndRecord(w: World, probe: string, cycle: nat, keys: seq<Key>, log: Log)
    returns (ds: seq<Document>, log': Log)
    requires ValidKeys(keys)
    ensures ds == Documents(Fetcher(w, probe, cycle), keys)
    ensures log' == log + Trail(NameOf, Fetcher(w, probe, cycle), probe, cycle, keys)
  {
    ds, log' := [], log;
    ghost var f := Fetcher(w, probe, cycle);
    for i := 0 to |keys|
      invariant ds == Documents(f, keys[..i])
      invariant log' == log + Trail(NameOf, f, probe, cycle, keys[..i])
    {
      var d := Fetch(w, probe, cycle, keys[i]);
      var name := ObservedName(d.requestId);
      NameRead(w, probe, cycle, keys[i]);
      ReadOneMore(f, probe, cycle, keys, i, log);
      ds := ds + [d];
      log' := log' + [Observation(probe, cycle, name, d)];
    }
    assert keys[..|keys|] == keys;
  }

  lemma NameRead(w: World, probe: string, cycle: nat, k: Key)
    requires ValidKey(k)
    ensures ObservedName(Fetch(w, probe, cycle, k).requestId) == NameOf(k)
  {
    ObservedNameOf(probe, cycle, k);
  }

  lemma ReadOneMore<D>(f: Key -> D, probe: string, cycle: nat, keys: seq<Key>, i: nat, log: seq<Event<D>>)
    requires i < |keys|
    ensures Documents(f, keys[..i + 1]) == Documents(f, keys[..i]) + [f(keys[i])]
    ensures log + Trail(NameOf, f, probe, cycle, keys[..i + 1])
            == log + Trail(NameOf, f, probe, cycle, keys[..i])
              + [Observation(probe, cycle, NameOf(keys[i]), f(keys[i]))]
  {}

  /** One pass: it returns the documents and leaves exactly their observations in the log, in reading order. */
  method CollectCycle(w: World, probe: string, cycle: nat, log: Log) returns (r: Cycle, log': Log)
    requires ValidWorld(w)
    ensures r == Pass(w, probe, cycle) && log' == log + PassTrail(w, probe, cycle)
  {
    ListedPositive(w, probe, cycle);
    ghost var f := Fetcher(w, probe, cycle);
    var opening, details, ending: seq<Document>;
    opening, log' := ReadAndRecord(w, probe, cycle, OPENING, log);
    assert opening[3] == Fetch(w, probe, cycle, Fixed(3));
    var keys := DetailKeys(Sorted(w.ids(opening[3].body)));
    details, log' := ReadAndRecord(w, probe, cycle, keys, log');
    ending, log' := ReadAndRecord(w, probe, cycle, ENDING, log');
    Regroup(f, probe, cycle, keys, log);
    r := Cycle(opening + ending, details);
  }

  lemma Regroup<D>(f: Key -> D, probe: string, cycle: nat, keys: seq<Key>, log: seq<Event<D>>)
    ensures log + Trail(NameOf, f, probe, cycle, OPENING) + Trail(NameOf, f, probe, cycle, keys)
                + Trail(NameOf, f, probe, cycle, ENDING)
            == log + Trail(NameOf, f, probe, cycle, OPENING + keys + ENDING)
    ensures Documents(f, OPENING) + Documents(f, ENDING) == Documents(f, OPENING + ENDING)
  {}

  // ---------------------------------------------------------------- rebuilding the probe from the log

  /** Every name is valid and every document comes from its name's endpoint. */
  predicate Placed(docs: map<string, Document>) {
    forall name :: name in docs ==> KeyOf(name).Some? && docs[name].endpoint == EndpointOf(KeyOf(name).value)
  }

  lemma DetailsNamed(docs: map<string, Document>)
    ensures AllNames(docs, NameOf, DetailKeys(Sorted(DetailIds(docs, KeyOf))))
  {
    var ids := Sorted(DetailIds(docs, KeyOf));
    forall i | 0 <= i < |ids| ensures NameOf(Detail(ids[i])) in docs {
      assert ids[i] in DetailIds(docs, KeyOf);
      var name :| name in docs && KeyOf(name).Some? && KeyOf(name).value.Detail? && KeyOf(name).value.id == ids[i];
      NameOfKey(name);
    }
  }

  /** The fixed controls in declared order, and the rest sorted by their key. */
  function CycleFrom(docs: map<string, Document>): Option<Cycle> {
    if !AllNames(docs, NameOf, OPENING + ENDING) || !Placed(docs) then None
    else
      DetailsNamed(docs);
      Some(Cycle(Lookup(docs, NameOf, OPENING + ENDING),
                 Lookup(docs, NameOf, DetailKeys(Sorted(DetailIds(docs, KeyOf))))))
  }

  /** The two passes of a probe as the log holds them. */
  function CanonicalProbe(log: Log, probe: string): Option<(Cycle, Cycle)> {
    MatchingFacts(log, probe);
    var events := Matching(log, probe);
    if !Unrepeated(events) then None
    else
      match CycleFrom(ByName(events, 1))
      case None => None
      case Some(first) =>
        match CycleFrom(ByName(events, 2))
        case None => None
        case Some(second) => Some((first, second))
  }

  /** The reconstruction as written: one scan fills a dictionary, whose size betrays repetition. */
  method RebuildProbe(log: Log, probe: string) returns (r: Option<(Cycle, Cycle)>)
    ensures r == CanonicalProbe(log, probe)
  {
    var events, index := Scan(log, probe);
    CountTells(events);
    if |events| != |index| {
      return None;
    }
    OfPassByName(events, 1);
    OfPassByName(events, 2);
    var first := CycleFrom(OfPass(index, 1));
    if first.None? {
      return None;
    }
    var second := CycleFrom(OfPass(index, 2));
    if second.None? {
      return None;
    }
    return Some((first.value, second.value));
  }

  // ---------------------------------------------------------------- the rebuilt probe is the one collected

  lemma AllNamed(keys: seq<Key>)
    requires ValidKeys(keys)
    ensures Named(NameOf, KeyOf, keys)
  {
    forall k | k in keys ensures KeyOf(NameOf(k)) == Some(k) {
      KeyOfName(k);
    }
  }

  lemma ReadsDistinct(ids: seq<nat>)
    requires Increasing(ids)
    ensures DistinctKeys(Reads(ids))
  {
    var keys := Reads(ids);
    forall i, j | 0 <= i < j < |keys| ensures keys[i] != keys[j] {
      assert 4 <= i < 4 + |ids| ==> keys[i] == Detail(ids[i - 4]);
      assert 4 <= j < 4 + |ids| ==> keys[j] == Detail(ids[j - 4]);
      assert i >= 4 + |ids| ==> keys[i] == ENDING[i - 4 - |ids|];
      assert j >= 4 + |ids| ==> keys[j] == ENDING[j - 4 - |ids|];
    }
  }

  /** The reading order holds the controls and the listed details, and nothing else. */
  lemma ReadsMembers(ids: seq<nat>)
    ensures forall i :: 0 <= i < 8 ==> (OPENING + ENDING)[i] in Reads(ids)
    ensures forall i :: 0 <= i < |ids| ==> DetailKeys(ids)[i] in Reads(ids)
    ensures forall id :: Detail(id) in Reads(ids) <==> id in ids
  {
    var keys := Reads(ids);
    forall i | 0 <= i < 8 ensures (OPENING + ENDING)[i] in keys {
      assert i < 4 ==> keys[i] == (OPENING + ENDING)[i];
      assert i >= 4 ==> keys[|ids| + i] == (OPENING + ENDING)[i];
    }
    forall i | 0 <= i < |ids| ensures DetailKeys(ids)[i] in keys {
      assert keys[4 + i] == DetailKeys(ids)[i];
    }
    forall id ensures Detail(id) in keys <==> id in ids {
      if id in ids {
        var i :| 0 <= i < |ids| && ids[i] == id;
        assert DetailKeys(ids)[i] == Detail(id);
      }
      if Detail(id) in keys {
        assert Detail(id) in DetailKeys(ids);
      }
    }
  }

  lemma HeldPlaced(docs: map<string, Document>, w: World, probe: string, cycle: nat, keys: seq<Key>)
    requires Holds(docs, NameOf, KeyOf, Fetcher(w, probe, cycle), keys)
    ensures Placed(docs)
  {
    var f := Fetcher(w, probe, cycle);
    forall name | name in docs ensures KeyOf(name).Some? && docs[name].endpoint == EndpointOf(KeyOf(name).value) {
      var k := KeyOf(name).value;
      assert docs[name] == f(k);
      FetchConsistent(w, probe, cycle, k);
    }
  }

  lemma PassRebuilt(docs: map<string, Document>, f: Key -> Document, ids: seq<nat>)
    requires Holds(docs, NameOf, KeyOf, f, Reads(ids)) && Increasing(ids) && Named(NameOf, KeyOf, Reads(ids))
    requires Placed(docs)
    ensures CycleFrom(docs) == Some(Cycle(Documents(f, OPENING + ENDING), Documents(f, DetailKeys(ids))))
  {
    ReadsMembers(ids);
    HeldDetails(docs, NameOf, KeyOf, f, Reads(ids), ids);
    LookupHeld(docs, NameOf, KeyOf, f, Reads(ids), OPENING + ENDING);
    LookupHeld(docs, NameOf, KeyOf, f, Reads(ids), DetailKeys(ids));
  }

  /**
    Rebuilding gives back exactly the probe that was collected, whatever else the log holds: any
    log whose observations under this probe id are the two passes, in the order they were recorded.
   */
  lemma ProbeRebuilt(w: World, probe: string, log: Log)
    requires ValidWorld(w) && Matching(log, probe) == PassTrail(w, probe, 1) + PassTrail(w, probe, 2)
    ensures CanonicalProbe(log, probe) == Some((Pass(w, probe, 1), Pass(w, probe, 2)))
  {
    var ids1, ids2 := Listed(w, probe, 1), Listed(w, probe, 2);
    var f1, f2 := Fetcher(w, probe, 1), Fetcher(w, probe, 2);
    ListedPositive(w, probe, 1);
    ListedPositive(w, probe, 2);
    AllNamed(Reads(ids1));
    AllNamed(Reads(ids2));
    ReadsDistinct(ids1);
    ReadsDistinct(ids2);
    TwoPasses(NameOf, KeyOf, f1, f2, probe, Reads(ids1), Reads(ids2));
    var events := Matching(log, probe);
    HeldPlaced(ByName(events, 1), w, probe, 1, Reads(ids1));
    HeldPlaced(ByName(events, 2), w, probe, 2, Reads(ids2));
    PassRebuilt(ByName(events, 1), f1, ids1);
    PassRebuilt(ByName(events, 2), f2, ids2);
  }
}
