/**
  Corroborating the Challenge listing by its detail documents, into one row list sorted by id.

  A detail document is modelled by the id its endpoint names and what its body holds, field by field;
  a document that is no genuine JSON contract holds nothing.
 */
module ChallengeDetails {
  import opened Prelude
  import opened Ordering

  /** One row of the listing.  A listing that was accepted has distinct positive ids. */
  datatype Entry = Entry(id: nat, name: string, kind: string, category: Option<string>)

  /** A field of a detail body: absent, a string, or something else. */
  datatype Text = Absent | Str(value: string) | Other

  datatype Body = NotContract | Body(id: Option<int>, name: Text, kind: Text, category: Text)

  datatype Detail = Detail(asked: nat, body: Body)

  datatype Row = Row(id: nat, name: string, kind: string, category: string)

  predicate DistinctIds(listing: seq<Entry>) {
    forall i, j :: 0 <= i < j < |listing| ==> listing[i].id != listing[j].id
  }

  /** The document answers for the id it was asked for, and its fields have the right types. */
  predicate Sound(d: Detail) {
    d.body.Body? && d.body.id == Some(d.asked) && d.body.name.Str? && d.body.kind.Str? && !d.body.category.Other?
  }

  /** Collect the details by id; nothing when one is unsound or repeated. */
  function Collect(details: seq<Detail>): Option<map<nat, Detail>> {
    if details == [] then Some(map[])
    else
      var d := details[|details| - 1];
      match Collect(details[..|details| - 1])
      case None => None
      case Some(m) => if !Sound(d) || d.asked in m then None else Some(m[d.asked := d])
  }

  predicate Agrees(e: Entry, d: Detail)
    requires Sound(d)
  {
    && d.body.name.value == e.name && d.body.kind.value == e.kind
    && (e.category.Some? ==> d.body.category == Str(e.category.value))
  }

  function RowOf(d: Detail): Row
    requires Sound(d)
  {
    Row(d.asked, d.body.name.value, d.body.kind.value, if d.body.category.Str? then d.body.category.value else "")
  }

  predicate AllSound(m: map<nat, Detail>) {
    forall id :: id in m ==> Sound(m[id]) && m[id].asked == id
  }

  lemma {:induction false} CollectSound(details: seq<Detail>)
    ensures Collect(details).Some? ==> AllSound(Collect(details).value)
  {
    if details != [] {
      CollectSound(details[..|details| - 1]);
    }
  }

  /** One row per listed entry; nothing when an entry and its detail disagree. */
  function Rows(listing: seq<Entry>, m: map<nat, Detail>): Option<seq<Row>>
    requires AllSound(m) && forall i :: 0 <= i < |listing| ==> listing[i].id in m
  {
    if listing == [] then Some([])
    else
      var e := listing[|listing| - 1];
      match Rows(listing[..|listing| - 1], m)
      case None => None
      case Some(rows) => if Agrees(e, m[e.id]) then Some(rows + [RowOf(m[e.id])]) else None
  }

  function Ids(listing: seq<Entry>): set<nat> {
    set i | 0 <= i < |listing| :: listing[i].id
  }

  function RowId(r: Row): nat {
    r.id
  }

  function Corroborate(details: seq<Detail>, listing: seq<Entry>): Option<seq<Row>> {
    CollectSound(details);
    match Collect(details)
    case None => None
    case Some(m) =>
      if m.Keys != Ids(listing) then None
      else
        assert forall i :: 0 <= i < |listing| ==> listing[i].id in Ids(listing);
        match Rows(listing, m)
        case None => None
        case Some(rows) => Some(SortBy(RowId, rows))
  }

  /** The two loops as written. */
  method CorroborateDetails(details: seq<Detail>, listing: seq<Entry>) returns (r: Option<seq<Row>>)
    requires DistinctIds(listing)
    ensures r == Corroborate(details, listing)
  {
    var m: map<nat, Detail> := map[];
    for i := 0 to |details|
      invariant Collect(details[..i]) == Some(m)
    {
      var d := details[i];
      assert details[..i + 1][..i] == details[..i];
      if !Sound(d) || d.asked in m {
        CollectFails(details, i + 1);
        return None;
      }
      m := m[d.asked := d];
    }
    assert details[..|details|] == details;
    CollectSound(details);
    if m.Keys != Ids(listing) {
      return None;
    }
    assert forall i :: 0 <= i < |listing| ==> listing[i].id in Ids(listing);
    var rows: seq<Row> := [];
    for i := 0 to |listing|
      invariant Rows(listing[..i], m) == Some(rows)
    {
      var e := listing[i];
      assert listing[..i + 1][..i] == listing[..i];
      if !Agrees(e, m[e.id]) {
        RowsFail(listing, m, i + 1);
        return None;
      }
      rows := rows + [RowOf(m[e.id])];
    }
    assert listing[..|listing|] == listing;
    return Some(SortBy(RowId, rows));
  }

  lemma {:induction false} CollectFails(details: seq<Detail>, k: nat)
    requires k <= |details| && Collect(details[..k]).None?
    ensures Collect(details).None?
  {
    if k < |details| {
      assert details[..|details| - 1][..k] == details[..k];
      CollectFails(details[..|details| - 1], k);
    } else {
      assert details[..k] == details;
    }
  }

  lemma {:induction false} RowsFail(listing: seq<Entry>, m: map<nat, Detail>, k: nat)
    requires AllSound(m) && forall i :: 0 <= i < |listing| ==> listing[i].id in m
    requires k <= |listing| && Rows(listing[..k], m).None?
    ensures Rows(listing, m).None?
  {
    if k < |listing| {
      assert listing[..|listing| - 1][..k] == listing[..k];
      RowsFail(listing[..|listing| - 1], m, k);
    } else {
      assert listing[..k] == listing;
    }
  }

  // ---------------------------------------------------------------- what is collected, without the order

  predicate DistinctAsked(details: seq<Detail>) {
    forall i, j :: 0 <= i < j < |details| ==> details[i].asked != details[j].asked
  }

  /** Collection succeeds exactly on sound documents asked for once each, and maps each id to its document. */
  lemma {:induction false} CollectExact(details: seq<Detail>)
    ensures Collect(details).Some? <==> DistinctAsked(details) && forall i :: 0 <= i < |details| ==> Sound(details[i])
    ensures Collect(details).Some? ==> forall id, d :: id in Collect(details).value && Collect(details).value[id] == d
                                                       <==> d in details && d.asked == id
  {
    if details != [] {
      var front, d := details[..|details| - 1], details[|details| - 1];
      CollectExact(front);
      assert details == front + [d];
      if Collect(front).Some? {
        var m := Collect(front).value;
        assert d.asked in m <==> exists i :: 0 <= i < |front| && front[i].asked == d.asked by {
          if d.asked in m {
            assert m[d.asked] in front;
          }
          if i :| 0 <= i < |front| && front[i].asked == d.asked {
            assert front[i] in front;
          }
        }
      }
    }
  }

  /** Every listed entry agrees with its detail. */
  ghost predicate AllAgree(listing: seq<Entry>, m: map<nat, Detail>)
    requires AllSound(m) && forall i :: 0 <= i < |listing| ==> listing[i].id in m
  {
    forall i :: 0 <= i < |listing| ==> Agrees(listing[i], m[listing[i].id])
  }

  lemma {:induction false} RowsExact(listing: seq<Entry>, m: map<nat, Detail>)
    requires AllSound(m) && forall i :: 0 <= i < |listing| ==> listing[i].id in m
    ensures Rows(listing, m).Some? <==> AllAgree(listing, m)
    ensures Rows(listing, m).Some? ==>
              |Rows(listing, m).value| == |listing|
              && forall i :: 0 <= i < |listing| ==> Rows(listing, m).value[i] == RowOf(m[listing[i].id])
  {
    if listing != [] {
      var front := listing[..|listing| - 1];
      RowsExact(front, m);
      assert forall i :: 0 <= i < |front| ==> front[i] == listing[i];
    }
  }

  // ---------------------------------------------------------------- the result, without the order

  function Asked(d: Detail): nat {
    d.asked
  }

  function EntryId(e: Entry): nat {
    e.id
  }

  /** Something was asked about `id`. */
  predicate AskedFor(details: seq<Detail>, id: nat) {
    exists i :: 0 <= i < |details| && details[i].asked == id
  }

  predicate IsListed(listing: seq<Entry>, id: nat) {
    exists i :: 0 <= i < |listing| && listing[i].id == id
  }

  /** Sound details, one per id, for exactly the listed ids, and all agreeing. */
  ghost predicate Aligned(details: seq<Detail>, listing: seq<Entry>) {
    && (forall d :: d in details ==> Sound(d))
    && DistinctBy(Asked, details)
    && (forall id :: AskedFor(details, id) <==> IsListed(listing, id))
    && (forall d, e :: d in details && e in listing && d.asked == e.id && Sound(d) ==> Agrees(e, d))
  }

  lemma KeysAsked(details: seq<Detail>, id: nat)
    requires Collect(details).Some?
    ensures id in Collect(details).value <==> AskedFor(details, id)
  {
    CollectExact(details);
    var m := Collect(details).value;
    if id in m {
      assert m[id] in details && m[id].asked == id;
    }
    if AskedFor(details, id) {
      var i :| 0 <= i < |details| && details[i].asked == id;
      assert details[i] in details;
    }
  }

  lemma KeysListed(listing: seq<Entry>, id: nat)
    ensures id in Ids(listing) <==> IsListed(listing, id)
  {}

  lemma SameIds(details: seq<Detail>, listing: seq<Entry>)
    requires Collect(details).Some?
    ensures Collect(details).value.Keys == Ids(listing) <==>
              forall id :: AskedFor(details, id) <==> IsListed(listing, id)
  {
    var m := Collect(details).value;
    forall id ensures (id in m <==> AskedFor(details, id)) && (id in Ids(listing) <==> IsListed(listing, id)) {
      KeysAsked(details, id);
      KeysListed(listing, id);
    }
    if forall id :: AskedFor(details, id) <==> IsListed(listing, id) {
      assert forall id :: id in m.Keys <==> id in Ids(listing);
    }
  }

  lemma AllAgreeExact(details: seq<Detail>, listing: seq<Entry>)
    requires Collect(details).Some? && AllSound(Collect(details).value) && Collect(details).value.Keys == Ids(listing)
    requires forall i :: 0 <= i < |listing| ==> listing[i].id in Collect(details).value
    ensures AllAgree(listing, Collect(details).value) <==>
            forall d, e :: d in details && e in listing && d.asked == e.id && Sound(d) ==> Agrees(e, d)
  {
    CollectExact(details);
    var m := Collect(details).value;
    if AllAgree(listing, m) {
      forall d, e | d in details && e in listing && d.asked == e.id && Sound(d) ensures Agrees(e, d) {
        var i :| 0 <= i < |listing| && listing[i] == e;
        assert m[listing[i].id] == d;
      }
    }
    if forall d, e :: d in details && e in listing && d.asked == e.id && Sound(d) ==> Agrees(e, d) {
      forall i | 0 <= i < |listing| ensures Agrees(listing[i], m[listing[i].id]) {
        assert m[listing[i].id] in details && listing[i] in listing;
      }
    }
  }

  /** The rows found are the rows of the details, one each. */
  lemma RowsMembers(details: seq<Detail>, listing: seq<Entry>, rows: seq<Row>)
    requires DistinctIds(listing) && Collect(details).Some? && AllSound(Collect(details).value)
    requires Collect(details).value.Keys == Ids(listing)
    requires |rows| == |listing|
    requires forall i :: 0 <= i < |listing| ==>
               listing[i].id in Collect(details).value && rows[i] == RowOf(Collect(details).value[listing[i].id])
    ensures DistinctBy(RowId, rows)
    ensures forall r :: r in rows <==> exists d :: d in details && Sound(d) && r == RowOf(d)
  {
    CollectExact(details);
    var m := Collect(details).value;
    forall r ensures r in rows <==> exists d :: d in details && Sound(d) && r == RowOf(d) {
      if r in rows {
        var i :| 0 <= i < |rows| && rows[i] == r;
        assert m[listing[i].id] in details;
      }
      if d :| d in details && Sound(d) && r == RowOf(d) {
        assert d.asked in m.Keys;
        var i :| 0 <= i < |listing| && listing[i].id == d.asked;
        assert rows[i] == r;
      }
    }
  }

  lemma CorroborateAligned(details: seq<Detail>, listing: seq<Entry>)
    requires DistinctIds(listing)
    ensures Corroborate(details, listing).Some? <==> Aligned(details, listing)
    ensures Corroborate(details, listing).Some? ==>
              var rows := Corroborate(details, listing).value;
              && StrictlyBy(RowId, rows)
              && (forall r :: r in rows <==> exists d :: d in details && Sound(d) && r == RowOf(d))
  {
    CollectSound(details);
    CollectExact(details);
    if Collect(details).Some? {
      var m := Collect(details).value;
      SameIds(details, listing);
      if m.Keys == Ids(listing) {
        assert forall i :: 0 <= i < |listing| ==> listing[i].id in Ids(listing);
        RowsExact(listing, m);
        AllAgreeExact(details, listing);
        if Rows(listing, m).Some? {
          var rows := Rows(listing, m).value;
          RowsMembers(details, listing, rows);
          SortByStrict(RowId, rows);
        }
      }
    }
  }

  // ---------------------------------------------------------------- field by field

  /** The document answers for the id asked, with the entry's own name, type and, if it states one, category. */
  predicate Confirms(d: Detail, e: Entry) {
    && d.asked == e.id && d.body.Body? && d.body.id == Some(e.id)
    && d.body.name == Str(e.name) && d.body.kind == Str(e.kind)
    && (if e.category.Some? then d.body.category == Str(e.category.value) else d.body.category != Other)
  }

  /** The row holds what the document says; a category not stated is empty. */
  predicate Tells(d: Detail, r: Row) {
    && d.asked == r.id && d.body.Body? && d.body.id == Some(r.id)
    && d.body.name == Str(r.name) && d.body.kind == Str(r.kind)
    && (d.body.category == Str(r.category) || (d.body.category == Absent && r.category == ""))
  }

  ghost predicate SomeConfirms(details: seq<Detail>, e: Entry) {
    exists d :: d in details && Confirms(d, e)
  }

  ghost predicate ConfirmsSome(d: Detail, listing: seq<Entry>) {
    exists e :: e in listing && Confirms(d, e)
  }

  ghost predicate SomeTells(details: seq<Detail>, r: Row) {
    exists d :: d in details && Tells(d, r)
  }

  /** No id was asked for twice, each detail confirms an entry, and each entry is confirmed. */
  ghost predicate Corroborates(details: seq<Detail>, listing: seq<Entry>) {
    && (forall i, j :: 0 <= i < j < |details| ==> details[i].asked != details[j].asked)
    && (forall d :: d in details ==> ConfirmsSome(d, listing))
    && (forall e :: e in listing ==> SomeConfirms(details, e))
  }

  lemma ConfirmsExact(d: Detail, e: Entry)
    ensures Confirms(d, e) <==> d.asked == e.id && Sound(d) && Agrees(e, d)
  {}

  lemma EntryOf(details: seq<Detail>, listing: seq<Entry>, d: Detail) returns (e: Entry)
    requires Corroborates(details, listing) && d in details
    ensures e in listing && Confirms(d, e)
  {
    assert ConfirmsSome(d, listing);
    e :| e in listing && Confirms(d, e);
  }

  lemma DetailOf(details: seq<Detail>, listing: seq<Entry>, e: Entry) returns (d: Detail)
    requires Corroborates(details, listing) && e in listing
    ensures d in details && Confirms(d, e)
  {
    assert SomeConfirms(details, e);
    d :| d in details && Confirms(d, e);
  }

  lemma AskedListed(details: seq<Detail>, listing: seq<Entry>, id: nat)
    requires Corroborates(details, listing)
    ensures AskedFor(details, id) <==> IsListed(listing, id)
  {
    AskedMember(details, id);
    ListedMember(listing, id);
    if AskedFor(details, id) {
      var d :| d in details && d.asked == id;
      var e := EntryOf(details, listing, d);
    }
    if IsListed(listing, id) {
      var e :| e in listing && e.id == id;
      var d := DetailOf(details, listing, e);
    }
  }

  lemma SameEntry(listing: seq<Entry>, a: Entry, b: Entry)
    requires DistinctIds(listing) && a in listing && b in listing && a.id == b.id
    ensures a == b
  {
    var i :| 0 <= i < |listing| && listing[i] == a;
    var j :| 0 <= j < |listing| && listing[j] == b;
    assert i == j;
  }

  lemma AlignedListed(details: seq<Detail>, listing: seq<Entry>)
    requires DistinctIds(listing) && Corroborates(details, listing)
    ensures Aligned(details, listing)
  {
    forall d | d in details ensures Sound(d) {
      var e := EntryOf(details, listing, d);
    }
    forall id ensures AskedFor(details, id) <==> IsListed(listing, id) {
      AskedListed(details, listing, id);
    }
    forall d, e | d in details && e in listing && d.asked == e.id && Sound(d) ensures Agrees(e, d) {
      var other := EntryOf(details, listing, d);
      SameEntry(listing, e, other);
    }
  }

  lemma ListedAligned(details: seq<Detail>, listing: seq<Entry>)
    requires Aligned(details, listing)
    ensures Corroborates(details, listing)
  {
    forall i, j | 0 <= i < j < |details| ensures details[i].asked != details[j].asked {
      assert Asked(details[i]) != Asked(details[j]);
    }
    forall d | d in details ensures ConfirmsSome(d, listing) {
      AskedMember(details, d.asked);
      ListedMember(listing, d.asked);
      var e :| e in listing && e.id == d.asked;
      ConfirmsExact(d, e);
    }
    forall e | e in listing ensures SomeConfirms(details, e) {
      ListedMember(listing, e.id);
      AskedMember(details, e.id);
      var d :| d in details && d.asked == e.id;
      ConfirmsExact(d, e);
    }
  }

  /**
    Corroboration succeeds exactly when the details corroborate the listing, in whatever order either
    comes; the rows then hold what the details say, strictly sorted by id.
   */
  lemma CorroborateExact(details: seq<Detail>, listing: seq<Entry>)
    requires DistinctIds(listing)
    ensures Corroborate(details, listing).Some? <==> Corroborates(details, listing)
    ensures Corroborate(details, listing).Some? ==>
              var rows := Corroborate(details, listing).value;
              && (forall i, j :: 0 <= i < j < |rows| ==> rows[i].id < rows[j].id)
              && (forall r :: r in rows <==> SomeTells(details, r))
  {
    CorroborateAligned(details, listing);
    if Corroborates(details, listing) {
      AlignedListed(details, listing);
    }
    if Aligned(details, listing) {
      ListedAligned(details, listing);
      RowsTell(details, Corroborate(details, listing).value);
    }
  }

  lemma TellsExact(d: Detail, r: Row)
    ensures Tells(d, r) <==> Sound(d) && r == RowOf(d)
  {}

  lemma RowsTell(details: seq<Detail>, rows: seq<Row>)
    requires StrictlyBy(RowId, rows)
    requires forall r :: r in rows <==> exists d :: d in details && Sound(d) && r == RowOf(d)
    ensures forall i, j :: 0 <= i < j < |rows| ==> rows[i].id < rows[j].id
    ensures forall r :: r in rows <==> SomeTells(details, r)
  {
    forall i, j | 0 <= i < j < |rows| ensures rows[i].id < rows[j].id {
      assert RowId(rows[i]) < RowId(rows[j]);
    }
    forall r ensures r in rows <==> SomeTells(details, r) {
      forall d ensures Tells(d, r) <==> Sound(d) && r == RowOf(d) {
        TellsExact(d, r);
      }
    }
  }

  lemma CorroboratesPermuted(details: seq<Detail>, details': seq<Detail>, listing: seq<Entry>, listing': seq<Entry>)
    requires multiset(details) == multiset(details') && multiset(listing) == multiset(listing')
    requires Corroborates(details, listing)
    ensures Corroborates(details', listing')
  {
    AskedPermuted(details, details');
    forall d | d in details' ensures ConfirmsSome(d, listing') {
      SameMembers(details', details, d);
      var e := EntryOf(details, listing, d);
      SameMembers(listing, listing', e);
    }
    forall e | e in listing' ensures SomeConfirms(details', e) {
      SameMembers(listing', listing, e);
      var d := DetailOf(details, listing, e);
      SameMembers(details, details', d);
    }
  }

  lemma AskedPermuted(details: seq<Detail>, details': seq<Detail>)
    requires multiset(details) == multiset(details')
    requires forall i, j :: 0 <= i < j < |details| ==> details[i].asked != details[j].asked
    ensures forall i, j :: 0 <= i < j < |details'| ==> details'[i].asked != details'[j].asked
  {
    assert DistinctBy(Asked, details);
    DistinctPermuted(Asked, details, details');
    forall i, j | 0 <= i < j < |details'| ensures details'[i].asked != details'[j].asked {
      assert Asked(details'[i]) != Asked(details'[j]);
    }
  }

  lemma AskedMember(details: seq<Detail>, id: nat)
    ensures AskedFor(details, id) <==> exists d :: d in details && d.asked == id
  {
    if AskedFor(details, id) {
      var i :| 0 <= i < |details| && details[i].asked == id;
      assert details[i] in details;
    }
  }

  lemma ListedMember(listing: seq<Entry>, id: nat)
    ensures IsListed(listing, id) <==> exists e :: e in listing && e.id == id
  {
    if IsListed(listing, id) {
      var i :| 0 <= i < |listing| && listing[i].id == id;
      assert listing[i] in listing;
    }
  }

  /** Permuting the listing or the details changes nothing, success or refusal. */
  lemma CorroboratePermuted(details: seq<Detail>, details': seq<Detail>, listing: seq<Entry>, listing': seq<Entry>)
    requires DistinctIds(listing) && multiset(details) == multiset(details') && multiset(listing) == multiset(listing')
    ensures Corroborate(details, listing) == Corroborate(details', listing')
  {
    DistinctPermuted(EntryId, listing, listing');
    assert DistinctIds(listing');
    CorroborateExact(details, listing);
    CorroborateExact(details', listing');
    if Corroborates(details, listing) {
      CorroboratesPermuted(details, details', listing, listing');
    }
    if Corroborates(details', listing') {
      CorroboratesPermuted(details', details, listing', listing);
    }
    if Corroborate(details, listing).Some? {
      var a, b := Corroborate(details, listing).value, Corroborate(details', listing').value;
      forall r ensures r in a <==> r in b {
        forall d ensures d in details <==> d in details' {
          if d in details { SameMembers(details, details', d); }
          if d in details' { SameMembers(details', details, d); }
        }
      }
      StrictUnique(RowId, a, b);
    }
  }
}
