/** Canonical names, endpoints, request ids and sort keys of Board-profile evidence documents. */
module ProfileDocuments {
  import opened Prelude
  import opened Text

  /** What a document is about: one of the fixed controls, or the detail of a positive Challenge id. */
  datatype Key = Fixed(index: nat) | Detail(id: nat)

  const FIXED_NAMES: seq<string> :=
    ["identity", "landing", "read_contract", "challenges", "ledger", "mana", "configs", "anonymous_challenges"]

  /** How the fixed controls appear at the end of a request id. */
  const FIXED_TAILS: seq<string> :=
    ["identity", "landing", "read-contract", "challenges", "ledger", "mana", "configs", "anonymous-challenges"]

  const FIXED_ENDPOINTS: seq<string> :=
    ["/api/v1/users/me", "/", "/api/v1/challenges/0", "/api/v1/challenges", "/plugins/ctfd-chall-manager/instances",
     "/api/v1/plugins/ctfd-chall-manager/mana", "/api/v1/configs", "/api/v1/challenges"]

  const NAME_PREFIX: string := "challenge_detail_"
  const TAIL_PREFIX: string := "challenge-detail-"
  const ENDPOINT_PREFIX: string := "/api/v1/challenges/"

  predicate ValidKey(k: Key) {
    if k.Fixed? then k.index < 8 else k.id > 0
  }

  /** The name, endpoint and request tail of a document; only valid keys have one. */
  function NameOf(k: Key): string {
    if k.Detail? then NAME_PREFIX + Decimal(k.id) else if k.index < 8 then FIXED_NAMES[k.index] else ""
  }

  function EndpointOf(k: Key): string {
    if k.Detail? then ENDPOINT_PREFIX + Decimal(k.id) else if k.index < 8 then FIXED_ENDPOINTS[k.index] else ""
  }

  function TailOf(k: Key): string {
    if k.Detail? then TAIL_PREFIX + Decimal(k.id) else if k.index < 8 then FIXED_TAILS[k.index] else ""
  }

  /** The position of a fixed name, or eight for any other. */
  function FixedIndex(name: string): (i: nat)
    ensures i <= 8 && (i < 8 ==> FIXED_NAMES[i] == name) && (i == 8 ==> name !in FIXED_NAMES)
  {
    if name == FIXED_NAMES[0] then 0 else if name == FIXED_NAMES[1] then 1 else if name == FIXED_NAMES[2] then 2
    else if name == FIXED_NAMES[3] then 3 else if name == FIXED_NAMES[4] then 4 else if name == FIXED_NAMES[5] then 5
    else if name == FIXED_NAMES[6] then 6 else if name == FIXED_NAMES[7] then 7 else 8
  }

  /** What a recorded document name stands for; nothing for an invalid one. */
  function KeyOf(name: string): (r: Option<Key>)
    ensures r.Some? ==> ValidKey(r.value)
  {
    if FixedIndex(name) < 8 then Some(Fixed(FixedIndex(name)))
    else if NAME_PREFIX <= name && PositiveNumeral(name[|NAME_PREFIX|..]) then
      ParsePositive(name[|NAME_PREFIX|..]);
      Some(Detail(Parse(name[|NAME_PREFIX|..])))
    else None
  }

  /** The name of a detail document, read off its endpoint. */
  function DetailName(endpoint: string): Option<string> {
    if ENDPOINT_PREFIX <= endpoint && PositiveNumeral(endpoint[|ENDPOINT_PREFIX|..])
    then Some(NAME_PREFIX + endpoint[|ENDPOINT_PREFIX|..]) else None
  }

  /** Fixed names are different from one another. */
  lemma FixedDistinct(i: nat, j: nat)
    requires i < 8 && j < 8 && FIXED_NAMES[i] == FIXED_NAMES[j]
    ensures i == j
  {
    assert |FIXED_NAMES[0]| == 8 && |FIXED_NAMES[1]| == 7 && |FIXED_NAMES[2]| == 13 && |FIXED_NAMES[3]| == 10;
    assert |FIXED_NAMES[4]| == 6 && |FIXED_NAMES[5]| == 4 && |FIXED_NAMES[6]| == 7 && |FIXED_NAMES[7]| == 20;
    assert FIXED_NAMES[1][0] == 'l' && FIXED_NAMES[6][0] == 'c';
  }

  /** No fixed name looks like a detail name. */
  lemma FixedIsNoDetail(i: nat, rest: string)
    requires i < 8 && rest != ""
    ensures FIXED_NAMES[i] != NAME_PREFIX + rest
  {
    assert |NAME_PREFIX + rest| >= 18 && (NAME_PREFIX + rest)[0] == 'c' && FIXED_NAMES[7][0] == 'a';
  }

  lemma DetailNotFixed(rest: string)
    requires rest != ""
    ensures FixedIndex(NAME_PREFIX + rest) == 8
  {
    var i := FixedIndex(NAME_PREFIX + rest);
    if i < 8 {
      FixedIsNoDetail(i, rest);
    }
  }

  /** Reading a key's own name gives the key back. */
  lemma KeyOfName(k: Key)
    requires ValidKey(k)
    ensures KeyOf(NameOf(k)) == Some(k)
  {
    var name := NameOf(k);
    if k.Fixed? {
      FixedDistinct(FixedIndex(name), k.index);
    } else {
      var d := Decimal(k.id);
      DetailNotFixed(d);
      assert name[|NAME_PREFIX|..] == d;
      ParseOfDecimal(k.id);
    }
  }

  /** Every valid name is the name of its key: names and keys correspond one to one. */
  lemma NameOfKey(name: string)
    requires KeyOf(name).Some?
    ensures NameOf(KeyOf(name).value) == name
  {
    if FixedIndex(name) == 8 {
      DecimalOfParse(name[|NAME_PREFIX|..]);
      assert name == NAME_PREFIX + name[|NAME_PREFIX|..];
    }
  }

  /** Detail names and detail endpoints determine each other. */
  lemma DetailBijection(endpoint: string, name: string)
    ensures DetailName(endpoint) == Some(name) <==>
            KeyOf(name).Some? && KeyOf(name).value.Detail? && EndpointOf(KeyOf(name).value) == endpoint
  {
    if DetailName(endpoint) == Some(name) {
      var d := endpoint[|ENDPOINT_PREFIX|..];
      DetailNotFixed(d);
      assert name[|NAME_PREFIX|..] == d;
      DecimalOfParse(d);
      assert endpoint == ENDPOINT_PREFIX + d;
    }
    if KeyOf(name).Some? && KeyOf(name).value.Detail? && EndpointOf(KeyOf(name).value) == endpoint {
      NameOfKey(name);
      assert endpoint[|ENDPOINT_PREFIX|..] == Decimal(KeyOf(name).value.id);
    }
  }

  // ---------------------------------------------------------------- names recovered from request ids

  /** What follows the last colon; everything when there is none. */
  function LastSegment(s: string): string {
    if s == "" || s[|s| - 1] == ':' then "" else LastSegment(s[..|s| - 1]) + [s[|s| - 1]]
  }

  function Underscored(s: string): (r: string)
    ensures |r| == |s| && forall i :: 0 <= i < |s| ==> r[i] == if s[i] == '-' then '_' else s[i]
  {
    seq(|s|, i requires 0 <= i < |s| => if s[i] == '-' then '_' else s[i])
  }

  function RequestId(probe: string, cycle: nat, k: Key): string {
    probe + ":" + Decimal(cycle) + ":" + TailOf(k)
  }

  function ObservedName(requestId: string): string {
    Underscored(LastSegment(requestId))
  }

  lemma {:induction false} LastAfterColon(prefix: string, tail: string)
    requires ':' !in tail
    ensures LastSegment(prefix + ":" + tail) == tail
  {
    var s := prefix + ":" + tail;
    if tail == "" {
      assert s == prefix + ":";
    } else {
      var front := tail[..|tail| - 1];
      assert s[..|s| - 1] == prefix + ":" + front;
      assert tail == front + [tail[|tail| - 1]] && tail[|tail| - 1] in tail;
      LastAfterColon(prefix, front);
    }
  }

  lemma UnderscoredDigits(s: string)
    requires AllDigits(s)
    ensures Underscored(s) == s && ':' !in s
  {}

  lemma UnderscoredConcat(a: string, b: string)
    ensures Underscored(a + b) == Underscored(a) + Underscored(b)
  {}

  lemma FixedTail(i: nat)
    requires i < 8
    ensures ':' !in FIXED_TAILS[i] && Underscored(FIXED_TAILS[i]) == FIXED_NAMES[i]
  {
    var t, u := FIXED_TAILS[i], Underscored(FIXED_TAILS[i]);
    assert |u| == |FIXED_NAMES[i]|;
    assert forall k :: 0 <= k < |t| ==> t[k] != ':';
    assert u == FIXED_NAMES[i];
  }

  /** The name under which a document is recorded is its key's name. */
  lemma ObservedNameOf(probe: string, cycle: nat, k: Key)
    requires ValidKey(k)
    ensures ObservedName(RequestId(probe, cycle, k)) == NameOf(k)
  {
    var tail := TailOf(k);
    if k.Fixed? {
      FixedTail(k.index);
    } else {
      var d := Decimal(k.id);
      UnderscoredDigits(d);
      UnderscoredConcat(TAIL_PREFIX, d);
      assert Underscored(TAIL_PREFIX) == NAME_PREFIX;
      assert forall c :: c in tail ==> c in TAIL_PREFIX || c in d;
      assert forall i :: 0 <= i < |TAIL_PREFIX| ==> TAIL_PREFIX[i] != ':';
    }
    var prefix := probe + ":" + Decimal(cycle);
    assert RequestId(probe, cycle, k) == prefix + ":" + tail;
    LastAfterColon(prefix, tail);
  }
}
