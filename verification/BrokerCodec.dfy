/**
  Broker results on the wire: the binary payload split off, the rest encoded as a document, and both
  put together again on the other side.

  Object keys are modelled by the names they spell, JSON text by the value it denotes, and base64
  and ISO timestamps by any pair of functions of which the second undoes the first.
 */
module BrokerCodec {
  import opened Prelude

  type Bytes = seq<nat>

  datatype Key =
    | OperationKey | OutcomeKey | ValueKey | ProvenanceKey | RequestIdKey
    | Endpoint | HttpStatus | ResponseDigest | OriginalBytes | Truncated | LostBytes | RawBlobDigest | RawBlobBytes
    | RawBlobClass | ClassifiedEventId | BindingDigest | PeerIdentityDigest | RequestDigest | ProfileDigest
    | ContentType | Location | SanitizedBlobDigest
    | Body | ReachesCtfd | Entries | Fields | Standings | Content | Hops | RowKey | Message | ConnectionInfo | Until
    | Detail | Used | Total | Held | StatusKey | Rows | Page | TotalPages | TotalRows | Complete | Rank | Name | Score
    | ChallengeName | RowId | ChallengeId | UserId | TeamId | SourcePage

  datatype Json =
    | Null
    | Bool(flag: bool)
    | Num(number: int)
    | Str(text: string)
    | Arr(items: seq<Json>)
    | Obj(fields: map<Key, Json>)
    | Free(names: map<string, Json>)

  datatype Operation =
    | IntakeRead | ReadContract | Challenges | Challenge | Scoreboard | Download | Submit | SubmissionLedger
    | InstanceDeploy | InstanceRead | InstanceRenew | InstanceTerminate | InstanceMana | InstancesHeld
    | InstanceLedgerPage

  datatype Outcome =
    | Answered | Timeout | Unreachable | Malformed | AuthFailure | TooLarge | Revoked | CapabilityRefused
    | ReservationRefused | EffectIndeterminate

  datatype Standing = Standing(rank: int, name: string, score: int)

  datatype LedgerRow = LedgerRow(rowId: string, challengeId: Json, userId: Option<int>, teamId: Option<int>,
                                 sourcePage: int, responseDigest: string)

  datatype Value =
    | IntakeReadValue(body: Bytes, location: string)
    | ReadContractValue(reachesCtfd: bool)
    | ChallengesValue(entries: seq<Json>)
    | ChallengeValue(named: map<string, Json>)
    | ScoreboardValue(standings: seq<Standing>)
    | DownloadValue(content: Bytes, hops: seq<string>)
    | SubmissionLedgerValue(row: Option<map<string, Json>>)
    | VerdictValue(verdict: string, message: string, httpStatus: int)
    | ReplyValue(reply: string, connectionInfo: string, until: Option<nat>, detail: string)
    | ManaValue(mana: string, used: int, total: int, manaDetail: string)
    | HeldValue(held: seq<string>)
    | LedgerPageValue(status: int, pageBody: Bytes, rows: seq<LedgerRow>, page: int, totalPages: int, totalRows: int,
                      complete: bool, responseDigest: string)

  datatype Provenance = Provenance(
    endpoint: string, httpStatus: int, responseDigest: string, originalBytes: int, truncated: bool, lostBytes: int,
    rawBlobDigest: string, rawBlobBytes: int, rawBlobClass: string, classifiedEventId: string, bindingDigest: string,
    peerIdentityDigest: string, requestDigest: string, profileDigest: string, contentType: string, location: string,
    sanitizedBlobDigest: string, redactionPolicyDigest: string)

  datatype Result = Result(operation: Operation, outcome: Outcome, value: Option<Value>, provenance: Provenance,
                           requestId: string)

  /** Base64 and ISO timestamps. */
  datatype Primitives = Primitives(encode64: Bytes -> string, decode64: string -> Option<Bytes>, toIso: nat -> string,
                                   fromIso: string -> Option<nat>)

  ghost predicate Lawful(p: Primitives) {
    && (forall b: Bytes :: p.decode64(p.encode64(b)) == Some(b))
    && (forall t: nat :: p.fromIso(p.toIso(t)) == Some(t) && p.toIso(t) != "")
  }

  /** The value has the type its operation answers with. */
  predicate Fits(op: Operation, v: Value) {
    match op
    case IntakeRead => v.IntakeReadValue?
    case ReadContract => v.ReadContractValue?
    case Challenges => v.ChallengesValue?
    case Challenge => v.ChallengeValue?
    case Scoreboard => v.ScoreboardValue?
    case Download => v.DownloadValue?
    case Submit => v.VerdictValue?
    case SubmissionLedger => v.SubmissionLedgerValue?
    case InstanceDeploy => v.ReplyValue?
    case InstanceRead => v.ReplyValue?
    case InstanceRenew => v.ReplyValue?
    case InstanceTerminate => v.ReplyValue?
    case InstanceMana => v.ManaValue?
    case InstancesHeld => v.HeldValue?
    case InstanceLedgerPage => v.LedgerPageValue?
  }

  // ---------------------------------------------------------------- reading fields

  function Get(o: Json, k: Key): Json {
    if o.Obj? && k in o.fields then o.fields[k] else Null
  }

  function Text(o: Json, k: Key): string {
    if Get(o, k).Str? then Get(o, k).text else ""
  }

  function Int(o: Json, k: Key): int {
    if Get(o, k).Num? then Get(o, k).number else 0
  }

  function Flag(o: Json, k: Key): bool {
    Get(o, k).Bool? && Get(o, k).flag
  }

  function Items(o: Json, k: Key): seq<Json> {
    if Get(o, k).Arr? then Get(o, k).items else []
  }

  function Nullable(n: Option<int>): Json {
    match n case None => Null case Some(i) => Num(i)
  }

  function FromNullable(j: Json): Option<int> {
    if j.Num? then Some(j.number) else None
  }

  // ---------------------------------------------------------------- rows

  function EncodeStanding(r: Standing): Json {
    Obj(map[Rank := Num(r.rank), Name := Str(r.name), Score := Num(r.score)])
  }

  function DecodeStanding(j: Json): Standing {
    Standing(Int(j, Rank), Text(j, Name), Int(j, Score))
  }

  function EncodeRow(r: LedgerRow): Json {
    Obj(map[RowId := Str(r.rowId), ChallengeId := r.challengeId, UserId := Nullable(r.userId),
            TeamId := Nullable(r.teamId), SourcePage := Num(r.sourcePage), ResponseDigest := Str(r.responseDigest)])
  }

  function DecodeRow(j: Json): LedgerRow {
    LedgerRow(Text(j, RowId), Get(j, ChallengeId), FromNullable(Get(j, UserId)), FromNullable(Get(j, TeamId)),
              Int(j, SourcePage), Text(j, ResponseDigest))
  }

  function EncodeHeld(name: string): Json {
    Obj(map[ChallengeName := Str(name)])
  }

  function DecodeHeld(j: Json): string {
    Text(j, ChallengeName)
  }

  function EncodeHop(hop: string): Json {
    Str(hop)
  }

  function DecodeHop(j: Json): string {
    if j.Str? then j.text else ""
  }

  function Map<A, B>(f: A -> B, s: seq<A>): (r: seq<B>)
    ensures |r| == |s| && forall i :: 0 <= i < |s| ==> r[i] == f(s[i])
  {
    seq(|s|, i requires 0 <= i < |s| => f(s[i]))
  }

  /** Decoding a list undoes encoding it when decoding an item undoes encoding it. */
  lemma MapBack<A(!new), B>(encode: A -> B, decode: B -> A, s: seq<A>)
    requires forall a: A :: decode(encode(a)) == a
    ensures Map(decode, Map(encode, s)) == s
  {}

  // ---------------------------------------------------------------- values

  function EncodeValue(p: Primitives, v: Value): Json {
    match v
    case IntakeReadValue(body, location) => Obj(map[Body := Str(p.encode64(body)), Location := Str(location)])
    case ReadContractValue(reaches) => Obj(map[ReachesCtfd := Bool(reaches)])
    case ChallengesValue(entries) => Obj(map[Entries := Arr(entries)])
    case ChallengeValue(named) => Obj(map[Fields := Free(named)])
    case ScoreboardValue(standings) => Obj(map[Standings := Arr(Map(EncodeStanding, standings))])
    case DownloadValue(content, hops) =>
      Obj(map[Content := Str(p.encode64(content)), Hops := Arr(Map(EncodeHop, hops))])
    case SubmissionLedgerValue(row) => Obj(map[RowKey := if row.Some? then Free(row.value) else Null])
    case VerdictValue(verdict, message, status) =>
      Obj(map[OutcomeKey := Str(verdict), Message := Str(message), HttpStatus := Num(status)])
    case ReplyValue(reply, info, until, detail) =>
      Obj(map[OutcomeKey := Str(reply), ConnectionInfo := Str(info),
              Until := Str(if until.Some? then p.toIso(until.value) else ""), Detail := Str(detail)])
    case ManaValue(mana, used, total, detail) =>
      Obj(map[OutcomeKey := Str(mana), Used := Num(used), Total := Num(total), Detail := Str(detail)])
    case HeldValue(held) => Obj(map[Held := Arr(Map(EncodeHeld, held))])
    case LedgerPageValue(status, _, rows, page, totalPages, totalRows, complete, digest) =>
      Obj(map[StatusKey := Num(status), Rows := Arr(Map(EncodeRow, rows)), Page := Num(page),
              TotalPages := Num(totalPages), TotalRows := Num(totalRows),
              Complete := Bool(complete), ResponseDigest := Str(digest)])
  }

  function DecodeBytes(p: Primitives, o: Json, k: Key): Bytes {
    match p.decode64(Text(o, k)) case Some(b) => b case None => []
  }

  function DecodeReply(p: Primitives, o: Json): Value {
    ReplyValue(Text(o, OutcomeKey), Text(o, ConnectionInfo),
               if Text(o, Until) != "" then p.fromIso(Text(o, Until)) else None, Text(o, Detail))
  }

  /** The keys a value's object must have. */
  function Required(op: Operation): set<Key> {
    match op
    case IntakeRead => {Body, Location}
    case ReadContract => {ReachesCtfd}
    case Challenges => {Entries}
    case Challenge => {Fields}
    case Scoreboard => {Standings}
    case Download => {Content, Hops}
    case SubmissionLedger => {}
    case Submit => {OutcomeKey}
    case InstanceDeploy => {OutcomeKey, ConnectionInfo, Detail}
    case InstanceRead => {OutcomeKey, ConnectionInfo, Detail}
    case InstanceRenew => {OutcomeKey, ConnectionInfo, Detail}
    case InstanceTerminate => {OutcomeKey, ConnectionInfo, Detail}
    case InstanceMana => {OutcomeKey}
    case InstancesHeld => {Held}
    case InstanceLedgerPage => {StatusKey, Rows, Page, TotalPages, TotalRows, Complete, ResponseDigest}
  }

  /** No value, a value of the operation's type, or nothing when the object lacks a required key. */
  function DecodeValue(p: Primitives, op: Operation, o: Json): Option<Option<Value>> {
    if o == Null then Some(None)
    else if !o.Obj? || !(Required(op) <= o.fields.Keys) then None
    else Some(Some(ReadValue(p, op, o)))
  }

  /** The operation says which type to read. */
  function ReadValue(p: Primitives, op: Operation, o: Json): Value {
    match op
    case IntakeRead => IntakeReadValue(DecodeBytes(p, o, Body), Text(o, Location))
    case ReadContract => ReadContractValue(Flag(o, ReachesCtfd))
    case Challenges => ChallengesValue(Items(o, Entries))
    case Challenge => ChallengeValue(if Get(o, Fields).Free? then Get(o, Fields).names else map[])
    case Scoreboard => ScoreboardValue(Map(DecodeStanding, Items(o, Standings)))
    case Download => DownloadValue(DecodeBytes(p, o, Content), Map(DecodeHop, Items(o, Hops)))
    case SubmissionLedger => SubmissionLedgerValue(if Get(o, RowKey).Free? then Some(Get(o, RowKey).names) else None)
    case Submit => VerdictValue(Text(o, OutcomeKey), Text(o, Message), Int(o, HttpStatus))
    case InstanceDeploy => DecodeReply(p, o)
    case InstanceRead => DecodeReply(p, o)
    case InstanceRenew => DecodeReply(p, o)
    case InstanceTerminate => DecodeReply(p, o)
    case InstanceMana => ManaValue(Text(o, OutcomeKey), Int(o, Used), Int(o, Total), Text(o, Detail))
    case InstancesHeld => HeldValue(Map(DecodeHeld, Items(o, Held)))
    case InstanceLedgerPage =>
      LedgerPageValue(Int(o, StatusKey), [], Map(DecodeRow, Items(o, Rows)), Int(o, Page), Int(o, TotalPages),
                      Int(o, TotalRows), Flag(o, Complete), Text(o, ResponseDigest))
  }

  /** What survives the wire: a ledger page loses its body. */
  function Blanked(v: Value): Value {
    if v.LedgerPageValue? then v.(pageBody := []) else v
  }

  lemma StandingBack(r: Standing)
    ensures DecodeStanding(EncodeStanding(r)) == r
  {}

  lemma RowBack(r: LedgerRow)
    ensures DecodeRow(EncodeRow(r)) == r
  {}

  lemma ListsBack(v: Value)
    ensures v.ScoreboardValue? ==> Map(DecodeStanding, Map(EncodeStanding, v.standings)) == v.standings
    ensures v.DownloadValue? ==> Map(DecodeHop, Map(EncodeHop, v.hops)) == v.hops
    ensures v.HeldValue? ==> Map(DecodeHeld, Map(EncodeHeld, v.held)) == v.held
    ensures v.LedgerPageValue? ==> Map(DecodeRow, Map(EncodeRow, v.rows)) == v.rows
  {
    forall r: Standing ensures DecodeStanding(EncodeStanding(r)) == r { StandingBack(r); }
    forall r: LedgerRow ensures DecodeRow(EncodeRow(r)) == r { RowBack(r); }
    if v.ScoreboardValue? { MapBack(EncodeStanding, DecodeStanding, v.standings); }
    if v.DownloadValue? { MapBack(EncodeHop, DecodeHop, v.hops); }
    if v.HeldValue? { MapBack(EncodeHeld, DecodeHeld, v.held); }
    if v.LedgerPageValue? { MapBack(EncodeRow, DecodeRow, v.rows); }
  }

  /** A value that fits its operation comes back, a ledger page's body apart. */
  lemma ValueBack(p: Primitives, op: Operation, v: Value)
    requires Lawful(p) && Fits(op, v)
    ensures DecodeValue(p, op, EncodeValue(p, v)) == Some(Some(Blanked(v)))
  {
    ReadBack(p, op, v);
    assert EncodeValue(p, v).Obj? && Required(op) <= EncodeValue(p, v).fields.Keys;
  }

  lemma ReadBack(p: Primitives, op: Operation, v: Value)
    requires Lawful(p) && Fits(op, v)
    ensures ReadValue(p, op, EncodeValue(p, v)) == Blanked(v)
  {
    ListsBack(v);
  }

  // ---------------------------------------------------------------- provenance and results

  function EncodeProvenance(v: Provenance): Json {
    Obj(map[Endpoint := Str(v.endpoint), HttpStatus := Num(v.httpStatus), ResponseDigest := Str(v.responseDigest),
            OriginalBytes := Num(v.originalBytes), Truncated := Bool(v.truncated), LostBytes := Num(v.lostBytes),
            RawBlobDigest := Str(v.rawBlobDigest), RawBlobBytes := Num(v.rawBlobBytes),
            RawBlobClass := Str(v.rawBlobClass), ClassifiedEventId := Str(v.classifiedEventId),
            BindingDigest := Str(v.bindingDigest),
            PeerIdentityDigest := Str(v.peerIdentityDigest), RequestDigest := Str(v.requestDigest),
            ProfileDigest := Str(v.profileDigest), ContentType := Str(v.contentType), Location := Str(v.location),
            SanitizedBlobDigest := Str(v.sanitizedBlobDigest)])
  }

  function DecodeProvenance(o: Json): Provenance {
    Provenance(Text(o, Endpoint), Int(o, HttpStatus), Text(o, ResponseDigest), Int(o, OriginalBytes),
               Flag(o, Truncated), Int(o, LostBytes), Text(o, RawBlobDigest), Int(o, RawBlobBytes),
               Text(o, RawBlobClass),
               Text(o, ClassifiedEventId), Text(o, BindingDigest), Text(o, PeerIdentityDigest), Text(o, RequestDigest),
               Text(o, ProfileDigest), Text(o, ContentType), Text(o, Location), Text(o, SanitizedBlobDigest), "")
  }

  lemma ProvenanceBack(v: Provenance)
    ensures DecodeProvenance(EncodeProvenance(v)) == v.(redactionPolicyDigest := "")
  {}

  function OperationCode(op: Operation): nat {
    match op
    case IntakeRead => 0 case ReadContract => 1 case Challenges => 2 case Challenge => 3 case Scoreboard => 4
    case Download => 5 case Submit => 6 case SubmissionLedger => 7 case InstanceDeploy => 8 case InstanceRead => 9
    case InstanceRenew => 10 case InstanceTerminate => 11 case InstanceMana => 12 case InstancesHeld => 13
    case InstanceLedgerPage => 14
  }

  function OperationOf(code: int): Option<Operation> {
    if code == 0 then Some(IntakeRead) else if code == 1 then Some(ReadContract) else if code == 2 then Some(Challenges)
    else if code == 3 then Some(Challenge) else if code == 4 then Some(Scoreboard) else if code == 5 then Some(Download)
    else if code == 6 then Some(Submit) else if code == 7 then Some(SubmissionLedger)
    else if code == 8 then Some(InstanceDeploy) else if code == 9 then Some(InstanceRead)
    else if code == 10 then Some(InstanceRenew) else if code == 11 then Some(InstanceTerminate)
    else if code == 12 then Some(InstanceMana) else if code == 13 then Some(InstancesHeld)
    else if code == 14 then Some(InstanceLedgerPage) else None
  }

  function OutcomeCode(o: Outcome): nat {
    match o
    case Answered => 0 case Timeout => 1 case Unreachable => 2 case Malformed => 3 case AuthFailure => 4
    case TooLarge => 5
    case Revoked => 6 case CapabilityRefused => 7 case ReservationRefused => 8 case EffectIndeterminate => 9
  }

  function OutcomeOf(code: int): Option<Outcome> {
    if code == 0 then Some(Answered) else if code == 1 then Some(Timeout) else if code == 2 then Some(Unreachable)
    else if code == 3 then Some(Malformed) else if code == 4 then Some(AuthFailure)
    else if code == 5 then Some(TooLarge)
    else if code == 6 then Some(Revoked) else if code == 7 then Some(CapabilityRefused)
    else if code == 8 then Some(ReservationRefused) else if code == 9 then Some(EffectIndeterminate) else None
  }

  function Wrap(operation: Operation, outcome: Outcome, value: Json, provenance: Json, requestId: string): Json {
    Obj(map[OperationKey := Num(OperationCode(operation)), OutcomeKey := Num(OutcomeCode(outcome)), ValueKey := value,
            ProvenanceKey := provenance, RequestIdKey := Str(requestId)])
  }

  function EncodeResult(p: Primitives, r: Result): Json {
    Wrap(r.operation, r.outcome, if r.value.Some? then EncodeValue(p, r.value.value) else Null,
         EncodeProvenance(r.provenance), r.requestId)
  }

  function DecodeResult(p: Primitives, o: Json): Option<Result> {
    var operation, outcome := OperationOf(Int(o, OperationKey)), OutcomeOf(Int(o, OutcomeKey));
    if !Get(o, OperationKey).Num? || !Get(o, OutcomeKey).Num? || operation.None? || outcome.None?
       || !Get(o, ProvenanceKey).Obj? then None
    else
      match DecodeValue(p, operation.value, Get(o, ValueKey))
      case None => None
      case Some(v) =>
        Some(Result(operation.value, outcome.value, v, DecodeProvenance(Get(o, ProvenanceKey)), Text(o, RequestIdKey)))
  }

  predicate Typed(r: Result) {
    r.value.Some? ==> Fits(r.operation, r.value.value)
  }

  /** What the wire keeps of a result. */
  function Kept(r: Result): Result {
    r.(value := if r.value.Some? then Some(Blanked(r.value.value)) else None,
       provenance := r.provenance.(redactionPolicyDigest := ""))
  }

  lemma OperationBack(operation: Operation)
    ensures OperationOf(OperationCode(operation)) == Some(operation)
  {
  }

  lemma OutcomeBack(outcome: Outcome)
    ensures OutcomeOf(OutcomeCode(outcome)) == Some(outcome)
  {
  }

  lemma Unwrap(p: Primitives, operation: Operation, outcome: Outcome, value: Json, provenance: Json, requestId: string)
    requires provenance.Obj?
    ensures DecodeResult(p, Wrap(operation, outcome, value, provenance, requestId))
            == match DecodeValue(p, operation, value)
               case None => None
               case Some(v) => Some(Result(operation, outcome, v, DecodeProvenance(provenance), requestId))
  {
    OperationBack(operation);
    OutcomeBack(outcome);
  }

  lemma ResultBack(p: Primitives, r: Result)
    requires Lawful(p) && Typed(r)
    ensures DecodeResult(p, EncodeResult(p, r)) == Some(Kept(r))
  {
    ProvenanceBack(r.provenance);
    var value := if r.value.Some? then EncodeValue(p, r.value.value) else Null;
    if r.value.Some? {
      ValueBack(p, r.operation, r.value.value);
    }
    Unwrap(p, r.operation, r.outcome, value, EncodeProvenance(r.provenance), r.requestId);
  }

  // ---------------------------------------------------------------- the binary payload

  const MAX_FETCH_BYTES: nat := 268435456

  /** A response: the document, and the size and digest of a payload that follows it. */
  datatype Response = Response(document: Json, binary: Option<Binary>)

  datatype Binary = Binary(bytes: nat, digest: Bytes)

  function Payload(r: Result): Bytes {
    if r.value.Some? && r.value.value.DownloadValue? then r.value.value.content
    else if r.value.Some? && r.value.value.IntakeReadValue? then r.value.value.body
    else []
  }

  function Stripped(r: Result): Result {
    if r.value.Some? && r.value.value.DownloadValue? then r.(value := Some(r.value.value.(content := [])))
    else if r.value.Some? && r.value.value.IntakeReadValue? then r.(value := Some(r.value.value.(body := [])))
    else r
  }

  /** Split the payload off; an empty one is not announced. */
  function ToResponse(p: Primitives, r: Result): (Response, Bytes) {
    var payload := Payload(r);
    (Response(EncodeResult(p, Stripped(r)), if payload != [] then Some(Binary(|payload|, payload)) else None), payload)
  }

  /** The receiver's bound: one byte more for an intake read it asked for itself. */
  function Limit(asked: Option<Operation>): nat {
    if asked == Some(IntakeRead) then MAX_FETCH_BYTES + 1 else MAX_FETCH_BYTES
  }

  /** Put the payload back where the typed value left room for it. */
  function Rejoin(r: Result, payload: Bytes): Option<Result> {
    if r.value.Some? && r.value.value.DownloadValue? then
      if r.value.value.content != [] then None else Some(r.(value := Some(r.value.value.(content := payload))))
    else if r.value.Some? && r.value.value.IntakeReadValue? then
      if r.value.value.body != [] then None else Some(r.(value := Some(r.value.value.(body := payload))))
    else None
  }

  /** What the receiver makes of a response and the bytes that follow it; `asked` is the operation it executed. */
  function Receive(p: Primitives, asked: Option<Operation>, response: Response, stream: Bytes): Option<Result> {
    match response.binary
    case None => DecodeResult(p, response.document)
    case Some(binary) =>
      if binary.bytes == 0 || binary.bytes > Limit(asked) || |stream| < binary.bytes
        || stream[..binary.bytes] != binary.digest
      then None
      else
        match DecodeResult(p, response.document)
        case None => None
        case Some(r) => Rejoin(r, stream[..binary.bytes])
  }

  /**
    Splitting, encoding, decoding and rejoining gives the result back, the redaction-policy digest and
    a ledger page's body blanked, exactly when the payload is within the receiver's bound; beyond it
    the response is refused.
   */
  lemma WireRoundTrip(p: Primitives, r: Result, asked: Option<Operation>)
    requires Lawful(p) && Typed(r)
    ensures var (response, payload) := ToResponse(p, r);
            Receive(p, asked, response, payload) == if |Payload(r)| <= Limit(asked) then Some(Kept(r)) else None
  {
    ResultBack(p, Stripped(r));
    var payload := Payload(r);
    assert payload[..|payload|] == payload;
  }

  /** The decoded value has room for a payload. */
  predicate LeavesRoom(r: Result) {
    && r.value.Some?
    && ((r.value.value.DownloadValue? && r.value.value.content == [])
        || (r.value.value.IntakeReadValue? && r.value.value.body == []))
  }

  /**
    Whatever the stream brings, a result comes back with a payload exactly when the announced length is
    positive and within the bound, that many bytes came, they have the announced digest, and the
    decoded value has room for them; it is then the decoded result with those bytes in that place.
   */
  lemma ReceiveExact(p: Primitives, asked: Option<Operation>, response: Response, stream: Bytes)
    requires response.binary.Some?
    ensures var got, decoded := Receive(p, asked, response, stream), DecodeResult(p, response.document);
            var n := response.binary.value.bytes;
            && (got.Some? <==>
                  && 0 < n <= (if asked == Some(IntakeRead) then 268435457 else 268435456) && n <= |stream|
                  && response.binary.value.digest == stream[..n]
                  && decoded.Some? && LeavesRoom(decoded.value))
            && (got.Some? ==> Payload(got.value) == stream[..n] && Stripped(got.value) == decoded.value)
  {}

  /** A download one byte beyond the bound, which is refused. */
  lemma OversizedRefused(p: Primitives, provenance: Provenance) returns (r: Result)
    requires Lawful(p)
    ensures Typed(r) && |Payload(r)| == Limit(Some(Download)) + 1
    ensures var (response, payload) := ToResponse(p, r); Receive(p, Some(Download), response, payload).None?
  {
    r := Result(Download, Answered, Some(DownloadValue(seq(Limit(Some(Download)) + 1, _ => 0), [])), provenance, "");
    WireRoundTrip(p, r, Some(Download));
  }

  /** A page's own digest: the stated one, else that of the body. */
  function PageDigest(v: Value, digestOf: Bytes -> string): string
    requires v.LedgerPageValue?
  {
    if v.responseDigest != "" then v.responseDigest else digestOf(v.pageBody)
  }

  /** The digest a page answers with survives the wire exactly when it was stated, or the body's is the empty body's. */
  lemma PageDigestKept(v: Value, digestOf: Bytes -> string)
    requires v.LedgerPageValue?
    ensures PageDigest(Blanked(v), digestOf) == PageDigest(v, digestOf) <==>
            v.responseDigest != "" || digestOf(v.pageBody) == digestOf([])
  {}
}
