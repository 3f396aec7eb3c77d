// Two validators for one set of rules: a Python function that returns at the
// first failure, and a Spark column of WHEN clauses under SQL's three-valued
// logic.

module DataQuality {
  import opened Prelude

  datatype Reason =
    | MalformedJson | MissingEventId | MissingUserId | MissingAccountId
    | MissingEventType | NullEventTimestamp | InvalidAmount

  // Field values as they are after JSON parsing; a missing field and an explicit
  // null look the same to both validators.
  datatype Record = Record(
    eventId: Option<string>, userId: Option<string>, accountId: Option<string>,
    eventType: Option<string>, eventTimestamp: Option<string>, amount: Option<string>)

  const NO_FIELDS: Record := Record(None, None, None, None, None, None)

  // A message is no JSON object, the object {}, or an object with fields.
  datatype Payload = Malformed | EmptyObject | Object(record: Record)

  datatype Number = NaN | Infinite(negative: bool) | Finite(value: real)

  // The parsers both sides rely on: what counts as white space, as a timestamp,
  // and which number a text denotes.
  datatype Parsers = Parsers(
    isSpace: char -> bool, isTimestamp: string -> bool, number: string -> Option<Number>)

  // ---------- The Python validator ----------

  predicate AllSpace(ps: Parsers, s: string) {
    forall i :: 0 <= i < |s| ==> ps.isSpace(s[i])
  }

  predicate IsBlank(ps: Parsers, value: Option<string>) {
    value.None? || AllSpace(ps, value.value)
  }

  predicate IsValidTimestamp(ps: Parsers, value: Option<string>) {
    !IsBlank(ps, value) && ps.isTimestamp(value.value)
  }

  // x >= 0, which is false for NaN.
  predicate NonNegative(x: Number) {
    match x
    case NaN => false
    case Infinite(negative) => !negative
    case Finite(v) => v >= 0.0
  }

  predicate IsValidAmount(ps: Parsers, value: Option<string>) {
    IsBlank(ps, value) || (ps.number(value.value).Some? && NonNegative(ps.number(value.value).value))
  }

  function ValidateRecord(ps: Parsers, payload: Payload): Option<Reason> {
    match payload
    case Malformed => Some(MalformedJson)
    case EmptyObject => Some(MalformedJson)
    case Object(r) =>
      if IsBlank(ps, r.eventId) then Some(MissingEventId)
      else if IsBlank(ps, r.userId) then Some(MissingUserId)
      else if IsBlank(ps, r.accountId) then Some(MissingAccountId)
      else if IsBlank(ps, r.eventType) then Some(MissingEventType)
      else if !IsValidTimestamp(ps, r.eventTimestamp) then Some(NullEventTimestamp)
      else if !IsValidAmount(ps, r.amount) then Some(InvalidAmount)
      else None
  }

  // ---------- The Spark column ----------

  datatype Truth = Yes | No | Unknown

  function Or(a: Truth, b: Truth): Truth {
    if a == Yes || b == Yes then Yes else if a == No && b == No then No else Unknown
  }

  function And(a: Truth, b: Truth): Truth {
    if a == No || b == No then No else if a == Yes && b == Yes then Yes else Unknown
  }

  function Known(b: bool): Truth {
    if b then Yes else No
  }

  function IsNull<T>(v: Option<T>): Truth {
    Known(v.None?)
  }

  function IsNotNull<T>(v: Option<T>): Truth {
    Known(v.Some?)
  }

  function Equals(v: Option<string>, literal: string): Truth {
    if v.None? then Unknown else Known(v.value == literal)
  }

  function Differs(v: Option<string>, literal: string): Truth {
    if v.None? then Unknown else Known(v.value != literal)
  }

  // cast("double"), null for null and for a text that is no number
  function CastDouble(ps: Parsers, v: Option<string>): Option<Number> {
    if v.None? then None else ps.number(v.value)
  }

  // x < 0, where SQL orders NaN above every number.
  function Negative(x: Option<Number>): Truth {
    match x
    case None => Unknown
    case Some(NaN) => No
    case Some(Infinite(negative)) => Known(negative)
    case Some(Finite(v)) => Known(v < 0.0)
  }

  function ToTimestamp(ps: Parsers, v: Option<string>): Option<string> {
    if v.Some? && ps.isTimestamp(v.value) then v else None
  }

  // F.when(c0, r0).when(c1, r1)...: the first condition that is Yes decides;
  // one that is Unknown is passed over like one that is No.
  function FirstYes(clauses: seq<(Truth, Reason)>): Option<Reason> {
    if clauses == [] then None
    else if clauses[0].0 == Yes then Some(clauses[0].1)
    else FirstYes(clauses[1..])
  }

  function MissingOrEmpty(v: Option<string>): Truth {
    Or(IsNull(v), Equals(v, ""))
  }

  function Clauses(ps: Parsers, data: Option<Record>): seq<(Truth, Reason)> {
    var r := if data.None? then NO_FIELDS else data.value;
    [ (IsNull(data), MalformedJson),
      (MissingOrEmpty(r.eventId), MissingEventId),
      (MissingOrEmpty(r.userId), MissingUserId),
      (MissingOrEmpty(r.accountId), MissingAccountId),
      (MissingOrEmpty(r.eventType), MissingEventType),
      (Or(MissingOrEmpty(r.eventTimestamp), IsNull(ToTimestamp(ps, r.eventTimestamp))), NullEventTimestamp),
      (And(And(IsNotNull(r.amount), Differs(r.amount, "")),
           Or(IsNull(CastDouble(ps, r.amount)), Negative(CastDouble(ps, r.amount)))), InvalidAmount) ]
  }

  // from_json: null for malformed text, and every missing field null.
  function FromJson(payload: Payload): Option<Record> {
    match payload
    case Malformed => None
    case EmptyObject => Some(NO_FIELDS)
    case Object(r) => Some(r)
  }

  function RejectionReason(ps: Parsers, payload: Payload): Option<Reason> {
    FirstYes(Clauses(ps, FromJson(payload)))
  }

  // ---------- When the two agree ----------

  // White space and nothing else, but not nothing at all.
  predicate OnlySpace(ps: Parsers, v: Option<string>) {
    v.Some? && v.value != "" && AllSpace(ps, v.value)
  }

  // The texts on which the amount rules differ: NaN (invalid for Python, valid
  // for Spark) and white space (valid for Python) that Spark would reject.
  predicate AmountsDiffer(ps: Parsers, v: Option<string>) {
    if OnlySpace(ps, v) then ps.number(v.value).None? || Negative(ps.number(v.value)) == Yes
    else v.Some? && v.value != "" && ps.number(v.value) == Some(NaN)
  }

  // The record meets the rules up to a field on which the validators differ.
  predicate Diverges(ps: Parsers, payload: Payload) {
    match payload
    case Malformed => false
    case EmptyObject => true
    case Object(r) =>
      if IsBlank(ps, r.eventId) then OnlySpace(ps, r.eventId)
      else if IsBlank(ps, r.userId) then OnlySpace(ps, r.userId)
      else if IsBlank(ps, r.accountId) then OnlySpace(ps, r.accountId)
      else if IsBlank(ps, r.eventType) then OnlySpace(ps, r.eventType)
      else if IsBlank(ps, r.eventTimestamp) then
        OnlySpace(ps, r.eventTimestamp) && ps.isTimestamp(r.eventTimestamp.value)
      else ps.isTimestamp(r.eventTimestamp.value) && AmountsDiffer(ps, r.amount)
  }

  // The WHEN chain spelt out: the reason of the first failing rule.
  lemma RejectionReasonChain(ps: Parsers, r: Record)
    ensures RejectionReason(ps, Object(r)) ==
      if r.eventId.None? || r.eventId.value == "" then Some(MissingEventId)
      else if r.userId.None? || r.userId.value == "" then Some(MissingUserId)
      else if r.accountId.None? || r.accountId.value == "" then Some(MissingAccountId)
      else if r.eventType.None? || r.eventType.value == "" then Some(MissingEventType)
      else if r.eventTimestamp.None? || r.eventTimestamp.value == "" || !ps.isTimestamp(r.eventTimestamp.value)
        then Some(NullEventTimestamp)
      else if r.amount.Some? && r.amount.value != ""
              && (ps.number(r.amount.value).None? || Negative(ps.number(r.amount.value)) == Yes)
        then Some(InvalidAmount)
      else None
  {
    var c := Clauses(ps, Some(r));
    FirstYesFrom(c, 6);
    FirstYesFrom(c, 5);
    FirstYesFrom(c, 4);
    FirstYesFrom(c, 3);
    FirstYesFrom(c, 2);
    FirstYesFrom(c, 1);
    FirstYesFrom(c, 0);
    assert c[0..] == c && FirstYes(c[7..]).None?;
  }

  lemma FirstYesFrom(c: seq<(Truth, Reason)>, i: nat)
    requires i < |c|
    ensures FirstYes(c[i..]) == if c[i].0 == Yes then Some(c[i].1) else FirstYes(c[i + 1..])
  {
    assert c[i..][1..] == c[i + 1..];
  }

  // On every message the two validators give the same verdict, and the same
  // reason, exactly when the message does not diverge.
  lemma ValidatorsAgreeExactly(ps: Parsers, payload: Payload)
    ensures ValidateRecord(ps, payload) == RejectionReason(ps, payload) <==> !Diverges(ps, payload)
  {
    match payload
    case Malformed =>
    case EmptyObject => RejectionReasonChain(ps, NO_FIELDS);
    case Object(r) => RejectionReasonChain(ps, r);
  }

  // In particular on every record that is not {} and holds neither a text of
  // white space only nor the amount NaN.
  lemma ValidatorsAgreeOnPlainRecords(ps: Parsers, r: Record)
    requires forall v :: v in [r.eventId, r.userId, r.accountId, r.eventType, r.eventTimestamp, r.amount] ==>
               !OnlySpace(ps, v)
    requires r.amount.Some? && r.amount.value != "" ==> ps.number(r.amount.value) != Some(NaN)
    ensures ValidateRecord(ps, Object(r)) == RejectionReason(ps, Object(r))
  {
    var fields := [r.eventId, r.userId, r.accountId, r.eventType, r.eventTimestamp, r.amount];
    assert r.eventId in fields && r.userId in fields && r.accountId in fields;
    assert r.eventType in fields && r.eventTimestamp in fields && r.amount in fields;
    ValidatorsAgreeExactly(ps, Object(r));
  }
}
