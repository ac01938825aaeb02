/** The transaction routes: key normalisation, the acting user, and response mapping. */
module TransactionController {
  import opened Common
  import opened LedgerState
  import opened TransactionService
  import opened TransactionDto

  /** The authenticated principal the external token strategy puts on the request. */
  datatype Principal = Principal(userId: OwnerId)

  /** The response shape of one transaction (the creation time is not modelled). */
  datatype TransactionView = TransactionView(id: nat, userId: OwnerId, amount: real, kind: TxType)

  /** Invalid: the body rules refused the request; Failed: the service threw; UnknownType: the
      store refused a type outside its enum, rolling the unit back. */
  datatype ApiError = Invalid(reason: ValidationError) | Failed(cause: LedgerError) | UnknownType

  /** A route's transition: the store afterwards and the response. */
  datatype Reply<T> = Reply(ledger: Ledger, result: Result<T, ApiError>)

  /** The HTTP status each error surfaces as. */
  function Status(e: ApiError): (code: int)
    ensures 400 <= code < 600
    ensures code == 409 <==> e == Failed(DuplicateKey) || e == Failed(WalletExists)
    ensures code == 404 <==> e == Failed(WalletNotFound)
    ensures code == 400 <==> e.Invalid? || e == Failed(InsufficientFunds)
    ensures code == 500 <==> e == Failed(KeyConstraintViolation) || e == UnknownType
  {
    match e
    case Invalid(_) => 400
    case Failed(DuplicateKey) => 409
    case Failed(WalletExists) => 409
    case Failed(WalletNotFound) => 404
    case Failed(InsufficientFunds) => 400
    case Failed(KeyConstraintViolation) => 500
    case UnknownType => 500
  }

  /** A truthy `Idempotency-Key` header replaces the body's key; otherwise the body's key stays. */
  function NormaliseKey(dto: CreateTransactionDto, header: Option<string>): (d: CreateTransactionDto)
    ensures d.amount == dto.amount && d.kind == dto.kind
    ensures IsTruthy(header) ==> d.idempotencyKey == header.value
    ensures !IsTruthy(header) ==> d == dto
  {
    if IsTruthy(header) then dto.(idempotencyKey := header.value) else dto
  }

  /** The key handed to the service: a truthy header, else the body's own, possibly absent, key. */
  function EffectiveKey(bodyKey: Option<string>, header: Option<string>): Option<string>
  {
    if IsTruthy(header) then header else bodyKey
  }

  function ToView(t: Transaction): TransactionView
  {
    TransactionView(t.id, t.userId, t.amount, t.kind)
  }

  /** The list response: the service's rows mapped one by one, same length and order. */
  function ToViews(ts: seq<Transaction>): (vs: seq<TransactionView>)
    ensures |vs| == |ts|
    ensures forall i :: 0 <= i < |ts| ==> vs[i] == ToView(ts[i])
  {
    if |ts| == 0 then [] else [ToView(ts[0])] + ToViews(ts[1..])
  }

  /** The service call the controller makes once the body is valid. */
  function Apply(l: Ledger, p: Principal, dto: CreateTransactionDto, header: Option<string>): Reply<TransactionView>
  {
    var d := NormaliseKey(dto, header);
    var s := CreateTransaction(l, p.userId, TransactionRequest(d.amount, d.kind, Some(d.idempotencyKey)));
    match s.result
    case Ok(t) => Reply(s.ledger, Ok(ToView(t)))
    case Err(e) => Reply(s.ledger, Err(Failed(e)))
  }

  /** POST /transactions with the body rules enforced first, as the test harness configures. */
  function HandleCreate(l: Ledger, p: Principal, body: RawTransactionBody, header: Option<string>): (r: Reply<TransactionView>)
    ensures r.result.Err? ==> r.ledger == l
    ensures Validate(body).Err? ==> r == Reply(l, Err(Invalid(Validate(body).error)))
    ensures Validate(body).Ok? ==>
      var d := NormaliseKey(Validate(body).value, header);
      var req := TransactionRequest(d.amount, d.kind, Some(d.idempotencyKey));
      && (r.result.Ok? <==> Rejection(l, p.userId, req).None?)
      && (r.result.Err? ==> r.result.error == Failed(Rejection(l, p.userId, req).value))
      && (r.result.Ok? ==> r.ledger == CreateTransaction(l, p.userId, req).ledger)
    ensures r.result.Ok? ==>
      var v := r.result.value;
      && |r.ledger.log| == |l.log| + 1
      && v == ToView(r.ledger.log[|l.log|])
      && v.userId == p.userId
      && v.amount == body.amount.value
      && TypeName(v.kind) == body.kind.value
      && r.ledger.log[|l.log|].key == (if IsTruthy(header) then header else body.idempotencyKey)
  {
    match Validate(body)
    case Err(e) => Reply(l, Err(Invalid(e)))
    case Ok(dto) => Apply(l, p, dto, header)
  }

  /** A body as the route receives it when no validation pipe runs: any amount, whatever type
      string was sent, and a key that may be absent. */
  datatype UncheckedBody = UncheckedBody(amount: real, kind: string, idempotencyKey: Option<string>)

  /** POST /transactions as deployed: no validation pipe, so the body reaches the service as is.
      A known type goes through the service unchecked; any other type takes the credit branch,
      and the insert is then refused by the store, rolling the unit back. */
  function HandleCreateUnvalidated(l: Ledger, p: Principal, body: UncheckedBody, header: Option<string>): (r: Reply<TransactionView>)
    ensures r.result.Err? ==> r.ledger == l
    ensures ParseTxType(body.kind).Some? ==>
      var req := TransactionRequest(body.amount, ParseTxType(body.kind).value, EffectiveKey(body.idempotencyKey, header));
      && (r.result.Ok? <==> Rejection(l, p.userId, req).None?)
      && (r.result.Err? ==> r.result.error == Failed(Rejection(l, p.userId, req).value))
      && (r.result.Ok? ==>
            && r.ledger == CreateTransaction(l, p.userId, req).ledger
            && r.result.value == ToView(r.ledger.log[|l.log|]))
    ensures ParseTxType(body.kind).None? ==>
      var key := EffectiveKey(body.idempotencyKey, header);
      && r.result.Err?
      && (IsTruthy(key) && key.value in l.usedKeys ==> r.result.error == Failed(DuplicateKey))
      && (!(IsTruthy(key) && key.value in l.usedKeys) && p.userId !in l.wallets ==> r.result.error == Failed(WalletNotFound))
      && (!(IsTruthy(key) && key.value in l.usedKeys) && p.userId in l.wallets ==> r.result.error == UnknownType)
  {
    var key := EffectiveKey(body.idempotencyKey, header);
    match ParseTxType(body.kind)
    case Some(kind) =>
      var s := CreateTransaction(l, p.userId, TransactionRequest(body.amount, kind, key));
      (match s.result
       case Ok(t) => Reply(s.ledger, Ok(ToView(t)))
       case Err(e) => Reply(s.ledger, Err(Failed(e))))
    case None =>
      if IsTruthy(key) && key.value in l.usedKeys then Reply(l, Err(Failed(DuplicateKey)))
      else if p.userId !in l.wallets then Reply(l, Err(Failed(WalletNotFound)))
      else Reply(l, Err(UnknownType))
  }

  /** GET /transactions: the acting user's rows, newest first, mapped element-wise. */
  method HandleList(l: Ledger, p: Principal) returns (vs: seq<TransactionView>)
    ensures |vs| == |NewestFirst(l.log, p.userId)|
    ensures forall i :: 0 <= i < |vs| ==> vs[i] == ToView(NewestFirst(l.log, p.userId)[i])
    ensures forall i :: 0 <= i < |vs| ==> vs[i].userId == p.userId
  {
    var rows := GetUserTransactions(l, p.userId);
    vs := ToViews(rows);
    forall i | 0 <= i < |vs|
      ensures vs[i].userId == p.userId
    {
      assert rows[i] in rows;
    }
  }

  /** Normalisation is idempotent: applying the same header twice changes nothing more. */
  lemma NormaliseKeyIdempotent(dto: CreateTransactionDto, header: Option<string>)
    ensures NormaliseKey(NormaliseKey(dto, header), header) == NormaliseKey(dto, header)
  {}

  /** When the body carries a non-empty key of its own, a truthy header behaves exactly like that
      body with the header's value as key. */
  lemma HeaderOverridesBodyKey(l: Ledger, p: Principal, body: RawTransactionBody, h: string)
    requires h != ""
    requires IsTruthy(body.idempotencyKey)
    ensures HandleCreate(l, p, body, Some(h)) == HandleCreate(l, p, body.(idempotencyKey := Some(h)), None)
  {}

  /** An absent header and an empty one both leave the body's key in force. */
  lemma FalsyHeaderKeepsBodyKey(l: Ledger, p: Principal, body: RawTransactionBody)
    ensures HandleCreate(l, p, body, Some("")) == HandleCreate(l, p, body, None)
  {}

  /** The header alone is not enough: the body's key is validated before the header is read. */
  lemma HeaderOnlyKeyRejected(l: Ledger, p: Principal, body: RawTransactionBody, h: string)
    requires body.idempotencyKey == None
    ensures HandleCreate(l, p, body, Some(h)).result.Err?
    ensures HandleCreate(l, p, body, Some(h)).ledger == l
  {}

  /** Only the principal's wallet can change: every other owner's balance is untouched. */
  lemma ActsOnPrincipalOnly(l: Ledger, p: Principal, body: RawTransactionBody, header: Option<string>)
    ensures var r := HandleCreate(l, p, body, header);
      && r.ledger.wallets.Keys == l.wallets.Keys
      && forall u :: u in l.wallets && u != p.userId ==> r.ledger.wallets[u] == l.wallets[u]
  {}

  /** With the body rules enforced, every request keeps the store's invariants: balances stay
      non-negative, agree with the log, and no key is used twice. */
  lemma HandleCreatePreservesValid(l: Ledger, p: Principal, body: RawTransactionBody, header: Option<string>)
    requires Valid(l)
    ensures Valid(HandleCreate(l, p, body, header).ledger)
  {}

  /** Without the body rules a negative credit goes through and drives a balance below zero. */
  lemma UnvalidatedCreditOverdraws()
    ensures var l := Ledger(map[1 := 0.0], [], {});
      var r := HandleCreateUnvalidated(l, Principal(1), UncheckedBody(-50.0, "CREDIT", Some("k")), None);
      Valid(l) && r.result.Ok? && r.ledger.wallets[1] == -50.0 && !Valid(r.ledger)
  {}

  /** Without the body rules a keyless request has no duplicate protection: sending it twice
      credits twice. */
  lemma UnvalidatedKeylessRetryAppliesTwice()
    ensures var l := Ledger(map[1 := 0.0], [], {});
      var body := UncheckedBody(10.0, "CREDIT", None);
      var r1 := HandleCreateUnvalidated(l, Principal(1), body, None);
      var r2 := HandleCreateUnvalidated(r1.ledger, Principal(1), body, None);
      r1.result.Ok? && r2.result.Ok? && r2.ledger.wallets[1] == 20.0
  {}

  /** Without the body rules a key sent only in the header is accepted and recorded. */
  lemma UnvalidatedHeaderOnlyKeyAccepted(l: Ledger, p: Principal, amount: real, h: string)
    requires h != "" && h !in l.usedKeys
    requires p.userId in l.wallets
    ensures var r := HandleCreateUnvalidated(l, p, UncheckedBody(amount, "CREDIT", None), Some(h));
      r.result.Ok? && r.ledger.log[|l.log|].key == Some(h)
  {}
}
