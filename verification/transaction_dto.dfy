/** The input rules of CreateTransactionDto, applied to a request body before the controller runs. */
module TransactionDto {
  import opened Common
  import opened LedgerState

  /** A request body as it arrives. `amount` is None when absent or not a finite number;
      `kind` and `idempotencyKey` are None when absent or not strings. */
  datatype RawTransactionBody = RawTransactionBody(amount: Option<real>, kind: Option<string>, idempotencyKey: Option<string>)

  /** A body that passed every rule. */
  datatype CreateTransactionDto = CreateTransactionDto(amount: real, kind: TxType, idempotencyKey: string)

  /** The first rule a body breaks, checked in the order amount, type, key. The pipe reports
      every broken rule in its 400 response; the model keeps only the first as the reason. */
  datatype ValidationError = BadAmount | BadType | MissingKey

  /** The `Min(0.01)` bound on amount. */
  const MinAmount: real := 0.01

  /** The wire names of the transaction types. */
  function TypeName(t: TxType): string
  {
    match t
    case Credit => "CREDIT"
    case Debit => "DEBIT"
  }

  /** `IsEnum(TransactionType)`: the string must be one of the enum's values. */
  function ParseTxType(s: string): (r: Option<TxType>)
    ensures r.Some? <==> s == "CREDIT" || s == "DEBIT"
    ensures r.Some? ==> TypeName(r.value) == s
  {
    if s == "CREDIT" then Some(Credit)
    else if s == "DEBIT" then Some(Debit)
    else None
  }

  /** The body's rules: a number of at least 0.01, a known type, a non-empty key. A rejected
      body carries the first rule it breaks, in that order. */
  function Validate(b: RawTransactionBody): (r: Result<CreateTransactionDto, ValidationError>)
    ensures r.Ok? <==>
      && b.amount.Some? && b.amount.value >= MinAmount
      && b.kind.Some? && (b.kind.value == "CREDIT" || b.kind.value == "DEBIT")
      && IsTruthy(b.idempotencyKey)
    ensures r.Ok? ==>
      && r.value.amount == b.amount.value
      && r.value.amount > 0.0
      && TypeName(r.value.kind) == b.kind.value
      && b.idempotencyKey == Some(r.value.idempotencyKey)
      && r.value.idempotencyKey != ""
    ensures r == Err(BadAmount) <==> !(b.amount.Some? && b.amount.value >= MinAmount)
    ensures r == Err(BadType) <==>
      b.amount.Some? && b.amount.value >= MinAmount && !(b.kind.Some? && (b.kind.value == "CREDIT" || b.kind.value == "DEBIT"))
  {
    if !(b.amount.Some? && b.amount.value >= MinAmount) then Err(BadAmount)
    else if !(b.kind.Some? && ParseTxType(b.kind.value).Some?) then Err(BadType)
    else if !IsTruthy(b.idempotencyKey) then Err(MissingKey)
    else Ok(CreateTransactionDto(b.amount.value, ParseTxType(b.kind.value).value, b.idempotencyKey.value))
  }

  /** The body that carries exactly a DTO's fields. */
  function ToBody(d: CreateTransactionDto): RawTransactionBody
  {
    RawTransactionBody(Some(d.amount), Some(TypeName(d.kind)), Some(d.idempotencyKey))
  }

  /** Every DTO meeting the rules survives a trip through its body unchanged, and nothing
      else is accepted from that body. */
  lemma ValidateToBody(d: CreateTransactionDto)
    ensures Validate(ToBody(d)).Ok? <==> d.amount >= MinAmount && d.idempotencyKey != ""
    ensures Validate(ToBody(d)).Ok? ==> Validate(ToBody(d)).value == d
  {}

  /** Zero, negative and sub-cent amounts are rejected, whatever the other fields hold. */
  lemma NonPositiveAmountRejected(b: RawTransactionBody)
    requires b.amount.Some? && b.amount.value < MinAmount
    ensures Validate(b) == Err(BadAmount)
  {}

  /** A body without a key, or with an empty one, is rejected even when amount and type are fine. */
  lemma MissingKeyRejected(b: RawTransactionBody)
    requires !IsTruthy(b.idempotencyKey)
    ensures Validate(b).Err?
  {}
}
