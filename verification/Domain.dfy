/** The ledger's entities and the checks each entity makes on its own fields. */
module Domain {
  import opened Wrappers

  /** A ULID, taken as its position in the ULID order. */
  type Id = nat
  type Time = int
  type Currency = string

  datatype Error =
    | SameAccount
    | InvalidAmount
    | AccountNotFound
    | CurrencyMismatch
    | NegativeBalanceNotAllowed
    | PositiveBalanceNotAllowed
    | TransferNotFound
    | TransferAlreadyReversed
    | HoldNotFound
    | HoldNotActive
    // refusals by the database schema
    | TransfersCheck
    | AccountsCheck
    | ReversedTransferMissing
    // failures of the database itself
    | Deadlock
    | SerializationFailure
    | Unavailable
  {
    /** The only errors the retrier runs an operation again for. */
    predicate Retryable() {
      this == Deadlock || this == SerializationFailure
    }

    /** Errors that a statement can return whatever the tables hold. */
    predicate IsFault() {
      Retryable() || this == Unavailable
    }
  }

  datatype Account = Account(
    id: Id, currency: Currency, balance: int, encumbered: int, version: int,
    allowNegative: bool, allowPositive: bool)
  {
    function AvailableBalance(): int {
      balance - encumbered
    }

    function ValidateDebit(amount: int): Check<Error> {
      if !allowNegative && AvailableBalance() - amount < 0
      then Fail(NegativeBalanceNotAllowed) else Pass
    }

    function ValidateCredit(amount: int): Check<Error> {
      if !allowPositive && balance + amount > 0
      then Fail(PositiveBalanceNotAllowed) else Pass
    }

    function ApplyDebit(amount: int): int {
      balance - amount
    }

    function ApplyCredit(amount: int): int {
      balance + amount
    }

    /** The three CHECK constraints of the accounts table. */
    predicate Permitted() {
      && encumbered >= 0
      && (allowNegative || balance - encumbered >= 0)
      && (allowPositive || balance <= 0)
    }
  }

  datatype Transfer = Transfer(
    id: Id, from: Id, to: Id, amount: int, createdAt: Time, reversed: Option<Id>)
  {
    function Validate(): Check<Error> {
      if from == to then Fail(SameAccount)
      else if amount <= 0 then Fail(InvalidAmount)
      else Pass
    }
  }

  datatype Entry = Entry(
    id: Id, account: Id, transfer: Id, amount: int,
    previousBalance: int, currentBalance: int, version: int, createdAt: Time)

  datatype HoldStatus = Active | Voided | Captured

  datatype Hold = Hold(id: Id, account: Id, amount: int, status: HoldStatus)

  /** aggregate_type and aggregate_id together. */
  datatype Aggregate = TransferAggregate(id: Id) | HoldAggregate(id: Id)

  datatype EventType =
    | TransferCreated
    | TransferReversed
    | HoldCreated
    | HoldVoided
    | HoldCaptured

  /** An outbox row; transfer is the transfer its payload names, if any. */
  datatype OutboxEvent = OutboxEvent(
    id: Id, aggregate: Aggregate, eventType: EventType, transfer: Option<Id>,
    sequence: int, createdAt: Time, published: bool, attempts: int, deadLettered: bool)

  datatype TransferInput = TransferInput(from: Id, to: Id, amount: int, reversed: Option<Id>)
}
