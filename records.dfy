/** The transaction record and the request that creates one. */
module Records {

  datatype Option<+T> = None | Some(value: T)

  /**
   * One persisted transaction. Timestamps are milliseconds since the epoch;
   * `owner` is the id of the owning user, `None` when the relation is not
   * resolved on the loaded row.
   */
  datatype Transaction = Transaction(
    id: int,
    owner: Option<int>,
    amount: real,
    merchant: string,
    timestamp: int,
    category: Option<string>,
    location: Option<string>,
    currency: Option<string>)

  /**
   * The body of a create request. Its timestamp is resolved before the
   * record is built and is passed separately.
   */
  datatype CreateTransactionDto = CreateTransactionDto(
    amount: real,
    merchant: string,
    category: Option<string>,
    location: Option<string>,
    currency: Option<string>)
}
