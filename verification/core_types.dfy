/** The records passed between the ledger client, the monitor and the alert queue. */
module CoreTypes {

  /**
   * One received payment as the ledger client hands it to the monitor:
   * the dictionary with keys id, amount, username, comment and datetime.
   * `amount` is already the normalised text; `datetime` is Unix seconds.
   */
  datatype Payment = Payment(id: string, amount: string, username: string, comment: string, datetime: int)

  /** An alert waiting in the dispatch queue (AlertInfo). */
  datatype AlertInfo = AlertInfo(amount: string, username: string, message: string)
}
