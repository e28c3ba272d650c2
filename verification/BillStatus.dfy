/** The states of a captured bill. */
module BillStatuses {
  datatype BillStatus = Received | Matched | DeadLetter
}
