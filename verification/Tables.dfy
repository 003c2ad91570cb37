/** Which of its two transition tables a transaction uses. */
module Tables {
  datatype Table = InviteTable | NonInviteTable

  /** The table for INVITE, or the one for every other method. */
  function TableFor(requestMethod: string): Table {
    if requestMethod == "INVITE" then InviteTable else NonInviteTable
  }
}
