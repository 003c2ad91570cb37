/** SIP responses as the transactions see them. */
module Responses {
  /** `cancel` says that the CSeq of the response names CANCEL. */
  datatype Response = Response(code: nat, cancel: bool, id: nat) {
    predicate Provisional() {
      code < 200
    }

    predicate Success() {
      200 <= code < 300
    }
  }
}
