/** What the authorization file says of a credential. */
module Outcomes {
  datatype Outcome = Authorized | Denied | Unknown
}
