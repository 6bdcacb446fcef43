/** The optional values and error results that the export script's operations produce. */
module Outcomes {

  datatype Option<+T> = None | Some(value: T)

  /** The ways a run of the script stops before it writes its exports. */
  datatype Error =
    | MissingCredentials  // no credential file ~/.redshift: the constructor logs and exits with status 1
    | InvalidNumber       // int() rejects the billing-period argument (ValueError)
    | InvalidTimestamp    // datetime.strptime rejects a -y or -z argument (ValueError)
    | TenantNotFound      // the billing-cycle lookup returned no row for the tenant
    | DateOutOfRange      // a month shift leaves datetime's year range 1..9999 (ValueError)

  datatype Result<+T> = Ok(value: T) | Err(error: Error)
}
