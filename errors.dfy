/** The failures of the analytics endpoints that the model produces, each answered with HTTP 400. */
module Errors {
  datatype Error =
    | InvalidMonth        // the month gate rejected the `month` query parameter
    | CombinedDataFailed  // one of the three sub-requests of /combined-data failed

}
