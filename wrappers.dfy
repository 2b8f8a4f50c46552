/** The optional value used for pandas column labels, for the file a listing search
    finds and for the catalog a URL names. */
module Wrappers {

  datatype Option<+T> = None | Some(value: T)
}
