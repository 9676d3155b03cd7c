/** Universally unique ids, with their text form as a parameter. */
module Uuids {
  import opened Wrappers

  type Uuid = u: nat | u < 0x1_0000_0000_0000_0000_0000_0000_0000_0000

  datatype Codec = Codec(print_: Uuid -> string, parse: string -> Option<Uuid>) {
    /** What is printed parses back. */
    ghost predicate Faithful() {
      forall u: Uuid :: parse(print_(u)) == Some(u)
    }
  }
}
