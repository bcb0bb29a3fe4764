/** Partial updates: a request sends some of a record's fields, and may send null. */
module PartialUpdate {
  import opened Wrappers

  /** A field of a partial update: not sent, sent as null, or sent with a value. */
  datatype Field<+T> = Absent | Null | Given(value: T) {
    predicate Sent() { !Absent? }
  }

  function Kept<T>(f: Field<T>, old_: T): T {
    if f.Given? then f.value else old_
  }

  function KeptOrCleared<T>(f: Field<T>, old_: Option<T>): Option<T> {
    match f
    case Absent => old_
    case Null => None
    case Given(v) => Some(v)
  }
}
