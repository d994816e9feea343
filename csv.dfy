/** What the loaders see of encoding/csv: the outcomes of successive
    `Reader.Read` calls, up to end of input. Tokenizing, quoting, delimiters,
    charset decoding and the field-count rule are outside the model. */
module Csv {
  datatype Read = Row(fields: seq<string>) | Unreadable

  /** True when some read in `input` failed. */
  predicate AnyUnreadable(input: seq<Read>) {
    exists i :: 0 <= i < |input| && input[i].Unreadable?
  }
}
