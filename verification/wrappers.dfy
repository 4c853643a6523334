/** The optional value used for a pointer slot: `None` stands for `nullptr`. */
module Wrappers {

  datatype Option<+T> = None | Some(value: T)

  /** The set of values an option carries: empty for `None`. */
  function Elements<T>(o: Option<T>): (r: set<T>)
    ensures o.None? <==> r == {}
    ensures o.Some? ==> r == {o.value}
  {
    match o
    case None => {}
    case Some(x) => {x}
  }
}
