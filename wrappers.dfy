/** Small value wrappers shared by every module of the model. */
module Wrappers {

  /** An optional value; `None` stands for SQL NULL in a table row. */
  datatype Option<+T> = None | Some(value: T)

  /** A value read from a JavaScript object, which may be `undefined`, `null`,
      or an actual value. Drizzle treats the first two differently: an
      `undefined` column value is left out of an INSERT or UPDATE, a `null`
      one writes NULL. */
  datatype Field<+T> = Undefined | Null | Val(v: T)

  /** JavaScript's nullish coalescing `a ?? b`: `a` unless it is null or undefined. */
  function Coalesce<T>(a: Field<T>, b: Field<T>): (r: Field<T>)
    ensures a.Val? ==> r == a
    ensures !a.Val? ==> r == b
  {
    if a.Val? then a else b
  }

  /** The column value an INSERT stores for a field: undefined and null are both NULL
      (no column defaults are modelled). */
  function Stored<T>(f: Field<T>): (r: Option<T>)
    ensures r.Some? <==> f.Val?
    ensures f.Val? ==> r.value == f.v
  {
    if f.Val? then Some(f.v) else None
  }

  /** The column value an UPDATE leaves: an undefined field keeps the old value. */
  function Updated<T>(old_: Option<T>, f: Field<T>): (r: Option<T>)
    ensures f.Undefined? ==> r == old_
    ensures f.Null? ==> r.None?
    ensures f.Val? ==> r == Some(f.v)
  {
    match f
    case Undefined => old_
    case Null => None
    case Val(v) => Some(v)
  }
}
