/** The column normaliser of dask_expr/_util.py. */
module Util {
  import opened Wrappers
  import opened Ir

  /**
    `_convert_to_list`: `None` stays `None`, a list is kept, a tuple becomes a
    list of its items, an array-like becomes its `tolist()`, and any other
    value is wrapped in a one-element list.
   */
  function ConvertToList(column: Value): (r: Option<seq<Value>>)
    ensures r.None? <==> column.VNone?
    ensures column.VList? || column.VTuple? || column.VArray? ==> r == Some(column.items)
    ensures !(column.VNone? || column.VList? || column.VTuple? || column.VArray?) ==> r == Some([column])
  {
    match column
    case VNone => None
    case VList(xs) => Some(xs)
    case VTuple(xs) => Some(xs)
    case VArray(xs) => Some(xs)
    case _ => Some([column])
  }

  /** Converting an already converted column list changes nothing. */
  lemma ConvertToListIdempotent(column: Value)
    requires !column.VNone?
    ensures ConvertToList(VList(ConvertToList(column).value)) == ConvertToList(column)
  {
  }

  /** A scalar label selects exactly that one column. */
  lemma ConvertScalar(column: Value)
    requires IsStrOrInt(column)
    ensures ConvertToList(column) == Some([column])
  {
  }
}
