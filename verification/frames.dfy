/**
  A query result as the backend sees it, abstracted from a pandas frame: the columns in
  order, each with a name and a dtype class, and the number of rows. Cell values are not
  modelled.
 */
module Frames {
  /** `select_dtypes`: `number` is Numeric; `object`, `category` and `bool` are Categorical. */
  datatype Kind = Numeric | Categorical | OtherKind

  datatype Column = Column(name: string, kind: Kind)

  datatype Frame = Frame(columns: seq<Column>, rows: nat)

  /** `df.empty`: no rows or no columns. */
  predicate IsEmpty(f: Frame) {
    f.rows == 0 || |f.columns| == 0
  }

  function CountKind(cols: seq<Column>, k: Kind): (n: nat)
    ensures n <= |cols|
    ensures n == 0 <==> forall i :: 0 <= i < |cols| ==> cols[i].kind != k
  {
    if |cols| == 0 then 0
    else (if cols[0].kind == k then 1 else 0) + CountKind(cols[1..], k)
  }

  /** Columns of a kind, in frame order: `select_dtypes(...).columns.tolist()`. */
  function OfKind(cols: seq<Column>, k: Kind): (r: seq<Column>)
    ensures |r| == CountKind(cols, k)
    ensures forall i :: 0 <= i < |r| ==> r[i].kind == k && r[i] in cols
  {
    if |cols| == 0 then []
    else (if cols[0].kind == k then [cols[0]] else []) + OfKind(cols[1..], k)
  }
}
