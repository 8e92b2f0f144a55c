/** Django's lookups (the leaves of a where tree), reduced to what the
    prepared-statement layer inspects: the lookup's class, its name, the
    output field of its left-hand side and its right-hand side. */
module Lookups {
  import opened Params

  /** The exact class of a lookup: the two the layer refuses, and the rest. */
  datatype LookupKind = IsNull | In | OtherLookup

  /** A right-hand-side expression: a bind parameter or anything else. */
  datatype Expr = Bind(param: BindParam) | Plain

  /** A right-hand side is a single expression or a sequence of them. */
  datatype Rhs = Single(expr: Expr) | Many(exprs: seq<Expr>)

  datatype Lookup = Lookup(kind: LookupKind, lookupName: string, lhsOutputField: FieldType?, rhs: Rhs)
}
