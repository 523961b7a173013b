/** The MIR binary operators, as rustc hands them to the code generator.
    Rust types themselves are modelled by `TypeMapper.RustTy`. */
module Mir {
  /** MIR `BinOp`. */
  datatype MirBinOp =
    | Add | Sub | Mul | Div | Rem | BitAnd | BitOr | BitXor | Shl | Shr
    | Eq | Ne | Lt | Le | Gt | Ge
    | AddUnchecked | SubUnchecked | MulUnchecked | ShlUnchecked | ShrUnchecked
    | Cmp | Offset
    | AddWithOverflow | SubWithOverflow | MulWithOverflow
}
