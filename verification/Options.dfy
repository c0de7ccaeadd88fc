/** The conventional Some/None datatype, used where the source has a value or `None`. */
module Options {
  datatype Option<+T> = None | Some(value: T)

  function Max(a: nat, b: nat): nat { if a >= b then a else b }

  function Min(a: nat, b: nat): nat { if a <= b then a else b }
}
