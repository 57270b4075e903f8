/** Small shared vocabulary: machine integers, options and results. */
module Machine {

  type u8 = x: int | 0 <= x < 256

  datatype Option<+T> = None | Some(value: T)

  datatype Result<+R, +E> = Ok(value: R) | Err(error: E)

  function Min(a: nat, b: nat): nat {
    if a < b then a else b
  }

  /** The `as u16` cast of an unsigned length. */
  function AsU16(n: nat): nat {
    n % 65536
  }
}
