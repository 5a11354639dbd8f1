/** Small value types shared by every module of the model. */
module Prelude {

  datatype Option<+T> = None | Some(value: T) {
    function GetOr(default: T): T {
      if Some? then value else default
    }
  }

  /** One octet on a socket, in a frame or in a buffer. */
  type byte = n: int | 0 <= n < 256

  function Min(a: nat, b: nat): nat {
    if a <= b then a else b
  }

  function Max(a: nat, b: nat): nat {
    if a >= b then a else b
  }

}
