/** Shared value types. */
module Common {
  datatype Option<+T> = None | Some(value: T)

  /** The decimal digit of a number below ten. */
  function Digit(d: nat): (c: char)
    requires d < 10
    ensures '0' <= c <= '9' && c as int == 48 + d
  {
    (48 + d) as char
  }
}
