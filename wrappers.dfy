/** Result types shared by the whole model: Python's `None`-or-value returns and
    Python's exceptions, which the modelled code lets propagate. */
module Wrappers {

  datatype Option<+T> = None | Some(value: T)

  /** The exceptions the modelled code can raise without catching them. */
  datatype PyError =
    | ValueError         // int() of a non-numeric string, unpacking `split` into two names
    | TypeError          // unpacking `False` into a tuple, `len`/`in` on an int
    | IndexError         // `patch_lst[0]` on an empty list
    | AttributeError     // a method of `None`, a field of a missing row
    | UnboundLocalError  // reading a local that no branch assigned
    | UnicodeEncodeError // a token that cannot be sent in an HTTP header

  /** How a call of a Python function ends: it returns a value, raises, or
      (only for loops without a bound) has not finished within the fuel it was given. */
  datatype Run<+T> = Returns(value: T) | Raises(error: PyError) | OutOfFuel
}
