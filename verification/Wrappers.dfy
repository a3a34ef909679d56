/** Definitions shared by all modules. */
module Wrappers {

  datatype Option<+T> = None | Some(value: T)

  /** Error codes of the driver and control-device calls. */
  datatype Errno = EINVAL | EIO | EFAULT | ENODEV | ENOMEM | ENOTTY

  function Min(a: nat, b: nat): nat { if a < b then a else b }
}
