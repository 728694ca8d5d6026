/** Small value wrappers shared by the driver models. */
module Wrappers {

  /** A value that may be absent: a NULL pointer, a freed buffer, a rejected lookup. */
  datatype Option<+T> = None | Some(value: T)
}

/** Kernel error numbers the modelled callbacks return (negated, as the kernel does). */
module Errno {
  const ENOMEM: int := 12
  const ENODEV: int := 19
  const EINVAL: int := 22
}
