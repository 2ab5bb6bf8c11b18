/** The negative error numbers the kernel code returns, and the option type used everywhere else. */
module Errno {
  const ENOENT: int := -2
  const EIO: int := -5
  const ENOMEM: int := -12
  const EBUSY: int := -16
  const ENODEV: int := -19
  const EINVAL: int := -22
  const ETIMEDOUT: int := -110
  const ECANCELED: int := -125

  datatype Option<+T> = None | Some(value: T)
}
