/** Optional values and kernel status codes. */
module Option {

  datatype Option<+T> = None | Some(value: T)

  /** `Errno(KERNEL)` stands for whatever a failing kernel service returned. */
  datatype Errno = EINVAL | EBUSY | EOPNOTSUPP | ENOENT | ENODEV | ENOMEM | KERNEL

  datatype Status = Success | Failure(errno: Errno)
}
