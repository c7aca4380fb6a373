/** Optional values and results that carry an error. */
module Wrappers {
  datatype Option<+T> = None | Some(value: T)

  datatype Result<+T, +E> = Ok(value: T) | Err(error: E)
}

/** Linux error numbers, as the source names them. */
module Errno {
  const ENOENT := 2
  const EIO := 5
  const EFAULT := 14
  const EBUSY := 16
  const EEXIST := 17
  const EXDEV := 18
  const ENOTDIR := 20
  const EISDIR := 21
  const EINVAL := 22
  const EMFILE := 24
  const ERANGE := 34
  const ENAMETOOLONG := 36
  const ENOTEMPTY := 39
  const ELOOP := 40
  const ENOTSUP := 95
}
