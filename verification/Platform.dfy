/** Constants shared by the modules: the number of sessions, and error numbers. */
module Platform {
  const SESSIONS := 28

  const ENOENT := 2
  const EBADF := 9
  const EAGAIN := 11
  const ENOMEM := 12
  const EFAULT := 14
  const EEXIST := 17
  const ENODEV := 19
  const EINVAL := 22
  const EPIPE := 32
  const EPROTO := 71
  const ERESTARTSYS := 512
}
