/** The kernel's bit numbers for access rights and mount attributes, as
    landlock_compat.h and linux/mount.h number them. */
module LandlockBits {
  const FS_EXECUTE: nat := 0
  const FS_WRITE_FILE: nat := 1
  const FS_READ_FILE: nat := 2
  const FS_READ_DIR: nat := 3
  const FS_REMOVE_DIR: nat := 4
  const FS_REMOVE_FILE: nat := 5
  const FS_MAKE_CHAR: nat := 6
  const FS_MAKE_DIR: nat := 7
  const FS_MAKE_REG: nat := 8
  const FS_MAKE_SOCK: nat := 9
  const FS_MAKE_FIFO: nat := 10
  const FS_MAKE_BLOCK: nat := 11
  const FS_MAKE_SYM: nat := 12
  const FS_REFER: nat := 13
  const FS_TRUNCATE: nat := 14
  const FS_IOCTL_DEV: nat := 15

  const NET_BIND_TCP: nat := 0
  const NET_CONNECT_TCP: nat := 1

  const ATTR_RDONLY: nat := 0
  const ATTR_NOSUID: nat := 1
  const ATTR_NODEV: nat := 2
  const ATTR_NOEXEC: nat := 3
}
