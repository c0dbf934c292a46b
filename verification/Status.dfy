/** Status codes and syscall numbers shared by the kernel and its clients (kernel/syscalls.h). */
module Status {
  import opened Words

  const STATUS_OK: i32 := 0
  const STATUS_INVALID_ARGUMENT: i32 := -1
  const STATUS_BAD_HANDLE: i32 := -2
  const STATUS_WRONG_TYPE: i32 := -3
  const STATUS_BUFFER_TOO_SMALL: i32 := -4
  const STATUS_PEER_CLOSED: i32 := -5
  const STATUS_WOULD_BLOCK: i32 := -6
  const STATUS_NO_MEMORY: i32 := -8
  const STATUS_FAULT: i32 := -9
  const STATUS_NOT_SUPPORTED: i32 := -10
  const STATUS_BAD_STATE: i32 := -11
  const STATUS_NOT_FOUND: i32 := -12

  const SYSCALL_DEBUG_LOG: u64 := 1
  const SYSCALL_THREAD_EXIT: u64 := 2
  const SYSCALL_RPC_REGISTER: u64 := 3
  const SYSCALL_RPC_OPEN: u64 := 4
  const SYSCALL_RPC_CALL: u64 := 5
  const SYSCALL_DEVICE_MEMORY_MAP: u64 := 6
  const SYSCALL_RPC_CLOSE: u64 := 7
  const SYSCALL_RPC_COMPLETE: u64 := 8
}
