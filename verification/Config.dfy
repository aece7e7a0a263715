/** Compile-time configuration of the kernel (kernel/include/config.h and device.h)
    and the error numbers its system calls return (kernel/include/bits/errno.h). */
module Config {
  datatype Option<T> = None | Some(value: T)

  const IDLE_PRIO := 63
  const HIGHEST_PRIO := 0
  const OS_MAX_TASKS := 64
  const OS_AVAIL_TASKS := 62
  const NUM_RUN_GROUP := 8
  const OS_NUM_MUTEX := 32
  const NUM_DEVICES := 4
  const TIME_RESOLUTION := 5

  /** A priority, or the index of a TCB in `system_tcb`. */
  type Slot = x: nat | x < OS_MAX_TASKS

  type MutexId = m: nat | m < OS_NUM_MUTEX

  const EPERM := 1
  const ENOMEM := 12
  const EFAULT := 14
  const EINVAL := 22
  const EDEADLOCK := 58
  const EHOLDSLOCK := 60
  const ESCHED := 100

  /** Period of each simulated device, in milliseconds. */
  function DevFreq(d: nat): (f: nat)
    requires d < NUM_DEVICES
    ensures TIME_RESOLUTION <= f
  {
    if d == 0 then 100 else if d == 1 then 200 else if d == 2 then 500 else 50
  }
}
