/** Shared vocabulary. */
module Common {
  datatype Option<+T> = None | Some(value: T)

  /** Where sleep() releases its condition lock: before it enqueues the process, as kernel/proc.c does,
      or after, as docs/design.md says. */
  datatype Order = Coded | Documented
}
