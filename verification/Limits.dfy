/** The limits of include/dpthread.h and src/dpthread.c. */
module Limits {
  const MAX_THR: nat := 128
  const MAX_LOGICAL_CLOCK: nat := 20000000000000
}
