/** The kernel's sizes (kernel/param.h). */
module Param {
  const NPROC := 64
  const ROOTDEV := 1
  const MAXOPBLOCKS := 10
  const LOGSIZE := 3 * MAXOPBLOCKS
  const NBUF := 3 * MAXOPBLOCKS
}
