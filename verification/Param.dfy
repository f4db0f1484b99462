/** The kernel's sizes. */
module Param {
  const NPROC := 64                     // maximum number of processes
  const MAXOPBLOCKS := 10               // max # of blocks any FS op writes
  const LOGSIZE := MAXOPBLOCKS * 3      // max data blocks in on-disk log
  const NBUF := MAXOPBLOCKS * 3         // size of disk block cache
}
