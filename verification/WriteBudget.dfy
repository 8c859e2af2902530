/** The transactions of filewrite (kernel/file.c) against the log's reservation (kernel/log.c). */
module WriteBudget {
  import opened Common
  import opened FsLayout
  import opened FileData
  import opened FileWrite
  import LogBudget
  import Replay

  /** A chunk of filewrite logs at most 7 blocks, with a bitmap of one block; operations that add no more
      than such a chunk never meet log_write's panic, however many there are and however they
      interleave. */
  lemma ChunksFit(L: Replay.Layout, sb: Super, v: Fs, v': Fs, i: nat, off: nat, src: Source,
                  first: nat, n: nat, p: Progress, log: set<nat>)
    requires LogBudget.Roomy(L) && sb.size <= BPB && |src.bytes| <= MAXCHUNK
    requires WriteDone(sb, v, v', i, off, src, first, n, p, {}, log)
    ensures |log| <= 7 && !LogBudget.CanPanic(L, |log|) && !LogBudget.CanPanic(L, 7)
  {
    ChunkLogs(sb, v, v', i, off, src, first, n, p, log);
    LogBudget.BudgetExact(L, |log|);
    LogBudget.BudgetExact(L, 7);
  }
}
