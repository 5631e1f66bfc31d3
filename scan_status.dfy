/**
 * What the two scan threads, the one in lus4n/gui.py and the one in
 * lus4n/ui/scan_thread.py, have in common: the status-bar messages they send,
 * the default extension list, and the cooperative stop flag they poll once
 * before every file of both phases.
 */
module ScanStatus {
  import opened Wrappers
  import opened Lus4nGraph

  // Status-bar messages
  const SCANNING: string := "正在扫描..."
  const ABORTED: string := "扫描已中止"
  const FINISHED: string := "扫描完成"
  const FAILED: string := "扫描出错"

  /**
   * Whether a phase whose polls are numbered base .. base + n - 1 sees the
   * flag set: the flag was already set, or `stop` landed before one of the
   * polls (`stopAt` is the number of the first poll after it).
   */
  predicate StopDuring(stoppedBefore: bool, stopAt: Option<nat>, base: nat, n: nat) {
    n > 0 && (stoppedBefore || (stopAt.Some? && stopAt.value < base + n))
  }

  /** The extensions a scan uses: the given ones, or `.lua` when none are given. */
  function EffectiveExtensions(exts: seq<string>): (r: seq<string>)
    ensures r != []
    ensures exts != [] ==> r == exts
    ensures exts == [] ==> r == [".lua"]
  {
    if exts == [] then DEFAULT_EXTENSIONS else exts
  }
}
