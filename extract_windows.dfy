/** getOptimalBufferSize on Windows: a fixed buffer size whatever the path. */
module ExtractWindows {
  import ExtractUnix
  import opened Common

  function OptimalBufferSize(path: string): (r: int)
    ensures r == 100 * 1024
  {
    100 * 1024
  }

  /** The Windows size does not depend on the path, equals the Unix
      fallback and lies inside the Unix clamp range. */
  lemma WindowsAgreesWithUnix(p: string, q: string, err: Error)
    ensures OptimalBufferSize(p) == OptimalBufferSize(q)
    ensures OptimalBufferSize(p) == ExtractUnix.OptimalBufferSize(ExtractUnix.StatfsFailed(err))
    ensures ExtractUnix.MIN_BUFFER <= OptimalBufferSize(p) <= ExtractUnix.MAX_BUFFER
  {
  }
}
