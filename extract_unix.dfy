/** getOptimalBufferSize on Linux and macOS: 128 file-system blocks,
    clamped to [64 KiB, 4 MiB], with a 100 KiB fallback when the file
    system cannot be queried. */
module ExtractUnix {
  import opened Common

  const FALLBACK: int := 100 * 1024
  const MIN_BUFFER: int := 64 * 1024
  const MAX_BUFFER: int := 4 * 1024 * 1024

  /** What unix.Statfs reports for the destination: an error, or the
      block size field Bsize (an int64 on Linux). */
  datatype StatfsResult = StatfsFailed(err: Error) | Statfs(bsize: int64)

  /** blockSize * 128 as Go computes it on int: wrapped to 64 bits. */
  function Candidate(bsize: int64): int64
  {
    Wrap64(bsize * 128)
  }

  function OptimalBufferSize(stat: StatfsResult): (r: int)
    ensures stat.StatfsFailed? ==> r == FALLBACK
    ensures stat.Statfs? ==> MIN_BUFFER <= r <= MAX_BUFFER
    ensures stat.Statfs? && MIN_BUFFER <= Candidate(stat.bsize) <= MAX_BUFFER ==>
      r == Candidate(stat.bsize)
    ensures stat.Statfs? && Candidate(stat.bsize) < MIN_BUFFER ==> r == MIN_BUFFER
    ensures stat.Statfs? && Candidate(stat.bsize) > MAX_BUFFER ==> r == MAX_BUFFER
  {
    match stat
    case StatfsFailed(_) => FALLBACK
    case Statfs(bsize) =>
      var bufferSize := Candidate(bsize);
      if bufferSize < MIN_BUFFER then MIN_BUFFER
      else if bufferSize > MAX_BUFFER then MAX_BUFFER
      else bufferSize
  }

  /** Without wrap-around (block sizes below 2^56), a larger block never
      gives a smaller buffer. */
  lemma BufferSizeMonotone(b1: int64, b2: int64)
    requires 0 <= b1 <= b2 < 0x100_0000_0000_0000
    ensures OptimalBufferSize(Statfs(b1)) <= OptimalBufferSize(Statfs(b2))
  {
    assert Candidate(b1) == b1 * 128 && Candidate(b2) == b2 * 128;
  }

  /** Block sizes from 512 bytes to 32 KiB give exactly 128 blocks. */
  lemma BufferSizeIsBlocks(b: int64)
    requires 512 <= b <= 32 * 1024
    ensures OptimalBufferSize(Statfs(b)) == b * 128
  {
    assert Candidate(b) == b * 128;
  }

  /** A block size so large that blockSize * 128 wraps to a negative int
      gives the 64 KiB floor, not the 4 MiB ceiling. */
  lemma HugeBlockWrapsToFloor()
    ensures OptimalBufferSize(Statfs(0x0100_0000_0000_0000)) == MIN_BUFFER
  {
    assert 0x0100_0000_0000_0000 * 128 == 0x8000_0000_0000_0000;
    assert Candidate(0x0100_0000_0000_0000) == INT64_MIN;
  }
}
