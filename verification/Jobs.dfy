/** Chunk jobs, and the byte window a worker opens for one. */
module Jobs {
  import opened Bytes

  datatype DataType = Text | MultiLine | Json

  /** The fields of a chunk job that decide what is read and what is owned. */
  datatype ChunkJob = ChunkJob(
    dataType: DataType,
    chunk: nat,
    fileSize: int,
    startByte: int,
    endByteInclusive: int,
    maxRecordLengthBytes: int,
    trailingPaddingBytes: int,
    maxBytesPerElement: int)

  datatype RunError =
    | InvalidJob
    | OverlapOverflow
    | MissingElementLimit
    | InvalidRange
    | NoBoundary
    | ReadFailed

  const DEFAULT_MAX_CHUNK_BYTES: int := 64 * 1024 * 1024

  // A configured chunk maximum, or the default when none is set.
  function MaxChunkBytes(configured: int): (m: int)
    ensures m >= 1
  {
    if configured > 0 then configured else DEFAULT_MAX_CHUNK_BYTES
  }

  // The worker's: only a maximum of 0 means the default.
  function WorkerMaximum(configured: int): (m: int)
    ensures configured >= 0 ==> m == MaxChunkBytes(configured)
  {
    if configured == 0 then DEFAULT_MAX_CHUNK_BYTES else configured
  }

  function Length(j: ChunkJob): int { j.endByteInclusive - j.startByte + 1 }

  /** The worker's check of a job, before anything is read. */
  predicate Valid(j: ChunkJob, maxChunkBytes: int) {
    && j.startByte <= j.endByteInclusive
    && Length(j) <= WorkerMaximum(maxChunkBytes)
    && (j.maxRecordLengthBytes > 0 ==>
         0 <= j.trailingPaddingBytes <= j.maxRecordLengthBytes && j.trailingPaddingBytes <= Length(j))
    && (j.dataType.Json? ==> j.maxBytesPerElement >= 1)
  }

  /** First and last byte to read. Text is widened by nine record lengths on
      both sides, JSON by one element; multi-line jobs carry their own padding.
      Arithmetic is the source's: 64 bits, wrapping. */
  function ChunkReadRange(j: ChunkJob): Result<(int, int), RunError> {
    match j.dataType
    case Json =>
      if j.fileSize <= 0 then Ok((j.startByte, j.endByteInclusive))
      else if j.maxBytesPerElement < 1 then Err(MissingElementLimit)
      else Ok(Widened(j, j.maxBytesPerElement))
    case Text =>
      if j.maxRecordLengthBytes == 0 || j.fileSize < 1 then Ok((j.startByte, j.endByteInclusive))
      else
        var overlap := Wrap64(9 * j.maxRecordLengthBytes);
        if Quotient(overlap, j.maxRecordLengthBytes) != 9 then Err(OverlapOverflow)
        else Ok(Widened(j, overlap))
    case MultiLine => Ok((j.startByte, j.endByteInclusive))
  }

  function Widened(j: ChunkJob, overlap: int): (int, int) {
    var start, end := Wrap64(j.startByte - overlap), Wrap64(j.endByteInclusive + overlap);
    (if start < 0 then 0 else start, if end >= j.fileSize then j.fileSize - 1 else end)
  }

  /** The object store's answer to a range request: the bytes, or an error when
      the range is not within the object. */
  function OpenChunkRange(f: seq<byte>, start: int, end: int): Result<seq<byte>, RunError> {
    if start < 0 || end < start || end >= |f| then Err(InvalidRange) else Ok(f[start..end + 1])
  }

  // ---- The overlap in 64 bits ------------------------------------------------

  lemma QuotientBelow(x: int, m: int)
    requires m >= 1 && x < 9 * m
    ensures Quotient(x, m) != 9
  {
  }

  lemma QuotientExact(m: int)
    requires m >= 1
    ensures Quotient(9 * m, m) == 9
  {
    assert 9 * m == m * (9 * m / m) + 9 * m % m;
  }

  /** The division test after the multiplication detects exactly the overlaps
      that do not fit 64 bits. */
  lemma OverlapCheckIff(m: int)
    requires 1 <= m <= MAX_INT64
    ensures Quotient(Wrap64(9 * m), m) == 9 <==> 9 * m <= MAX_INT64
  {
    if 9 * m <= MAX_INT64 { QuotientExact(m); } else { QuotientBelow(Wrap64(9 * m), m); }
  }

  ghost predicate InFile(j: ChunkJob) {
    0 <= j.startByte <= j.endByteInclusive < j.fileSize <= MAX_INT64
  }

  function Max0(x: int): nat { if x > 0 then x else 0 }
  function Min(x: int, y: int): int { if x < y then x else y }

  /** Last byte plus overlap is not checked for overflow. The range that comes
      out is the widened one exactly when that sum fits; otherwise the overlap is
      refused, when it does not fit itself, or the store refuses the range. */
  lemma TextReadRangeIff(j: ChunkJob)
    requires InFile(j) && j.dataType.Text? && 1 <= j.maxRecordLengthBytes <= MAX_INT64
    ensures var overlap := 9 * j.maxRecordLengthBytes;
      if j.endByteInclusive + overlap <= MAX_INT64
      then ChunkReadRange(j) == Ok((Max0(j.startByte - overlap), Min(j.endByteInclusive + overlap, j.fileSize - 1)))
      else if overlap > MAX_INT64 then ChunkReadRange(j) == Err(OverlapOverflow)
      else ChunkReadRange(j).Ok? && ChunkReadRange(j).value.1 < ChunkReadRange(j).value.0
  {
    OverlapCheckIff(j.maxRecordLengthBytes);
  }
}
