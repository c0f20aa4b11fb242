/** Cutting a snapshot into chunks and putting it together again (Save in
    pkg/snapstore/s3_snapstore.go and pkg/snapstore/gcs_snapstore.go). */
module ChunkedUpload {

  /** The smallest chunk size that a validated configuration allows: 5 MiB. */
  const MIN_CHUNK_SIZE := 5 * 1024 * 1024
  const S3_NO_OF_CHUNK := 9999
  const GCS_NO_OF_CHUNK := 31

  type byte = b: int | 0 <= b < 256

  datatype Chunk = Chunk(id: int, offset: int, size: int, attempt: nat)

  function ChunkSize(size: int, minChunkSize: int, limit: int): int
    requires limit > 0
  {
    if minChunkSize >= size / limit then minChunkSize else size / limit
  }

  function NoOfChunks(size: int, chunkSize: int): int
    requires chunkSize > 0
  {
    size / chunkSize + if size % chunkSize != 0 then 1 else 0
  }

  /** The chunks of a snapshot, in the order they are sent. */
  ghost predicate AreChunks(chunks: seq<Chunk>, size: int, chunkSize: int) {
    && (forall k :: 0 <= k < |chunks| ==> chunks[k] == Chunk(k + 1, k * chunkSize, chunkSize, 0))
    && (|chunks| - 1) * chunkSize < size <= |chunks| * chunkSize
  }

  /** Sends one chunk after the other; the number of chunks is the one computed before, which
      is the capacity of the channels. */
  method EmitChunks(size: int, chunkSize: int) returns (chunks: seq<Chunk>)
    requires size > 0 && chunkSize > 0
    ensures AreChunks(chunks, size, chunkSize)
    ensures |chunks| == NoOfChunks(size, chunkSize)
  {
    chunks := [];
    var offset, index := 0, 1;
    while offset < size
      invariant index == |chunks| + 1
      invariant offset == |chunks| * chunkSize
      invariant chunks == [] || (|chunks| - 1) * chunkSize < size
      invariant forall k :: 0 <= k < |chunks| ==> chunks[k] == Chunk(k + 1, k * chunkSize, chunkSize, 0)
      decreases size - offset
    {
      chunks := chunks + [Chunk(index, offset, chunkSize, 0)];
      ProductStep(|chunks| - 1, chunkSize);
      offset := offset + chunkSize;
      index := index + 1;
    }
    CountOfChunks(size, chunkSize, |chunks|);
  }

  lemma ProductStep(k: int, d: int)
    ensures (k + 1) * d == k * d + d
  {
  }

  lemma QuotientUnique(x: int, d: int, q: int)
    requires d > 0 && q * d <= x < (q + 1) * d
    ensures x / d == q
  {
    var r := x - x / d * d;
    assert 0 <= r < d && x == x / d * d + r;
    if x / d < q {
      assert x / d + 1 <= q;
      MultiplyMonotone(x / d + 1, q, d);
      ProductStep(x / d, d);
      assert false;
    } else if x / d > q {
      MultiplyMonotone(q + 1, x / d, d);
      assert false;
    }
  }

  lemma MultiplyMonotone(a: int, b: int, d: int)
    requires a <= b && d >= 0
    ensures a * d <= b * d
  {
  }

  lemma CountOfChunks(size: int, chunkSize: int, n: int)
    requires chunkSize > 0 && (n - 1) * chunkSize < size <= n * chunkSize
    ensures NoOfChunks(size, chunkSize) == n
  {
    ProductStep(n - 1, chunkSize);
    if size == n * chunkSize {
      ProductStep(n, chunkSize);
      QuotientUnique(size, chunkSize, n);
      assert size % chunkSize == size - size / chunkSize * chunkSize;
    } else {
      QuotientUnique(size, chunkSize, n - 1);
      assert size % chunkSize == size - size / chunkSize * chunkSize;
    }
  }

  /** For a validated minimal chunk size there is at most one chunk more than the limit. Chunks are
      not smaller than that, and not larger unless there are as many as the limit. */
  lemma ChunkBound(size: int, minChunkSize: int, limit: int)
    requires size > 0 && minChunkSize >= MIN_CHUNK_SIZE && 0 < limit <= MIN_CHUNK_SIZE
    ensures 1 <= NoOfChunks(size, ChunkSize(size, minChunkSize, limit)) <= limit + 1
    ensures ChunkSize(size, minChunkSize, limit) >= minChunkSize
    ensures ChunkSize(size, minChunkSize, limit) > minChunkSize ==>
              NoOfChunks(size, ChunkSize(size, minChunkSize, limit)) >= limit
  {
    var chunkSize := ChunkSize(size, minChunkSize, limit);
    var q := size / limit;
    assert size < q * limit + limit by { assert size == q * limit + size % limit; }
    MultiplyMonotone(q, chunkSize, limit);
    ProductStep(limit, chunkSize);
    assert size < (limit + 1) * chunkSize;
    QuotientBelow(size, chunkSize, limit + 1);
    if chunkSize > minChunkSize {
      assert q * limit <= size by { assert size == q * limit + size % limit; }
      QuotientAbove(size, chunkSize, limit);
    }
  }

  lemma QuotientAbove(size: int, d: int, n: int)
    requires d > 0 && d * n <= size
    ensures NoOfChunks(size, d) >= n
  {
    var q := size / d;
    assert size == q * d + size % d;
    if q < n {
      MultiplyMonotone(q + 1, n, d);
      ProductStep(q, d);
    }
  }

  /** That makes at most 10000 parts for S3 and 32 components for GCS, which is what these stores
      accept. */
  lemma StoreLimits(size: int, minChunkSize: int)
    requires size > 0 && minChunkSize >= MIN_CHUNK_SIZE
    ensures 1 <= NoOfChunks(size, ChunkSize(size, minChunkSize, S3_NO_OF_CHUNK)) <= 10000
    ensures 1 <= NoOfChunks(size, ChunkSize(size, minChunkSize, GCS_NO_OF_CHUNK)) <= 32
  {
    ChunkBound(size, minChunkSize, S3_NO_OF_CHUNK);
    ChunkBound(size, minChunkSize, GCS_NO_OF_CHUNK);
  }

  lemma QuotientBelow(size: int, d: int, n: int)
    requires d > 0 && 0 < size < n * d
    ensures 1 <= NoOfChunks(size, d) <= n
  {
    var q := size / d;
    assert size == q * d + size % d;
    if q >= n {
      MultiplyMonotone(n, q, d);
      assert false;
    }
    if q < 0 {
      MultiplyMonotone(q, -1, d);
      assert false;
    }
  }

  // ---------------------------------------------------------------------------
  // Parts
  // ---------------------------------------------------------------------------

  /** The bytes a worker reads for a chunk. */
  function Section(file: seq<byte>, chunk: Chunk): seq<byte>
    requires 0 <= chunk.offset <= |file| && chunk.size >= 0
  {
    var rest := |file| - chunk.offset;
    file[chunk.offset..chunk.offset + if rest > chunk.size then chunk.size else rest]
  }

  /** The number under which a worker uploads a chunk. */
  function PartNumber(chunk: Chunk): int
    requires chunk.size > 0
  {
    chunk.offset / chunk.size + 1
  }

  /** The section of a chunk is stored under its id. */
  predicate HoldsSection(parts: map<int, seq<byte>>, file: seq<byte>, chunk: Chunk) {
    && chunk.id in parts && 0 <= chunk.offset <= |file| && chunk.size >= 0
    && parts[chunk.id] == Section(file, chunk)
  }

  /** The object that the store makes of the parts 1 to n. */
  function Reassemble(parts: map<int, seq<byte>>, n: nat): seq<byte>
    requires forall k :: 1 <= k <= n ==> k in parts
  {
    if n == 0 then [] else Reassemble(parts, n - 1) + parts[n]
  }

  /** Part numbers are the ids 1 to n, each once. */
  lemma PartNumberIsId(chunks: seq<Chunk>, size: int, chunkSize: int, k: nat)
    requires chunkSize > 0 && AreChunks(chunks, size, chunkSize) && k < |chunks|
    ensures PartNumber(chunks[k]) == chunks[k].id == k + 1
    ensures 0 <= chunks[k].offset < size
  {
    ProductStep(k, chunkSize);
    QuotientUnique(k * chunkSize, chunkSize, k);
    MultiplyMonotone(0, k, chunkSize);
    MultiplyMonotone(k, |chunks| - 1, chunkSize);
  }

  lemma SectionOf(file: seq<byte>, chunkSize: int, chunks: seq<Chunk>, k: nat)
    requires chunkSize > 0 && AreChunks(chunks, |file|, chunkSize) && k < |chunks|
    ensures 0 <= k * chunkSize < |file|
    ensures var end := if k + 1 < |chunks| then (k + 1) * chunkSize else |file|;
            k * chunkSize < end <= |file| && Section(file, chunks[k]) == file[k * chunkSize..end]
  {
    PartNumberIsId(chunks, |file|, chunkSize, k);
    ProductStep(k, chunkSize);
    if k + 1 < |chunks| {
      MultiplyMonotone(k + 1, |chunks| - 1, chunkSize);
    }
  }

  /** The uploaded sections, put together by part number, are the file. */
  lemma ReassembledIsFile(file: seq<byte>, chunkSize: int, chunks: seq<Chunk>, parts: map<int, seq<byte>>)
    requires chunkSize > 0 && AreChunks(chunks, |file|, chunkSize)
    requires forall k :: 0 <= k < |chunks| ==> HoldsSection(parts, file, chunks[k])
    ensures (forall k :: 1 <= k <= |chunks| ==> k in parts) && Reassemble(parts, |chunks|) == file
  {
    forall k | 1 <= k <= |chunks| ensures k in parts {
      assert chunks[k - 1].id == k;
    }
    ReassembledPrefix(file, chunkSize, chunks, parts, |chunks|);
  }

  lemma {:induction false} ReassembledPrefix(file: seq<byte>, chunkSize: int, chunks: seq<Chunk>,
                                              parts: map<int, seq<byte>>, n: nat)
    requires chunkSize > 0 && AreChunks(chunks, |file|, chunkSize) && n <= |chunks|
    requires forall k :: 1 <= k <= |chunks| ==> k in parts
    requires forall k :: 0 <= k < |chunks| ==> HoldsSection(parts, file, chunks[k])
    ensures var end := if n < |chunks| then n * chunkSize else |file|;
            0 <= end <= |file| && Reassemble(parts, n) == file[..end]
  {
    if n > 0 {
      ReassembledPrefix(file, chunkSize, chunks, parts, n - 1);
      SectionOf(file, chunkSize, chunks, n - 1);
      assert HoldsSection(parts, file, chunks[n - 1]);
    }
  }
}
