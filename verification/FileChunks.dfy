/** Cutting a file into packets (common/include/filesystem/file.hpp, fileChunk.hpp). */
module FileChunks {
  import opened Bytes

  const DEFAULT_FILE_CHUNK_SIZE: nat := 65536

  datatype FileChunk = FileChunk(data: Bytes, numPacket: nat, totalPackets: nat) {
    predicate IsLastChunk() {
      numPacket == totalPackets
    }
  }

  function TotalPackets(fileSize: nat, chunkSize: nat): nat
    requires chunkSize > 0
  {
    fileSize / chunkSize + if fileSize % chunkSize != 0 then 1 else 0
  }

  lemma MultipleBound(k: int, c: int)
    requires c > 0
    ensures k >= 1 ==> k * c >= c
    ensures k <= -1 ==> k * c <= -c
  {}

  lemma DivideUniquely(n: nat, c: nat, q: int, r: int)
    requires c > 0 && n == q * c + r && 0 <= r < c
    ensures n / c == q && n % c == r
  {
    var d := n / c - q;
    assert n == (n / c) * c + n % c;
    assert d * c == (n / c) * c - q * c;
    MultipleBound(d, c);
  }

  lemma DivStep(n: nat, c: nat)
    requires n >= c > 0
    ensures n / c == (n - c) / c + 1
    ensures n % c == (n - c) % c
  {
    var q, r := (n - c) / c, (n - c) % c;
    assert n - c == q * c + r;
    assert (q + 1) * c == q * c + c;
    DivideUniquely(n, c, q + 1, r);
  }

  lemma TotalPacketsStep(n: nat, c: nat)
    requires n > 0 && c > 0
    ensures n > c ==> TotalPackets(n, c) == TotalPackets(n - c, c) + 1
    ensures n <= c ==> TotalPackets(n, c) == 1
    ensures TotalPackets(n, c) >= 1
  {
    if n >= c {
      DivStep(n, c);
      assert n == c ==> (n - c) / c == 0 && (n - c) % c == 0;
    }
  }

  lemma {:induction false} TotalPacketsBound(n: nat, c: nat)
    requires c > 0
    ensures TotalPackets(n, c) <= n
    decreases n
  {
    if n > 0 {
      TotalPacketsStep(n, c);
      if n > c { TotalPacketsBound(n - c, c); }
    }
  }

  /** The number of packets is the ceiling of size / chunkSize. */
  lemma {:induction false} TotalPacketsIsCeiling(n: nat, c: nat)
    requires c > 0
    ensures n <= TotalPackets(n, c) * c < n + c
    decreases n
  {
    if n > c {
      TotalPacketsStep(n, c);
      TotalPacketsIsCeiling(n - c, c);
      assert TotalPackets(n, c) * c == TotalPackets(n - c, c) * c + c;
    } else if n > 0 {
      TotalPacketsStep(n, c);
    }
  }

  /** The chunks of the unread part of a file, numbered from `num`. */
  function ChunksFrom(unread: Bytes, num: nat, total: nat, chunkSize: nat): seq<FileChunk>
    requires chunkSize > 0
    decreases |unread|
  {
    if unread == [] then [] else
      var n := Min(chunkSize, |unread|);
      [FileChunk(unread[..n], num, total)] + ChunksFrom(unread[n..], num + 1, total, chunkSize)
  }

  function Chunks(content: Bytes, chunkSize: nat): seq<FileChunk>
    requires chunkSize > 0
  {
    ChunksFrom(content, 1, TotalPackets(|content|, chunkSize), chunkSize)
  }

  function Concat(chunks: seq<FileChunk>): Bytes {
    if chunks == [] then [] else chunks[0].data + Concat(chunks[1..])
  }

  lemma {:induction false} ChunksFromCount(unread: Bytes, num: nat, total: nat, c: nat)
    requires c > 0
    ensures |ChunksFrom(unread, num, total, c)| == TotalPackets(|unread|, c)
    decreases |unread|
  {
    hide TotalPackets, ChunksFrom;
    ChunksFromStep(unread, num, total, c);
    if unread == [] {
      TotalPacketsBound(0, c);
    } else {
      var n := Min(c, |unread|);
      ChunksFromCount(unread[n..], num + 1, total, c);
      TotalPacketsStep(|unread|, c);
      TotalPacketsBound(0, c);
    }
  }

  lemma {:induction false} ChunksFromConcat(unread: Bytes, num: nat, total: nat, c: nat)
    requires c > 0
    ensures Concat(ChunksFrom(unread, num, total, c)) == unread
    decreases |unread|
  {
    hide ChunksFrom;
    ChunksFromStep(unread, num, total, c);
    if unread != [] {
      var n := Min(c, |unread|);
      var rest := ChunksFrom(unread[n..], num + 1, total, c);
      ChunksFromConcat(unread[n..], num + 1, total, c);
      assert ([FileChunk(unread[..n], num, total)] + rest)[1..] == rest;
      assert unread == unread[..n] + unread[n..];
    }
  }

  lemma {:induction false} ChunksFromShape(unread: Bytes, num: nat, total: nat, c: nat)
    requires c > 0
    ensures var cs := ChunksFrom(unread, num, total, c);
      && (forall i | 0 <= i < |cs| :: cs[i].numPacket == num + i && cs[i].totalPackets == total)
      && (forall i | 0 <= i < |cs| :: 0 < |cs[i].data| <= c)
      && (forall i | 0 <= i < |cs| - 1 :: |cs[i].data| == c)
    decreases |unread|
  {
    hide ChunksFrom;
    ChunksFromStep(unread, num, total, c);
    if unread != [] {
      var n := Min(c, |unread|);
      var rest := ChunksFrom(unread[n..], num + 1, total, c);
      var cs := [FileChunk(unread[..n], num, total)] + rest;
      ChunksFromShape(unread[n..], num + 1, total, c);
      ChunksFromStep(unread[n..], num + 1, total, c);
      assert rest != [] ==> n == c;
      forall i | 0 < i < |cs|
        ensures cs[i] == rest[i - 1]
      {}
    }
  }

  /**
   * Exactly ceil(size / chunkSize) non-empty chunks, all full but perhaps the last, that
   * concatenate to the file; the last one and only the last one says it is the last.
   */
  lemma ChunksPartitionFile(content: Bytes, c: nat)
    requires c > 0
    ensures var cs := Chunks(content, c);
      && |cs| == TotalPackets(|content|, c)
      && |content| <= |cs| * c < |content| + c
      && Concat(cs) == content
      && (forall i | 0 <= i < |cs| :: 0 < |cs[i].data| <= c)
      && (forall i | 0 <= i < |cs| - 1 :: |cs[i].data| == c)
      && (forall i | 0 <= i < |cs| :: cs[i].numPacket == i + 1 && cs[i].totalPackets == |cs|)
      && (forall i | 0 <= i < |cs| :: cs[i].IsLastChunk() <==> i == |cs| - 1)
  {
    hide TotalPackets, ChunksFrom, Chunks;
    var total := TotalPackets(|content|, c);
    ChunksDefinition(content, c);
    ChunksFromCount(content, 1, total, c);
    ChunksFromConcat(content, 1, total, c);
    ChunksFromShape(content, 1, total, c);
    TotalPacketsIsCeiling(|content|, c);
  }

  lemma ChunkCount(content: Bytes, c: nat)
    requires c > 0
    ensures |Chunks(content, c)| == TotalPackets(|content|, c)
  {
    ChunksFromCount(content, 1, TotalPackets(|content|, c), c);
  }

  lemma ChunksDefinition(content: Bytes, chunkSize: nat)
    requires chunkSize > 0
    ensures Chunks(content, chunkSize) == ChunksFrom(content, 1, TotalPackets(|content|, chunkSize), chunkSize)
  {}

  lemma ChunksFromStep(unread: Bytes, num: nat, total: nat, chunkSize: nat)
    requires chunkSize > 0
    ensures var n := Min(chunkSize, |unread|);
      ChunksFrom(unread, num, total, chunkSize) == if unread == [] then [] else
        [FileChunk(unread[..n], num, total)] + ChunksFrom(unread[n..], num + 1, total, chunkSize)
  {}

  lemma SuffixSplits(content: Bytes, p: nat, n: nat)
    requires p + n <= |content|
    ensures content[p..p + n] == content[p..][..n]
    ensures content[p + n..] == content[p..][n..]
  {}

  lemma AppendOne(done: seq<FileChunk>, chunk: FileChunk, rest: seq<FileChunk>)
    ensures done + ([chunk] + rest) == (done + [chunk]) + rest
  {}

  /** An opened file: what the disk holds and how far the stream has read. */
  class File {
    const content: Bytes
    var position: nat

    constructor (content: Bytes)
      ensures this.content == content && position == 0
    {
      this.content, position := content, 0;
    }

    ghost predicate Valid()
      reads this
    {
      position <= |content|
    }

    method GetChunkData(chunkSize: nat) returns (buffer: Bytes)
      requires Valid()
      modifies this
      ensures Valid() && old(position) <= position
      ensures buffer == content[old(position)..position]
      ensures position == old(position) + Min(chunkSize, |content| - old(position))
    {
      var gcount := Min(chunkSize, |content| - position);
      buffer := content[position..position + gcount];
      position := position + gcount;
    }

    /** The loop of readFile, with the chunks it passes to its callback as the result. */
    method ReadFile(chunkSize: nat) returns (chunks: seq<FileChunk>)
      requires Valid() && position == 0 && chunkSize > 0
      modifies this
      ensures chunks == Chunks(content, chunkSize)
    {
      hide TotalPackets, ChunksFrom, Chunks;
      var totalPackets := TotalPackets(|content|, chunkSize);
      ChunksDefinition(content, chunkSize);
      ChunkCount(content, chunkSize);
      ghost var all := Chunks(content, chunkSize);
      chunks := [];
      var i := 1;
      assert content[position..] == content;
      while i <= totalPackets
        invariant Valid() && |chunks| == i - 1 <= totalPackets
        invariant all == chunks + ChunksFrom(content[position..], i, totalPackets, chunkSize)
      {
        ChunksFromStep(content[position..], i, totalPackets, chunkSize);
        SuffixSplits(content, position, Min(chunkSize, |content| - position));
        var data := GetChunkData(chunkSize);
        AppendOne(
          chunks, FileChunk(data, i, totalPackets), ChunksFrom(content[position..], i + 1, totalPackets, chunkSize));
        chunks := chunks + [FileChunk(data, i, totalPackets)];
        i := i + 1;
      }
      assert |ChunksFrom(content[position..], i, totalPackets, chunkSize)| == 0;
    }
  }
}
