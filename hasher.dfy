/**
 The block-reading hash loop `calculate_sha256`, which both pipelines share.
 The file is its byte content; SHA-256 itself is the caller's `digest`
 function, left uninterpreted: the model only tracks which bytes are fed to it.
 */
module Hasher {

  type Byte = bv8
  type Bytes = seq<Byte>

  /** The size of each `read` the hash loop asks for. */
  const BlockSize: nat := 4096

  function Min(a: nat, b: nat): nat
  {
    if a <= b then a else b
  }

  /** The content cut into the pieces that successive `read(BlockSize)` calls return. */
  function Chunks(data: Bytes): seq<Bytes>
    decreases |data|
  {
    if data == [] then []
    else
      var n := Min(BlockSize, |data|);
      [data[..n]] + Chunks(data[n..])
  }

  /** The blocks concatenated in order. */
  function Flatten(blocks: seq<Bytes>): Bytes
  {
    if blocks == [] then [] else blocks[0] + Flatten(blocks[1..])
  }

  /** Concatenating the blocks gives back the whole content. */
  lemma {:induction false} ChunksFlatten(data: Bytes)
    ensures Flatten(Chunks(data)) == data
    decreases |data|
  {
    if data != [] {
      var n := Min(BlockSize, |data|);
      ChunksFlatten(data[n..]);
      assert data == data[..n] + data[n..];
    }
  }

  /** Every block is non-empty and at most BlockSize long; all but the last are full. */
  lemma {:induction false} ChunksBounded(data: Bytes)
    ensures forall i :: 0 <= i < |Chunks(data)| ==> 0 < |Chunks(data)[i]| <= BlockSize
    ensures forall i :: 0 <= i < |Chunks(data)| - 1 ==> |Chunks(data)[i]| == BlockSize
    ensures |Chunks(data)| == (|data| + BlockSize - 1) / BlockSize
    decreases |data|
  {
    if data != [] {
      var n := Min(BlockSize, |data|);
      ChunksBounded(data[n..]);
      var rest := Chunks(data[n..]);
      assert Chunks(data) == [data[..n]] + rest;
      forall i | 0 <= i < |Chunks(data)| - 1
        ensures |Chunks(data)[i]| == BlockSize
      {
        if i == 0 {
          assert rest != [];
          assert |data| > BlockSize;
        } else {
          assert Chunks(data)[i] == rest[i - 1];
        }
      }
    }
  }

  /** A file opened for binary reading: its bytes and the current read position. */
  class Reader {
    const data: Bytes
    var pos: nat

    ghost predicate Valid()
      reads this
    {
      pos <= |data|
    }

    constructor (data: Bytes)
      ensures Valid() && this.data == data && pos == 0
    {
      this.data := data;
      pos := 0;
    }

    /** `read(n)`: the next at most `n` bytes; empty exactly at end of file. */
    method Read(n: nat) returns (block: Bytes)
      requires Valid()
      modifies this
      ensures Valid()
      ensures block == data[old(pos)..old(pos) + Min(n, |data| - old(pos))]
      ensures pos == old(pos) + |block|
    {
      var k := Min(n, |data| - pos);
      block := data[pos..pos + k];
      pos := pos + k;
    }
  }

  /** The incremental digest object: what matters is the byte sequence fed so far. */
  class Sha256 {
    const digest: Bytes -> string
    var fed: Bytes

    constructor (digest: Bytes -> string)
      ensures this.digest == digest && fed == []
    {
      this.digest := digest;
      fed := [];
    }

    method Update(block: Bytes)
      modifies this
      ensures fed == old(fed) + block
    {
      fed := fed + block;
    }

    function HexDigest(): string
      reads this
    {
      digest(fed)
    }
  }

  /** One more read peels the next block off the unread rest. */
  lemma ChunksStep(contents: Bytes, done: nat, block: Bytes)
    requires done < |contents|
    requires block == contents[done..done + Min(BlockSize, |contents| - done)]
    ensures Chunks(contents[done..]) == [block] + Chunks(contents[done + |block|..])
    ensures contents[..done] + block == contents[..done + |block|]
  {
    var rest := contents[done..];
    assert rest[..|block|] == block;
    assert rest[|block|..] == contents[done + |block|..];
  }

  /**
   `calculate_sha256`: read blocks until the first empty read, feeding each to
   the accumulator. The blocks read are returned beside the hex digest so that
   the contract can say how the file was cut.
   */
  method CalculateSha256(contents: Bytes, digest: Bytes -> string) returns (hex: string, blocks: seq<Bytes>)
    ensures blocks == Chunks(contents)
    ensures hex == digest(contents)
  {
    var hash := new Sha256(digest);
    var f := new Reader(contents);
    blocks := [];
    ghost var done := 0;
    var block := f.Read(BlockSize);
    while block != []
      invariant f.Valid() && f.data == contents && hash.digest == digest
      invariant done + |block| == f.pos
      invariant block == contents[done..done + Min(BlockSize, |contents| - done)]
      invariant hash.fed == contents[..done]
      invariant Chunks(contents) == blocks + Chunks(contents[done..])
      decreases |contents| - done
    {
      ChunksStep(contents, done, block);
      hash.Update(block);
      blocks := blocks + [block];
      done := f.pos;
      block := f.Read(BlockSize);
    }
    assert contents[..done] == contents;
    hex := hash.HexDigest();
  }

}
