// Disk blocks (kernel/fs.h, kernel/param.h): BSIZE bytes, read by some as 32-bit words.
module DiskBlocks {
  const BSIZE: nat := 1024
  const WORDS: nat := BSIZE / 4
  const MAXOPBLOCKS: nat := 10
  const LOGSIZE: nat := 3 * MAXOPBLOCKS
  const NBUF: nat := 3 * MAXOPBLOCKS

  type Block = seq<nat>

  // Word j of a block, the low byte first.
  function Word(blk: Block, j: nat): nat
    requires |blk| == BSIZE && j < WORDS
  {
    blk[4 * j] + 0x100 * blk[4 * j + 1] + 0x1_0000 * blk[4 * j + 2] + 0x100_0000 * blk[4 * j + 3]
  }

  lemma SplitWord(v: nat)
    ensures v == v % 0x100 + 0x100 * (v / 0x100 % 0x100) + 0x1_0000 * (v / 0x1_0000 % 0x100)
                 + 0x100_0000 * (v / 0x100_0000)
  {
    assert v / 0x1_0000 == v / 0x100 / 0x100;
    assert v / 0x100_0000 == v / 0x1_0000 / 0x100;
  }

  function PutWord(blk: Block, j: nat, v: nat): (r: Block)
    requires |blk| == BSIZE && j < WORDS && v < 0x1_0000_0000
    ensures |r| == BSIZE
    ensures forall i :: 0 <= i < WORDS ==> Word(r, i) == if i == j then v else Word(blk, i)
  {
    SplitWord(v);
    blk[4 * j := v % 0x100][4 * j + 1 := v / 0x100 % 0x100]
       [4 * j + 2 := v / 0x1_0000 % 0x100][4 * j + 3 := v / 0x100_0000]
  }

  // All of vs fit into 32 bits.
  ghost predicate Fit32(vs: seq<nat>) {
    forall i :: 0 <= i < |vs| ==> vs[i] < 0x1_0000_0000
  }

  // The words vs stored from word j on.
  function PutWords(blk: Block, j: nat, vs: seq<nat>): (r: Block)
    requires |blk| == BSIZE && j + |vs| <= WORDS && Fit32(vs)
    ensures |r| == BSIZE
    ensures forall i :: 0 <= i < WORDS ==> Word(r, i) == if j <= i < j + |vs| then vs[i - j] else Word(blk, i)
    decreases |vs|
  {
    if vs == [] then blk
    else PutWord(PutWords(blk, j, vs[..|vs| - 1]), j + |vs| - 1, vs[|vs| - 1])
  }

  lemma PutWordsNext(blk: Block, j: nat, vs: seq<nat>, v: nat)
    requires |blk| == BSIZE && j + |vs| < WORDS && Fit32(vs) && v < 0x1_0000_0000
    ensures Fit32(vs + [v]) && PutWords(blk, j, vs + [v]) == PutWord(PutWords(blk, j, vs), j + |vs|, v)
  {
    assert (vs + [v])[..|vs|] == vs;
  }

  // The words lo .. hi of a block.
  function WordsOf(blk: Block, lo: nat, hi: nat): (r: seq<nat>)
    requires |blk| == BSIZE && lo <= hi <= WORDS
    ensures |r| == hi - lo && forall i :: 0 <= i < hi - lo ==> r[i] == Word(blk, lo + i)
  {
    seq<nat>(hi - lo, i requires 0 <= i < hi - lo => Word(blk, lo + i))
  }

  function Zeros(): (r: Block)
    ensures |r| == BSIZE && forall i :: 0 <= i < WORDS ==> Word(r, i) == 0
  {
    seq(BSIZE, _ => 0)
  }
}
