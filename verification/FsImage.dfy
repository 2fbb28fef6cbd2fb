// The disk that mkfs lays out before it adds files: free inodes, and a bitmap that marks
// the blocks of the metadata.
module FsImage {
  import opened DiskBlocks
  import opened FsSpec

  // Blocks 0 .. k of zeros.
  function Zeroed(k: nat): (d: Blocks)
    ensures forall b: nat :: b < k ==> b in d && d[b] == Zeros()
  {
    if k == 0 then map[] else Zeroed(k - 1)[k - 1 := Zeros()]
  }

  // The blank disk with blocks 0 .. k marked in use.
  ghost function Marking(sb: Super, k: nat): (d: Blocks)
    requires sb.Valid(0) && k <= sb.dataStart
    ensures Laid(sb, d)
    ensures forall b: nat :: b < sb.size && !(sb.bmapstart <= b < sb.dataStart) ==> d[b] == Zeros()
  {
    if k == 0 then Zeroed(sb.size)
    else
      var p := Marking(sb, k - 1);
      BBlockLow(sb, k - 1);
      p[BBlock(sb, k - 1) := Mark(p[BBlock(sb, k - 1)], k - 1, true)]
  }

  lemma {:induction false} ZeroBits(k: nat)
    ensures !Bit(0, k)
    decreases k
  {
    if k > 0 {
      ZeroBits(k - 1);
    }
  }

  lemma NothingMarked(sb: Super, c: nat)
    requires sb.Valid(0) && c < sb.size
    ensures BBlock(sb, c) < sb.dataStart && !Marked(sb, Zeroed(sb.size), c)
  {
    hide Bit, Zeroed;
    BBlockLow(sb, c);
    ZeroBits(c % BPB % 8);
    assert Zeroed(sb.size)[BBlock(sb, c)] == Zeros();
  }

  lemma {:induction false} MarkingAt(sb: Super, k: nat, c: nat)
    requires sb.Valid(0) && k <= sb.dataStart && c < sb.size
    ensures BBlock(sb, c) < sb.dataStart && (Marked(sb, Marking(sb, k), c) <==> c < k)
    decreases k
  {
    hide Marked, Mark, BBlock, Laid;
    BBlockLow(sb, c);
    if k == 0 {
      NothingMarked(sb, c);
    } else {
      MarkingAt(sb, k - 1, c);
      MarkAt(sb, Marking(sb, k - 1), k - 1, true, c);
    }
  }

  ghost function Fresh(sb: Super): Blocks
    requires sb.Valid(0)
  {
    Marking(sb, sb.dataStart)
  }

  const NO_ADDRS: seq<nat> := seq(NDIRECT + 1, _ => 0)

  lemma FreshInode(sb: Super, n: nat, i: nat)
    requires sb.Valid(n) && sb.Valid(0) && i < n
    ensures ReadInode(sb, Fresh(sb), i) == Inode(NO_ADDRS, 0)
  {
    hide Word, Marking;
    IBlockLow(sb, n, i);
    assert Fresh(sb)[IBlock(sb, i)] == Zeros();
    assert WordsOf(Zeros(), InoWord(i) + 1, InoWord(i) + 2 + NDIRECT) == NO_ADDRS;
  }

  lemma FreshOwns(sb: Super, d: Blocks, inodes: seq<Inode>)
    requires forall i :: 0 <= i < |inodes| ==> inodes[i] == Inode(NO_ADDRS, 0)
    ensures Shape(inodes) && NoHoles(d, inodes) && Owns(sb, d, inodes, map[])
  {
    forall i: nat, k: nat | i < |inodes| && k < SLOTS
      ensures |inodes[i].addrs| == NDIRECT + 1 && Entry(d, inodes[i], k) == 0
    {
      assert inodes[i].addrs[NDIRECT] == 0;
    }
  }

  // The disk that mkfs makes is sound, all its files are empty, and all blocks beyond the
  // metadata are free.
  lemma FreshImage(sb: Super, n: nat)
    requires sb.Valid(n) && sb.Valid(0)
    ensures Image(sb, Fresh(sb), n) && FilesIn(sb, Fresh(sb), n) == seq(n, _ => [])
    ensures forall b :: 0 <= b < sb.size ==> (InUse(sb, Fresh(sb), b) <==> b < sb.dataStart)
  {
    hide Marking, ReadInode, Owns, NoHoles;
    var d := Fresh(sb);
    var inodes := InodesOf(sb, d, n);
    forall i | 0 <= i < n ensures inodes[i] == Inode(NO_ADDRS, 0) {
      FreshInode(sb, n, i);
    }
    FreshOwns(sb, d, inodes);
    forall b | 0 <= b < sb.size ensures BBlock(sb, b) < sb.dataStart && (Marked(sb, d, b) <==> b < sb.dataStart) {
      MarkingAt(sb, sb.dataStart, b);
    }
    assert Inv(sb, d, inodes, map[], {}, {});
  }
}
