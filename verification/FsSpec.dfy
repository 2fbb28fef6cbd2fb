/**
  The on-disk file system below directories (kernel/fs.c, kernel/fs.h): the free bitmap,
  inodes with direct and indirect block addresses, and who owns which block.

  Disks are seen through the log and the cache, so they are maps from block numbers to
  blocks of BSIZE bytes.
 */
module FsSpec {
  import opened Common
  import opened DiskBlocks

  const BPB: nat := 8 * BSIZE
  const NDIRECT: nat := 12
  const NINDIRECT: nat := WORDS
  const MAXFILE: nat := NDIRECT + NINDIRECT
  const IPB: nat := BSIZE / 64

  type Blocks = map<nat, Block>

  // Blocks below `dataStart` hold the boot block, superblock, log, inodes and bitmap,
  // in this order.
  datatype Super = Super(size: nat, inodestart: nat, bmapstart: nat, dataStart: nat) {
    ghost predicate Valid(ninodes: nat) {
      && 0 < dataStart <= size < 0x1_0000_0000
      && bmapstart + (size - 1) / BPB < dataStart
      && inodestart + ninodes / IPB < bmapstart
    }
  }

  function BBlock(sb: Super, b: nat): nat {
    b / BPB + sb.bmapstart
  }

  function IBlock(sb: Super, inum: nat): nat {
    inum / IPB + sb.inodestart
  }

  datatype Inode = Inode(addrs: seq<nat>, size: nat)

  // ----- bits of a byte

  function Pow2(k: nat): (p: nat)
    ensures p >= 1
  {
    if k == 0 then 1 else 2 * Pow2(k - 1)
  }

  // (x >> k) & 1
  predicate Bit(x: nat, k: nat) {
    if k == 0 then x % 2 == 1 else Bit(x / 2, k - 1)
  }

  // x | (1 << k)
  function SetBit(x: nat, k: nat): nat {
    if Bit(x, k) then x else x + Pow2(k)
  }

  // x & ~(1 << k)
  function ClearBit(x: nat, k: nat): nat {
    if Bit(x, k) then
      BitSize(x, k);
      x - Pow2(k)
    else x
  }

  lemma {:induction false} BitSize(x: nat, k: nat)
    requires Bit(x, k)
    ensures x >= Pow2(k)
    decreases k
  {
    if k > 0 {
      BitSize(x / 2, k - 1);
    }
  }

  lemma SetBitAt(x: nat, k: nat, j: nat)
    ensures Bit(SetBit(x, k), j) == (j == k || Bit(x, j))
  {
    if !Bit(x, k) {
      AddBit(x, k, j);
    }
  }

  lemma ClearBitAt(x: nat, k: nat, j: nat)
    ensures Bit(ClearBit(x, k), j) == (j != k && Bit(x, j))
  {
    if Bit(x, k) {
      BitSize(x, k);
      TakeBit(x, k);
      AddBit(x - Pow2(k), k, j);
    }
  }

  // Adding an absent power of two sets its bit and no other.
  lemma {:induction false} AddBit(x: nat, k: nat, j: nat)
    requires !Bit(x, k)
    ensures Bit(x + Pow2(k), j) == (j == k || Bit(x, j))
    decreases k
  {
    if k > 0 {
      assert (x + Pow2(k)) / 2 == x / 2 + Pow2(k - 1);
      if j > 0 {
        AddBit(x / 2, k - 1, j - 1);
      }
    } else if j > 0 {
      assert (x + 1) / 2 == x / 2;
    }
  }

  lemma {:induction false} TakeBit(x: nat, k: nat)
    requires Bit(x, k) && x >= Pow2(k)
    ensures !Bit(x - Pow2(k), k)
    decreases k
  {
    if k > 0 {
      BitSize(x / 2, k - 1);
      TakeBit(x / 2, k - 1);
      assert (x - Pow2(k)) / 2 == x / 2 - Pow2(k - 1);
    }
  }

  // ----- the free bitmap

  ghost predicate Laid(sb: Super, d: Blocks) {
    forall b :: 0 <= b < sb.size ==> b in d && |d[b]| == BSIZE
  }

  predicate Marked(sb: Super, d: Blocks, b: nat)
    requires BBlock(sb, b) in d && |d[BBlock(sb, b)]| == BSIZE
  {
    Bit(d[BBlock(sb, b)][b % BPB / 8], b % BPB % 8)
  }

  ghost predicate InUse(sb: Super, d: Blocks, b: nat) {
    BBlock(sb, b) in d && |d[BBlock(sb, b)]| == BSIZE && Marked(sb, d, b)
  }

  // Block b0 + bi is bit bi of the bitmap block that b0 begins.
  lemma InChunk(sb: Super, b0: nat, bi: nat)
    requires b0 % BPB == 0 && bi < BPB
    ensures BBlock(sb, b0 + bi) == BBlock(sb, b0) && (b0 + bi) % BPB == bi
  {
  }

  // The bitmap block of b with the bit of b set or cleared.
  function Mark(blk: Block, b: nat, used: bool): (r: Block)
    requires |blk| == BSIZE
    ensures |r| == BSIZE
  {
    var i := b % BPB / 8;
    blk[i := if used then SetBit(blk[i], b % BPB % 8) else ClearBit(blk[i], b % BPB % 8)]
  }

  // A block's bit is told by its bitmap block, its byte and its place in the byte.
  lemma BitPlace(b: nat, c: nat)
    ensures b == c <==> b / BPB == c / BPB && b % BPB / 8 == c % BPB / 8 && b % BPB % 8 == c % BPB % 8
  {
  }

  lemma MarkAt(sb: Super, d: Blocks, b: nat, used: bool, c: nat)
    requires sb.Valid(0) && Laid(sb, d) && b < sb.size && c < sb.size
    ensures BBlock(sb, b) < sb.dataStart && BBlock(sb, c) < sb.dataStart
    ensures Marked(sb, d[BBlock(sb, b) := Mark(d[BBlock(sb, b)], b, used)], c) ==
            if c == b then used else Marked(sb, d, c)
  {
    hide Bit, SetBit, ClearBit;
    BBlockLow(sb, b);
    BBlockLow(sb, c);
    BitPlace(b, c);
    var x := d[BBlock(sb, b)][b % BPB / 8];
    SetBitAt(x, b % BPB % 8, c % BPB % 8);
    ClearBitAt(x, b % BPB % 8, c % BPB % 8);
  }

  lemma BBlockLow(sb: Super, b: nat)
    requires sb.Valid(0) && b < sb.size
    ensures sb.bmapstart <= BBlock(sb, b) < sb.dataStart
  {
    assert b / BPB <= (sb.size - 1) / BPB;
  }

  // ----- words of a block, and the addresses an inode holds

  // Where an inode keeps an address: the direct ones, then the indirect block
  // itself, then the entries of the indirect block.
  const SLOTS: nat := NDIRECT + 1 + NINDIRECT

  function Entry(d: Blocks, ino: Inode, k: nat): nat
    requires |ino.addrs| == NDIRECT + 1 && k < SLOTS
  {
    if k <= NDIRECT then ino.addrs[k]
    else
      var ind := ino.addrs[NDIRECT];
      if ind != 0 && ind in d && |d[ind]| == BSIZE then Word(d[ind], k - NDIRECT - 1) else 0
  }

  // The slot of file block bn.
  function SlotOf(bn: nat): nat {
    if bn < NDIRECT then bn else bn + 1
  }

  // ----- inodes in their blocks

  // The word of its block in which the size of inode i lies; the addresses follow.
  function InoWord(i: nat): nat {
    i % IPB * 16 + 2
  }

  function ReadInode(sb: Super, d: Blocks, i: nat): (ino: Inode) {
    var b := IBlock(sb, i);
    if b in d && |d[b]| == BSIZE then
      Inode(WordsOf(d[b], InoWord(i) + 1, InoWord(i) + 2 + NDIRECT), Word(d[b], InoWord(i)))
    else Inode([], 0)
  }

  ghost predicate Storable(ino: Inode) {
    |ino.addrs| == NDIRECT + 1 && Fit32(ino.addrs) && ino.size < 0x1_0000_0000
  }

  // The block of inode i after iupdate.
  function PutInode(blk: Block, i: nat, ino: Inode): (r: Block)
    requires |blk| == BSIZE && Storable(ino)
    ensures |r| == BSIZE
  {
    PutWords(blk, InoWord(i), [ino.size] + ino.addrs)
  }

  // What iupdate stores of inode i is read back, and no other inode changes.
  lemma InodeRoundTrip(sb: Super, d: Blocks, i: nat, ino: Inode, j: nat)
    requires IBlock(sb, i) in d && |d[IBlock(sb, i)]| == BSIZE && Storable(ino)
    ensures ReadInode(sb, d[IBlock(sb, i) := PutInode(d[IBlock(sb, i)], i, ino)], j) ==
            if j == i then ino else ReadInode(sb, d, j)
  {
    hide Word, PutWords;
    var b := IBlock(sb, i);
    var blk := PutInode(d[b], i, ino);
    if j == i {
      assert WordsOf(blk, InoWord(i) + 1, InoWord(i) + 2 + NDIRECT) == ino.addrs;
    } else if IBlock(sb, j) == b && b in d {
      SameBlockApart(i, j);
      assert WordsOf(blk, InoWord(j) + 1, InoWord(j) + 2 + NDIRECT)
          == WordsOf(d[b], InoWord(j) + 1, InoWord(j) + 2 + NDIRECT);
    }
  }

  lemma SameBlockApart(i: nat, j: nat)
    requires i != j && i / IPB == j / IPB
    ensures InoWord(j) + 14 <= InoWord(i) || InoWord(i) + 14 <= InoWord(j)
  {
  }

  function InodesOf(sb: Super, d: Blocks, n: nat): (r: seq<Inode>)
    ensures |r| == n && forall i :: 0 <= i < n ==> r[i] == ReadInode(sb, d, i)
  {
    seq(n, i requires 0 <= i < n => ReadInode(sb, d, i))
  }

  lemma InodesPut(sb: Super, d: Blocks, n: nat, i: nat, ino: Inode)
    requires i < n && IBlock(sb, i) in d && |d[IBlock(sb, i)]| == BSIZE && Storable(ino)
    ensures InodesOf(sb, d[IBlock(sb, i) := PutInode(d[IBlock(sb, i)], i, ino)], n) == InodesOf(sb, d, n)[i := ino]
  {
    hide ReadInode, PutInode;
    var d' := d[IBlock(sb, i) := PutInode(d[IBlock(sb, i)], i, ino)];
    forall j | 0 <= j < n ensures InodesOf(sb, d', n)[j] == InodesOf(sb, d, n)[i := ino][j] {
      InodeRoundTrip(sb, d, i, ino, j);
    }
  }

  lemma IBlockLow(sb: Super, n: nat, i: nat)
    requires sb.Valid(n) && i < n
    ensures sb.inodestart <= IBlock(sb, i) < sb.bmapstart
  {
    InOrder(i, n);
  }

  lemma InOrder(i: nat, n: nat)
    requires i <= n
    ensures i / IPB <= n / IPB
  {
  }

  // Blocks from the bitmap on hold no inodes.
  lemma InodesApart(sb: Super, d: Blocks, n: nat, b: nat, x: Block)
    requires sb.Valid(n) && sb.bmapstart <= b
    ensures InodesOf(sb, d[b := x], n) == InodesOf(sb, d, n)
  {
    hide Word, WordsOf;
    forall i | 0 <= i < n ensures ReadInode(sb, d[b := x], i) == ReadInode(sb, d, i) {
      IBlockLow(sb, n, i);
    }
  }

  // ----- what a transaction has changed

  // Since the transaction began on `base`, only the blocks passed to log_write have
  // changed, and those lie outside the log.
  ghost predicate Tracked(sb: Super, base: Blocks, d: Blocks, logged: set<nat>) {
    && d.Keys == base.Keys
    && (forall b :: b in d && b !in logged ==> d[b] == base[b])
    && (forall b :: b in logged ==> sb.inodestart <= b < sb.size && b in d)
  }

  lemma TrackedPut(sb: Super, base: Blocks, d: Blocks, logged: set<nat>, b: nat, x: Block)
    requires Tracked(sb, base, d, logged) && b in d && sb.inodestart <= b < sb.size
    ensures Tracked(sb, base, d[b := x], logged + {b})
  {
  }

  // ----- ownership

  type Owners = map<nat, (nat, nat)>

  ghost predicate Shape(inodes: seq<Inode>) {
    forall i :: 0 <= i < |inodes| ==> |inodes[i].addrs| == NDIRECT + 1 && inodes[i].size <= MAXFILE * BSIZE
  }

  // `own` gives for every owned block the one inode and slot that hold it: no
  // address occurs twice, in one inode or in two.
  ghost predicate Owns(sb: Super, d: Blocks, inodes: seq<Inode>, own: Owners)
    requires Shape(inodes)
  {
    && (forall b :: b in own ==>
          && sb.dataStart <= b < sb.size
          && own[b].0 < |inodes| && own[b].1 < SLOTS
          && Entry(d, inodes[own[b].0], own[b].1) == b)
    && (forall i: nat, k: nat :: i < |inodes| && k < SLOTS && Entry(d, inodes[i], k) != 0 ==>
          Entry(d, inodes[i], k) in own && own[Entry(d, inodes[i], k)] == (i, k))
  }

  // The marked blocks are the metadata blocks and the owned blocks; while a call is
  // in progress, `extra` have been allocated but not entered into an inode yet and
  // `gone` have been freed but not removed from their inode yet.
  ghost predicate Bitmap(sb: Super, d: Blocks, own: Owners, extra: set<nat>, gone: set<nat>)
    requires sb.Valid(0) && Laid(sb, d)
  {
    && extra !! own.Keys && gone <= own.Keys
    && (forall b :: b in extra ==> sb.dataStart <= b < sb.size)
    && forall b :: 0 <= b < sb.size ==>
         (BBlockLow(sb, b); Marked(sb, d, b) <==> b < sb.dataStart || (b in own && b !in gone) || b in extra)
  }

  ghost predicate Inv(sb: Super, d: Blocks, inodes: seq<Inode>, own: Owners, extra: set<nat>, gone: set<nat>) {
    && sb.Valid(|inodes|) && sb.Valid(0) && Laid(sb, d) && Shape(inodes)
    && Owns(sb, d, inodes, own) && Bitmap(sb, d, own, extra, gone)
  }

  // Everything above the log that the file system keeps on the disk, read off the disk.
  ghost predicate Image(sb: Super, d: Blocks, n: nat) {
    && Shape(InodesOf(sb, d, n)) && NoHoles(d, InodesOf(sb, d, n))
    && exists own: Owners :: Inv(sb, d, InodesOf(sb, d, n), own, {}, {})
  }

  lemma ImageOwners(sb: Super, d: Blocks, n: nat) returns (own: Owners)
    requires Image(sb, d, n)
    ensures sb.Valid(n) && |InodesOf(sb, d, n)| == n && NoHoles(d, InodesOf(sb, d, n)) && Tracked(sb, d, d, {})
    ensures Inv(sb, d, InodesOf(sb, d, n), own, {}, {})
  {
    hide Owns, Bitmap, NoHoles;
    own :| Inv(sb, d, InodesOf(sb, d, n), own, {}, {});
  }

  ghost function FilesIn(sb: Super, d: Blocks, n: nat): seq<seq<nat>>
    requires Image(sb, d, n)
  {
    FilesOf(d, InodesOf(sb, d, n))
  }

  lemma MetaInUse(sb: Super, d: Blocks, inodes: seq<Inode>, own: Owners)
    requires Inv(sb, d, inodes, own, {}, {})
    ensures InUse(sb, d, 0)
  {
    BBlockLow(sb, 0);
  }

  // Writing a block that is nobody's indirect block leaves all addresses alone.
  lemma OwnsWrite(sb: Super, d: Blocks, inodes: seq<Inode>, own: Owners, c: nat, x: Block)
    requires Shape(inodes) && Owns(sb, d, inodes, own) && |x| == BSIZE
    requires c !in own || own[c].1 != NDIRECT
    ensures Owns(sb, d[c := x], inodes, own)
    ensures forall i: nat, k: nat :: i < |inodes| && k < SLOTS ==>
              Entry(d[c := x], inodes[i], k) == Entry(d, inodes[i], k)
  {
    forall i: nat, k: nat | i < |inodes| && k < SLOTS
      ensures Entry(d[c := x], inodes[i], k) == Entry(d, inodes[i], k)
    {
      assert Entry(d, inodes[i], NDIRECT) == inodes[i].addrs[NDIRECT];
    }
    var d' := d[c := x];
    forall i: nat, k: nat | i < |inodes| && k < SLOTS && Entry(d', inodes[i], k) != 0
      ensures Entry(d', inodes[i], k) in own && own[Entry(d', inodes[i], k)] == (i, k)
    {
      assert Entry(d', inodes[i], k) == Entry(d, inodes[i], k);
    }
  }

  lemma BitmapWrite(sb: Super, d: Blocks, own: Owners, extra: set<nat>, gone: set<nat>, c: nat, x: Block)
    requires sb.Valid(0) && Laid(sb, d) && Bitmap(sb, d, own, extra, gone)
    requires (c < sb.bmapstart || sb.dataStart <= c) && |x| == BSIZE
    ensures Laid(sb, d[c := x]) && Bitmap(sb, d[c := x], own, extra, gone)
  {
    forall b | 0 <= b < sb.size ensures BBlock(sb, b) < sb.dataStart && Marked(sb, d[c := x], b) == Marked(sb, d, b) {
      BBlockLow(sb, b);
    }
  }

  // Writing a data block, of an inode or in hand, breaks nothing.
  lemma InvWrite(sb: Super, d: Blocks, inodes: seq<Inode>, own: Owners, extra: set<nat>, gone: set<nat>, c: nat,
                 x: Block)
    requires Inv(sb, d, inodes, own, extra, gone) && |x| == BSIZE && sb.dataStart <= c
    requires c !in own || own[c].1 != NDIRECT
    ensures Inv(sb, d[c := x], inodes, own, extra, gone)
    ensures forall i: nat, k: nat :: i < |inodes| && k < SLOTS ==>
              Entry(d[c := x], inodes[i], k) == Entry(d, inodes[i], k)
  {
    OwnsWrite(sb, d, inodes, own, c, x);
    BitmapWrite(sb, d, own, extra, gone, c, x);
  }

  // Writing an inode block breaks nothing either.
  lemma InvMeta(sb: Super, d: Blocks, inodes: seq<Inode>, own: Owners, c: nat, x: Block)
    requires Inv(sb, d, inodes, own, {}, {}) && |x| == BSIZE && c < sb.bmapstart
    ensures Inv(sb, d[c := x], inodes, own, {}, {}) && Keeps(d, own, d[c := x], own) && SameData(sb, d, d[c := x])
  {
    hide Bitmap, Laid;
    OwnsWrite(sb, d, inodes, own, c, x);
    BitmapWrite(sb, d, own, {}, {}, c, x);
    LaidData(sb, d, own, c, x);
  }

  lemma LaidData(sb: Super, d: Blocks, own: Owners, c: nat, x: Block)
    requires sb.Valid(0) && Laid(sb, d) && c < sb.bmapstart
    requires forall b :: b in own ==> sb.dataStart <= b < sb.size
    ensures Keeps(d, own, d[c := x], own) && SameData(sb, d, d[c := x])
  {
  }

  // Every block of the disk is in use.
  ghost predicate FullDisk(sb: Super, d: Blocks) {
    forall c :: 0 <= c < sb.size ==> InUse(sb, d, c)
  }

  lemma FullMeta(sb: Super, d: Blocks, c: nat, x: Block)
    requires c < sb.bmapstart && FullDisk(sb, d)
    ensures FullDisk(sb, d[c := x])
  {
    var d' := d[c := x];
    forall b: nat | b < sb.size ensures InUse(sb, d', b) {
      assert InUse(sb, d, b);
    }
  }

  lemma StorableInode(sb: Super, d: Blocks, inodes: seq<Inode>, own: Owners, i: nat)
    requires Inv(sb, d, inodes, own, {}, {}) && i < |inodes|
    ensures Storable(inodes[i])
  {
    forall k | 0 <= k <= NDIRECT ensures inodes[i].addrs[k] < 0x1_0000_0000 {
      assert Entry(d, inodes[i], k) == inodes[i].addrs[k];
    }
  }

  // Setting or clearing the bit of b.
  lemma BitmapMark(sb: Super, d: Blocks, own: Owners, extra: set<nat>, gone: set<nat>, b: nat, used: bool,
                   extra': set<nat>, gone': set<nat>)
    requires sb.Valid(0) && Laid(sb, d) && Bitmap(sb, d, own, extra, gone) && sb.dataStart <= b < sb.size
    requires BBlock(sb, b) in d && |d[BBlock(sb, b)]| == BSIZE
    requires if used then b !in own && extra' == extra + {b} && gone' == gone
             else b in own && extra' == extra && gone' == gone + {b}
    ensures var d' := d[BBlock(sb, b) := Mark(d[BBlock(sb, b)], b, used)];
            Laid(sb, d') && Bitmap(sb, d', own, extra', gone')
  {
    var d' := d[BBlock(sb, b) := Mark(d[BBlock(sb, b)], b, used)];
    forall c | 0 <= c < sb.size
      ensures BBlock(sb, c) < sb.dataStart && Marked(sb, d', c) == if c == b then used else Marked(sb, d, c)
    {
      MarkAt(sb, d, b, used, c);
    }
  }

  // balloc: mark a free block and zero it.
  lemma InvAlloc(sb: Super, d: Blocks, inodes: seq<Inode>, own: Owners, extra: set<nat>, b: nat)
    requires Inv(sb, d, inodes, own, extra, {}) && b < sb.size
    requires BBlock(sb, b) in d && |d[BBlock(sb, b)]| == BSIZE && !Marked(sb, d, b)
    ensures sb.dataStart <= b && b !in own && b !in extra
    ensures var d' := d[BBlock(sb, b) := Mark(d[BBlock(sb, b)], b, true)][b := Zeros()];
            && Inv(sb, d', inodes, own, extra + {b}, {})
            && forall i: nat, k: nat :: i < |inodes| && k < SLOTS ==> Entry(d', inodes[i], k) == Entry(d, inodes[i], k)
  {
    BBlockLow(sb, b);
    var m := Mark(d[BBlock(sb, b)], b, true);
    BitmapMark(sb, d, own, extra, {}, b, true, extra + {b}, {});
    OwnsWrite(sb, d, inodes, own, BBlock(sb, b), m);
    InvWrite(sb, d[BBlock(sb, b) := m], inodes, own, extra + {b}, {}, b, Zeros());
  }

  // bfree: clear the bit of an owned block.
  lemma InvFree(sb: Super, d: Blocks, inodes: seq<Inode>, own: Owners, gone: set<nat>, b: nat)
    requires Inv(sb, d, inodes, own, {}, gone) && b in own && b !in gone
    ensures BBlock(sb, b) in d && |d[BBlock(sb, b)]| == BSIZE && Marked(sb, d, b)
    ensures var d' := d[BBlock(sb, b) := Mark(d[BBlock(sb, b)], b, false)];
            && Inv(sb, d', inodes, own, {}, gone + {b})
            && forall i: nat, k: nat :: i < |inodes| && k < SLOTS ==> Entry(d', inodes[i], k) == Entry(d, inodes[i], k)
  {
    BBlockLow(sb, b);
    BitmapMark(sb, d, own, {}, gone, b, false, {}, gone + {b});
    OwnsWrite(sb, d, inodes, own, BBlock(sb, b), Mark(d[BBlock(sb, b)], b, false));
  }

  function WithAddr(ino: Inode, k: nat, b: nat): Inode
    requires k < |ino.addrs|
  {
    ino.(addrs := ino.addrs[k := b])
  }

  // bmap enters an allocated block into the inode.
  lemma InvAttach(sb: Super, d: Blocks, inodes: seq<Inode>, own: Owners, i: nat, k: nat, b: nat)
    requires Inv(sb, d, inodes, own, {b}, {}) && i < |inodes| && k <= NDIRECT && inodes[i].addrs[k] == 0
    requires k == NDIRECT ==> d[b] == Zeros()
    ensures var inodes' := inodes[i := WithAddr(inodes[i], k, b)];
            && Inv(sb, d, inodes', own[b := (i, k)], {}, {})
            && forall j: nat, m: nat :: j < |inodes| && m < SLOTS ==>
                 Entry(d, inodes'[j], m) == if j == i && m == k then b else Entry(d, inodes[j], m)
  {
    var inodes' := inodes[i := WithAddr(inodes[i], k, b)];
    forall j: nat, m: nat | j < |inodes| && m < SLOTS
      ensures Entry(d, inodes'[j], m) == if j == i && m == k then b else Entry(d, inodes[j], m)
    {
    }
    OwnsAdd(sb, d, inodes, d, inodes', own, i, k, b);
  }

  // bmap enters an allocated block into the indirect block.
  lemma InvAttachIndirect(sb: Super, d: Blocks, inodes: seq<Inode>, own: Owners, i: nat, k: nat, b: nat)
    requires Inv(sb, d, inodes, own, {b}, {}) && i < |inodes| && NDIRECT < k < SLOTS
    requires inodes[i].addrs[NDIRECT] != 0 && Entry(d, inodes[i], k) == 0
    ensures var ind := inodes[i].addrs[NDIRECT];
            && ind in own && ind in d && |d[ind]| == BSIZE && b < 0x1_0000_0000
            && var d' := d[ind := PutWord(d[ind], k - NDIRECT - 1, b)];
               && Inv(sb, d', inodes, own[b := (i, k)], {}, {})
               && forall j: nat, m: nat :: j < |inodes| && m < SLOTS ==>
                    Entry(d', inodes[j], m) == if j == i && m == k then b else Entry(d, inodes[j], m)
  {
    var ind := inodes[i].addrs[NDIRECT];
    assert ind == Entry(d, inodes[i], NDIRECT);
    var d' := d[ind := PutWord(d[ind], k - NDIRECT - 1, b)];
    forall j: nat, m: nat | j < |inodes| && m < SLOTS
      ensures Entry(d', inodes[j], m) == if j == i && m == k then b else Entry(d, inodes[j], m)
    {
      assert Entry(d, inodes[j], NDIRECT) == inodes[j].addrs[NDIRECT];
    }
    BitmapWrite(sb, d, own, {b}, {}, ind, d'[ind]);
    OwnsAdd(sb, d, inodes, d', inodes, own, i, k, b);
  }

  // One empty slot now holds the block b, which nobody had.
  lemma OwnsAdd(sb: Super, d: Blocks, inodes: seq<Inode>, d': Blocks, inodes': seq<Inode>, own: Owners, i: nat,
                k: nat, b: nat)
    requires Shape(inodes) && Shape(inodes') && |inodes'| == |inodes| && Owns(sb, d, inodes, own)
    requires 0 < sb.dataStart <= b < sb.size && b !in own && i < |inodes| && k < SLOTS && Entry(d, inodes[i], k) == 0
    requires forall j: nat, m: nat :: j < |inodes| && m < SLOTS ==>
               Entry(d', inodes'[j], m) == if j == i && m == k then b else Entry(d, inodes[j], m)
    ensures Owns(sb, d', inodes', own[b := (i, k)])
  {
    var own' := own[b := (i, k)];
    forall j: nat, m: nat | j < |inodes| && m < SLOTS && Entry(d', inodes'[j], m) != 0
      ensures Entry(d', inodes'[j], m) in own' && own'[Entry(d', inodes'[j], m)] == (j, m)
    {
      assert Entry(d, inodes[j], m) != 0 ==> Entry(d, inodes[j], m) in own;
    }
    forall c | c in own' ensures Entry(d', inodes'[own'[c].0], own'[c].1) == c {
      if c != b {
        assert Entry(d, inodes[own[c].0], own[c].1) == c != 0;
      }
    }
  }

  // The blocks that inode i holds in slots lo .. hi.
  ghost function Range(own: Owners, i: nat, lo: nat, hi: nat): set<nat> {
    set b | b in own && own[b].0 == i && lo <= own[b].1 < hi
  }

  // itrunc removes a freed address, and with the indirect block all its entries.
  lemma InvDetach(sb: Super, d: Blocks, inodes: seq<Inode>, own: Owners, i: nat, k: nat)
    requires i < |inodes| && k <= NDIRECT
    requires var gone := Range(own, i, k, if k == NDIRECT then SLOTS else k + 1);
             Inv(sb, d, inodes, own, {}, gone)
    ensures var inodes' := inodes[i := WithAddr(inodes[i], k, 0)];
            && Inv(sb, d, inodes', own - Range(own, i, k, if k == NDIRECT then SLOTS else k + 1), {}, {})
            && forall j: nat, m: nat :: j < |inodes| && m < SLOTS ==>
                 Entry(d, inodes'[j], m) == if j == i && (m == k || m > NDIRECT == k) then 0 else Entry(d, inodes[j], m)
  {
    var gone := Range(own, i, k, if k == NDIRECT then SLOTS else k + 1);
    var inodes' := inodes[i := WithAddr(inodes[i], k, 0)];
    var own' := own - gone;
    forall j: nat, m: nat | j < |inodes| && m < SLOTS
      ensures Entry(d, inodes'[j], m) == if j == i && (m == k || m > NDIRECT == k) then 0 else Entry(d, inodes[j], m)
    {
    }
    forall j: nat, m: nat | j < |inodes| && m < SLOTS && Entry(d, inodes'[j], m) != 0
      ensures Entry(d, inodes'[j], m) in own' && own'[Entry(d, inodes'[j], m)] == (j, m)
    {
      assert Entry(d, inodes[j], m) in own && own[Entry(d, inodes[j], m)] == (j, m);
    }
    forall b | b in own' ensures Entry(d, inodes'[own'[b].0], own'[b].1) == b {
      assert Entry(d, inodes[own[b].0], own[b].1) == b;
    }
  }

  // ----- contents

  // Byte o of a file, wherever its block lies.
  function Byte(d: Blocks, ino: Inode, o: nat): nat
    requires |ino.addrs| == NDIRECT + 1 && o < MAXFILE * BSIZE
  {
    var a := Entry(d, ino, SlotOf(o / BSIZE));
    if a in d && |d[a]| == BSIZE then d[a][o % BSIZE] else 0
  }

  predicate HasBlock(d: Blocks, ino: Inode, bn: nat)
    requires |ino.addrs| == NDIRECT + 1 && bn < MAXFILE
  {
    Entry(d, ino, SlotOf(bn)) != 0
  }

  // Every block below byte `upto` is there.
  ghost predicate Mapped(d: Blocks, ino: Inode, upto: nat)
    requires |ino.addrs| == NDIRECT + 1 && upto <= MAXFILE * BSIZE
  {
    forall bn :: 0 <= bn < MAXFILE && bn * BSIZE < upto ==> HasBlock(d, ino, bn)
  }

  ghost predicate NoHoles(d: Blocks, inodes: seq<Inode>)
    requires Shape(inodes)
  {
    forall i :: 0 <= i < |inodes| ==> Mapped(d, inodes[i], inodes[i].size)
  }

  ghost function Contents(d: Blocks, ino: Inode): (r: seq<nat>)
    requires |ino.addrs| == NDIRECT + 1 && ino.size <= MAXFILE * BSIZE
    ensures |r| == ino.size
  {
    seq(ino.size, o requires 0 <= o < ino.size => Byte(d, ino, o))
  }

  // Owned blocks keep their owners, and data blocks their contents.
  ghost predicate Keeps(d: Blocks, own: Owners, d': Blocks, own': Owners) {
    forall b :: b in own ==>
      && b in own' && own'[b] == own[b] && b in d && b in d'
      && (own[b].1 != NDIRECT ==> d'[b] == d[b])
  }

  lemma KeepsByte(sb: Super, d: Blocks, inodes: seq<Inode>, own: Owners, d': Blocks, inodes': seq<Inode>,
                  own': Owners, i: nat, o: nat)
    requires Shape(inodes) && Shape(inodes') && Owns(sb, d, inodes, own) && Owns(sb, d', inodes', own')
    requires Keeps(d, own, d', own') && i < |inodes| == |inodes'| && o < MAXFILE * BSIZE
    requires HasBlock(d, inodes[i], o / BSIZE)
    ensures Entry(d', inodes'[i], SlotOf(o / BSIZE)) == Entry(d, inodes[i], SlotOf(o / BSIZE))
    ensures Byte(d', inodes'[i], o) == Byte(d, inodes[i], o)
  {
    var k := SlotOf(o / BSIZE);
    var a := Entry(d, inodes[i], k);
    assert a in own && own[a] == (i, k);
    assert Entry(d', inodes'[own'[a].0], own'[a].1) == a;
  }

  // ----- what an allocation for inode i does

  // The disk after balloc has chosen block b.
  function Allocated(sb: Super, d: Blocks, b: nat): Blocks
    requires BBlock(sb, b) in d && |d[BBlock(sb, b)]| == BSIZE
  {
    d[BBlock(sb, b) := Mark(d[BBlock(sb, b)], b, true)][b := Zeros()]
  }

  // Slot k of inode i now holds b, and no other slot changed.
  ghost predicate OneMore(d: Blocks, inodes: seq<Inode>, d': Blocks, inodes': seq<Inode>, i: nat, k: nat, b: nat)
    requires Shape(inodes) && Shape(inodes')
  {
    && |inodes'| == |inodes|
    && forall j: nat, m: nat :: j < |inodes| && m < SLOTS ==>
         Entry(d', inodes'[j], m) == if j == i && m == k then b else Entry(d, inodes[j], m)
  }

  lemma AllocKeeps(sb: Super, d: Blocks, inodes: seq<Inode>, own: Owners, b: nat)
    requires Inv(sb, d, inodes, own, {}, {}) && b < sb.size && !InUse(sb, d, b)
    ensures BBlock(sb, b) in d && |d[BBlock(sb, b)]| == BSIZE && BBlock(sb, b) < sb.dataStart <= b && b !in own
    ensures Inv(sb, Allocated(sb, d, b), inodes, own, {b}, {}) && Allocated(sb, d, b)[b] == Zeros()
    ensures forall c :: c in own ==> c in d && c in Allocated(sb, d, b) && Allocated(sb, d, b)[c] == d[c]
    ensures forall j: nat, m: nat :: j < |inodes| && m < SLOTS ==>
              Entry(Allocated(sb, d, b), inodes[j], m) == Entry(d, inodes[j], m)
  {
    BBlockLow(sb, b);
    InvAlloc(sb, d, inodes, own, {}, b);
  }

  lemma AllocDirectOk(sb: Super, d: Blocks, inodes: seq<Inode>, own: Owners, i: nat, k: nat, b: nat)
    requires Inv(sb, d, inodes, own, {}, {}) && b < sb.size && !InUse(sb, d, b)
    requires BBlock(sb, b) in d && |d[BBlock(sb, b)]| == BSIZE
    requires i < |inodes| && k <= NDIRECT && inodes[i].addrs[k] == 0
    ensures var d', inodes', own' := Allocated(sb, d, b), inodes[i := WithAddr(inodes[i], k, b)], own[b := (i, k)];
            && Inv(sb, d', inodes', own', {}, {}) && Keeps(d, own, d', own')
            && OneMore(d, inodes, d', inodes', i, k, b)
  {
    hide Inv, Entry, Mark, Allocated;
    AllocKeeps(sb, d, inodes, own, b);
    ShapeOf(sb, d, inodes, own, {}, {});
    InvAttach(sb, Allocated(sb, d, b), inodes, own, i, k, b);
  }

  lemma AllocIndirectOk(sb: Super, d: Blocks, inodes: seq<Inode>, own: Owners, i: nat, k: nat, b: nat)
    requires Inv(sb, d, inodes, own, {}, {}) && b < sb.size && !InUse(sb, d, b)
    requires BBlock(sb, b) in d && |d[BBlock(sb, b)]| == BSIZE
    requires i < |inodes| && NDIRECT < k < SLOTS && inodes[i].addrs[NDIRECT] != 0 && Entry(d, inodes[i], k) == 0
    ensures var ind, d1, own' := inodes[i].addrs[NDIRECT], Allocated(sb, d, b), own[b := (i, k)];
            && ind in d1 && |d1[ind]| == BSIZE && b < 0x1_0000_0000 && sb.dataStart <= ind < sb.size
            && var d' := d1[ind := PutWord(d1[ind], k - NDIRECT - 1, b)];
               && Inv(sb, d', inodes, own', {}, {}) && Keeps(d, own, d', own')
               && OneMore(d, inodes, d', inodes, i, k, b)
  {
    hide Mark, Allocated, PutWord, Bitmap;
    AllocKeeps(sb, d, inodes, own, b);
    assert Entry(d, inodes[i], NDIRECT) == inodes[i].addrs[NDIRECT];
    InvAttachIndirect(sb, Allocated(sb, d, b), inodes, own, i, k, b);
  }

  lemma ShapeOf(sb: Super, d: Blocks, inodes: seq<Inode>, own: Owners, extra: set<nat>, gone: set<nat>)
    requires Inv(sb, d, inodes, own, extra, gone)
    ensures sb.Valid(0) && Laid(sb, d) && Shape(inodes) && Owns(sb, d, inodes, own)
  {
  }

  lemma KeepsTrans(d: Blocks, own: Owners, d1: Blocks, own1: Owners, d2: Blocks, own2: Owners)
    requires Keeps(d, own, d1, own1) && Keeps(d1, own1, d2, own2)
    ensures Keeps(d, own, d2, own2)
  {
  }

  lemma KeepsSame(sb: Super, d: Blocks, inodes: seq<Inode>, own: Owners)
    requires Inv(sb, d, inodes, own, {}, {})
    ensures Keeps(d, own, d, own)
  {
  }

  // Without an indirect block there are no entries in it.
  lemma NoIndirect(d: Blocks, ino: Inode, k: nat)
    requires |ino.addrs| == NDIRECT + 1 && ino.addrs[NDIRECT] == 0 && NDIRECT < k < SLOTS
    ensures Entry(d, ino, k) == 0
  {
  }

  // ----- freeing

  // d' differs from d in metadata blocks only.
  ghost predicate SameData(sb: Super, d: Blocks, d': Blocks) {
    forall c :: sb.dataStart <= c < sb.size ==> c in d && c in d' && d'[c] == d[c]
  }

  lemma SameDataTrans(sb: Super, d: Blocks, d1: Blocks, d2: Blocks)
    requires SameData(sb, d, d1) && SameData(sb, d1, d2)
    ensures SameData(sb, d, d2)
  {
  }

  lemma SameDataSelf(sb: Super, d: Blocks)
    requires Laid(sb, d)
    ensures SameData(sb, d, d)
  {
  }

  // Slot k of inode i and its owner entry.
  lemma RangeOne(sb: Super, d: Blocks, inodes: seq<Inode>, own: Owners, i: nat, k: nat)
    requires Shape(inodes) && Owns(sb, d, inodes, own) && i < |inodes| && k < SLOTS && sb.dataStart > 0
    ensures Range(own, i, k, k + 1) == if Entry(d, inodes[i], k) == 0 then {} else {Entry(d, inodes[i], k)}
  {
    var b := Entry(d, inodes[i], k);
    assert b != 0 ==> b in own && own[b] == (i, k);
    forall c | c in own && own[c] == (i, k) ensures c == b && b != 0 {
      assert Entry(d, inodes[own[c].0], own[c].1) == c;
    }
  }

  lemma RangeSplit(own: Owners, i: nat, lo: nat, mid: nat, hi: nat)
    requires lo <= mid <= hi
    ensures Range(own, i, lo, hi) == Range(own, i, lo, mid) + Range(own, i, mid, hi)
    ensures Range(own, i, lo, mid) !! Range(own, i, mid, hi)
  {
  }

  // One call of bfree on slot k, when the slots lo .. k are already freed.
  lemma FreeSlot(sb: Super, d: Blocks, inodes: seq<Inode>, own: Owners, i: nat, lo: nat, k: nat)
    requires Inv(sb, d, inodes, own, {}, Range(own, i, lo, k)) && i < |inodes| && lo <= k < SLOTS
    requires Entry(d, inodes[i], k) != 0
    ensures var b := Entry(d, inodes[i], k);
            && InUse(sb, d, b) && b < sb.size
            && var d' := d[BBlock(sb, b) := Mark(d[BBlock(sb, b)], b, false)];
               && Inv(sb, d', inodes, own, {}, Range(own, i, lo, k + 1)) && SameData(sb, d, d')
               && forall j: nat, m: nat :: j < |inodes| && m < SLOTS ==>
                    Entry(d', inodes[j], m) == Entry(d, inodes[j], m)
  {
    hide Marked, Mark, Entry;
    var b := Entry(d, inodes[i], k);
    RangeOne(sb, d, inodes, own, i, k);
    RangeSplit(own, i, lo, k, k + 1);
    BBlockLow(sb, b);
    InvFree(sb, d, inodes, own, Range(own, i, lo, k), b);
  }

  lemma SkipSlot(sb: Super, d: Blocks, inodes: seq<Inode>, own: Owners, i: nat, lo: nat, k: nat)
    requires Shape(inodes) && Owns(sb, d, inodes, own) && i < |inodes| && lo <= k < SLOTS && sb.dataStart > 0
    requires Entry(d, inodes[i], k) == 0
    ensures Range(own, i, lo, k + 1) == Range(own, i, lo, k)
  {
    RangeOne(sb, d, inodes, own, i, k);
    RangeSplit(own, i, lo, k, k + 1);
  }

  lemma DirectSlot(d: Blocks, ino: Inode, k: nat)
    requires |ino.addrs| == NDIRECT + 1 && k <= NDIRECT
    ensures Entry(d, ino, k) == ino.addrs[k]
  {
  }

  lemma EmptyRange(own: Owners, i: nat, k: nat)
    ensures Range(own, i, k, k) == {}
  {
  }

  // Without an indirect block, inode i owns nothing from its slot on.
  lemma NothingIndirect(sb: Super, d: Blocks, inodes: seq<Inode>, own: Owners, i: nat)
    requires Shape(inodes) && Owns(sb, d, inodes, own) && sb.dataStart > 0
    requires i < |inodes| && inodes[i].addrs[NDIRECT] == 0
    ensures Range(own, i, NDIRECT, SLOTS) == {}
  {
    forall c | c in own && own[c].0 == i ensures own[c].1 < NDIRECT {
      assert Entry(d, inodes[own[c].0], own[c].1) == c;
    }
  }

  // Freeing the indirect block after all of its entries.
  lemma FreeIndirectBlock(sb: Super, d: Blocks, inodes: seq<Inode>, own: Owners, i: nat)
    requires i < |inodes| && Shape(inodes) && inodes[i].addrs[NDIRECT] != 0
    requires Inv(sb, d, inodes, own, {}, Range(own, i, NDIRECT + 1, SLOTS))
    ensures var b := inodes[i].addrs[NDIRECT];
            && InUse(sb, d, b) && b < sb.size
            && var d' := d[BBlock(sb, b) := Mark(d[BBlock(sb, b)], b, false)];
               Inv(sb, d', inodes, own, {}, Range(own, i, NDIRECT, SLOTS)) && SameData(sb, d, d')
  {
    hide Marked, Mark, Range;
    var b := inodes[i].addrs[NDIRECT];
    DirectSlot(d, inodes[i], NDIRECT);
    RangeOne(sb, d, inodes, own, i, NDIRECT);
    RangeSplit(own, i, NDIRECT, NDIRECT + 1, SLOTS);
    BBlockLow(sb, b);
    InvFree(sb, d, inodes, own, Range(own, i, NDIRECT + 1, SLOTS), b);
  }

  // Taking slots lo .. mid from the owners leaves mid .. hi as they were.
  lemma RangeRest(own: Owners, i: nat, lo: nat, mid: nat, hi: nat)
    requires lo <= mid <= hi
    ensures Range(own - Range(own, i, lo, mid), i, mid, hi) == Range(own, i, mid, hi)
    ensures own - Range(own, i, lo, mid) - Range(own, i, mid, hi) == own - Range(own, i, lo, hi)
  {
    RangeSplit(own, i, lo, mid, hi);
  }

  // Addresses do not depend on the metadata blocks.
  lemma SameDataEntry(sb: Super, d: Blocks, d': Blocks, inodes: seq<Inode>, own: Owners, i: nat, k: nat)
    requires Shape(inodes) && Owns(sb, d, inodes, own) && SameData(sb, d, d') && i < |inodes| && k < SLOTS
    ensures Entry(d', inodes[i], k) == Entry(d, inodes[i], k)
  {
    DirectSlot(d, inodes[i], NDIRECT);
  }

  lemma InvSize(sb: Super, d: Blocks, inodes: seq<Inode>, own: Owners, i: nat, size: nat)
    requires Inv(sb, d, inodes, own, {}, {}) && i < |inodes| && size <= MAXFILE * BSIZE
    ensures Inv(sb, d, inodes[i := inodes[i].(size := size)], own, {}, {})
    ensures forall j: nat, k: nat :: j < |inodes| && k < SLOTS ==>
              Entry(d, inodes[i := inodes[i].(size := size)][j], k) == Entry(d, inodes[j], k)
  {
    var inodes' := inodes[i := inodes[i].(size := size)];
    forall j: nat, k: nat | j < |inodes| && k < SLOTS
      ensures Entry(d, inodes'[j], k) == Entry(d, inodes[j], k)
    {
    }
    forall j: nat, k: nat | j < |inodes| && k < SLOTS && Entry(d, inodes'[j], k) != 0
      ensures Entry(d, inodes'[j], k) in own && own[Entry(d, inodes'[j], k)] == (j, k)
    {
      assert Entry(d, inodes[j], k) in own;
    }
  }

  // Truncating inode i to nothing leaves no holes anywhere.
  lemma NoHolesTrunc(sb: Super, d: Blocks, d': Blocks, inodes: seq<Inode>, inodes': seq<Inode>, own: Owners, i: nat)
    requires Shape(inodes) && Shape(inodes') && Owns(sb, d, inodes, own) && SameData(sb, d, d') && NoHoles(d, inodes)
    requires i < |inodes| == |inodes'| && inodes'[i].size == 0
    requires forall j :: 0 <= j < |inodes| && j != i ==> inodes'[j] == inodes[j]
    ensures NoHoles(d', inodes')
  {
    forall j: nat, bn: nat | j < |inodes| && bn < MAXFILE && bn * BSIZE < inodes'[j].size
      ensures HasBlock(d', inodes'[j], bn)
    {
      SameDataEntry(sb, d, d', inodes, own, j, SlotOf(bn));
      assert HasBlock(d, inodes[j], bn);
    }
  }

  // What is no longer owned is free.
  lemma ReleasedFree(sb: Super, d: Blocks, inodes: seq<Inode>, own: Owners, b: nat)
    requires Inv(sb, d, inodes, own, {}, {}) && sb.dataStart <= b < sb.size && b !in own
    ensures !InUse(sb, d, b)
  {
    BBlockLow(sb, b);
  }

  lemma RangeOwned(own: Owners, i: nat, b: nat)
    requires b in Range(own, i, 0, SLOTS)
    ensures b in own
  {
  }

  // ----- files as byte sequences

  // The inode holds the bytes f, with a block under each of them.
  ghost predicate Holds(d: Blocks, ino: Inode, f: seq<nat>) {
    && |ino.addrs| == NDIRECT + 1 && |f| <= MAXFILE * BSIZE
    && forall o :: 0 <= o < |f| ==> HoldsAt(d, ino, o, f[o])
  }

  predicate HoldsAt(d: Blocks, ino: Inode, o: nat, v: nat)
    requires |ino.addrs| == NDIRECT + 1 && o < MAXFILE * BSIZE
  {
    HasBlock(d, ino, o / BSIZE) && Byte(d, ino, o) == v
  }

  lemma ContentsHold(d: Blocks, ino: Inode)
    requires |ino.addrs| == NDIRECT + 1 && ino.size <= MAXFILE * BSIZE && Mapped(d, ino, ino.size)
    ensures Holds(d, ino, Contents(d, ino))
  {
    forall o | 0 <= o < ino.size ensures HoldsAt(d, ino, o, Contents(d, ino)[o]) {
      assert o / BSIZE * BSIZE <= o;
    }
  }

  lemma HeldContents(d: Blocks, ino: Inode, f: seq<nat>)
    requires |ino.addrs| == NDIRECT + 1 && Holds(d, ino, f) && ino.size == |f|
    ensures Mapped(d, ino, ino.size) && Contents(d, ino) == f
  {
    forall bn | 0 <= bn < MAXFILE && bn * BSIZE < |f| ensures HasBlock(d, ino, bn) {
      assert HoldsAt(d, ino, bn * BSIZE, f[bn * BSIZE]);
    }
    forall o | 0 <= o < |f| ensures Contents(d, ino)[o] == f[o] {
      assert HoldsAt(d, ino, o, f[o]);
    }
  }

  // All inodes hold their files.
  ghost predicate AllHold(d: Blocks, inodes: seq<Inode>, fs: seq<seq<nat>>) {
    |fs| == |inodes| && forall j :: 0 <= j < |inodes| ==> Holds(d, inodes[j], fs[j])
  }

  lemma KeepsHolds(sb: Super, d: Blocks, inodes: seq<Inode>, own: Owners, d': Blocks, inodes': seq<Inode>,
                   own': Owners, fs: seq<seq<nat>>)
    requires Inv(sb, d, inodes, own, {}, {}) && Inv(sb, d', inodes', own', {}, {})
    requires Keeps(d, own, d', own') && |inodes| == |inodes'| && AllHold(d, inodes, fs)
    ensures AllHold(d', inodes', fs)
  {
    hide Byte, Entry, Keeps;
    forall j: nat, o: nat | j < |inodes| && o < |fs[j]| ensures HoldsAt(d', inodes'[j], o, fs[j][o]) {
      assert HoldsAt(d, inodes[j], o, fs[j][o]);
      KeepsByte(sb, d, inodes, own, d', inodes', own', j, o);
    }
  }

  // The block with the bytes w written at offset at.
  function Patch(blk: Block, at: nat, w: seq<nat>): (r: Block)
    requires at + |w| <= |blk|
    ensures |r| == |blk|
    ensures forall p :: 0 <= p < |blk| ==> r[p] == if at <= p < at + |w| then w[p - at] else blk[p]
  {
    blk[..at] + w + blk[at + |w|..]
  }

  // The file f with w written at off, extended if need be.
  function Splice(f: seq<nat>, off: nat, w: seq<nat>): (r: seq<nat>)
    requires off <= |f|
    ensures |r| == if off + |w| > |f| then off + |w| else |f|
  {
    f[..off] + w + if off + |w| < |f| then f[off + |w|..] else []
  }

  lemma SpliceAt(f: seq<nat>, off: nat, w: seq<nat>, o: nat)
    requires off <= |f| && o < |Splice(f, off, w)|
    ensures Splice(f, off, w)[o] == if off <= o < off + |w| then w[o - off] else f[o]
  {
  }

  lemma SpliceMore(f: seq<nat>, off: nat, v: seq<nat>, w: seq<nat>)
    requires off <= |f|
    ensures Splice(Splice(f, off, v), off + |v|, w) == Splice(f, off, v + w)
  {
  }

  // Writing within one block of inode i splices its file, and no other.
  lemma PatchHolds(sb: Super, d: Blocks, inodes: seq<Inode>, own: Owners, fs: seq<seq<nat>>, i: nat, off: nat,
                   w: seq<nat>)
    requires Inv(sb, d, inodes, own, {}, {}) && AllHold(d, inodes, fs) && i < |inodes|
    requires off <= |fs[i]| && off + |w| <= MAXFILE * BSIZE && off % BSIZE + |w| <= BSIZE && |w| > 0
    requires HasBlock(d, inodes[i], off / BSIZE)
    ensures var a := Entry(d, inodes[i], SlotOf(off / BSIZE));
            && a in own && a in d && |d[a]| == BSIZE && sb.dataStart <= a < sb.size
            && var d' := d[a := Patch(d[a], off % BSIZE, w)];
               && Inv(sb, d', inodes, own, {}, {})
               && AllHold(d', inodes, fs[i := Splice(fs[i], off, w)])
  {
    var k := SlotOf(off / BSIZE);
    var a := Entry(d, inodes[i], k);
    assert a in own && own[a] == (i, k);
    var d' := d[a := Patch(d[a], off % BSIZE, w)];
    InvWrite(sb, d, inodes, own, {}, {}, a, d'[a]);
    var fs' := fs[i := Splice(fs[i], off, w)];
    forall j: nat, o: nat | j < |inodes| && o < |fs'[j]| ensures HoldsAt(d', inodes[j], o, fs'[j][o]) {
      PatchByte(sb, d, inodes, own, i, off, w, j, o);
      if j == i {
        SpliceAt(fs[i], off, w, o);
      }
      if j == i && off <= o < off + |w| {
        SameBlock(off, |w|, o);
      } else {
        assert HoldsAt(d, inodes[j], o, fs[j][o]);
      }
    }
  }

  lemma SameBlock(off: nat, len: nat, o: nat)
    requires off % BSIZE + len <= BSIZE && off <= o < off + len
    ensures o / BSIZE == off / BSIZE && o % BSIZE == off % BSIZE + (o - off)
  {
  }

  lemma PatchByte(sb: Super, d: Blocks, inodes: seq<Inode>, own: Owners, i: nat, off: nat, w: seq<nat>, j: nat, o: nat)
    requires Inv(sb, d, inodes, own, {}, {}) && i < |inodes| && j < |inodes| && o < MAXFILE * BSIZE
             && off < MAXFILE * BSIZE
    requires off % BSIZE + |w| <= BSIZE && HasBlock(d, inodes[i], off / BSIZE)
    requires var a := Entry(d, inodes[i], SlotOf(off / BSIZE)); a in own && a in d && |d[a]| == BSIZE
    ensures var a := Entry(d, inodes[i], SlotOf(off / BSIZE));
            var d' := d[a := Patch(d[a], off % BSIZE, w)];
            && HasBlock(d', inodes[j], o / BSIZE) == HasBlock(d, inodes[j], o / BSIZE)
            && (HasBlock(d, inodes[j], o / BSIZE) ==>
                  Byte(d', inodes[j], o) ==
                  if j == i && o / BSIZE == off / BSIZE && off % BSIZE <= o % BSIZE < off % BSIZE + |w|
                  then w[o % BSIZE - off % BSIZE] else Byte(d, inodes[j], o))
  {
    var k := SlotOf(off / BSIZE);
    var a := Entry(d, inodes[i], k);
    assert own[a] == (i, k);
    var d' := d[a := Patch(d[a], off % BSIZE, w)];
    OwnsWrite(sb, d, inodes, own, a, d'[a]);
    var m := SlotOf(o / BSIZE);
    var c := Entry(d, inodes[j], m);
    assert Entry(d', inodes[j], m) == c;
    if c != 0 {
      assert c in own && own[c] == (j, m);
    }
  }

  // A write that does not begin at a block boundary begins in a block that is there.
  lemma UnalignedThere(d: Blocks, inodes: seq<Inode>, fs: seq<seq<nat>>, i: nat, off: nat)
    requires AllHold(d, inodes, fs) && i < |inodes| && off <= |fs[i]| && off < MAXFILE * BSIZE
    ensures |inodes[i].addrs| == NDIRECT + 1
    ensures !Aligned(off) ==> HasBlock(d, inodes[i], off / BSIZE)
  {
    if off % BSIZE != 0 {
      assert HoldsAt(d, inodes[i], off - 1, fs[i][off - 1]);
    }
  }

  lemma SpliceNothing(fs: seq<seq<nat>>, i: nat, off: nat, src: seq<nat>)
    requires i < |fs| && off <= |fs[i]|
    ensures fs[i := Splice(fs[i], off, src[..0])] == fs
  {
    assert Splice(fs[i], off, src[..0]) == fs[i];
  }

  lemma SpliceOn(fs: seq<seq<nat>>, i: nat, off: nat, src: seq<nat>, tot: nat, m: nat)
    requires i < |fs| && off <= |fs[i]| && tot + m <= |src|
    ensures var gs := fs[i := Splice(fs[i], off, src[..tot])];
            gs[i := Splice(gs[i], off + tot, src[tot..tot + m])] == fs[i := Splice(fs[i], off, src[..tot + m])]
  {
    SpliceMore(fs[i], off, src[..tot], src[tot..tot + m]);
    assert src[..tot] + src[tot..tot + m] == src[..tot + m];
  }

  // ----- how many blocks a write logs

  // The number of file blocks that n bytes at off lie in.
  function Touched(off: nat, n: nat): nat {
    if n == 0 then 0 else (off + n - 1) / BSIZE - off / BSIZE + 1
  }

  predicate Aligned(off: nat) {
    off % BSIZE == 0
  }

  predicate Within(at: nat, len: nat) {
    at % BSIZE + len <= BSIZE
  }

  // How far one round of readi or writei gets: to the end of the block, or of the bytes.
  function Step(at: nat, left: nat): nat {
    if left < BSIZE - at % BSIZE then left else BSIZE - at % BSIZE
  }

  lemma StepFacts(off: nat, tot: nat, n: nat)
    requires tot < n && (tot > 0 ==> Aligned(off + tot))
    ensures var m := Step(off + tot, n - tot);
            && 0 < m <= n - tot && Within(off + tot, m)
            && (tot + m < n ==> Aligned(off + (tot + m)))
            && Touched(off, tot + m) == Touched(off, tot) + 1
  {
    var at, m := off + tot, Step(off + tot, n - tot);
    assert (at + m - 1) / BSIZE == at / BSIZE;
    if tot > 0 {
      assert (at - 1) / BSIZE == at / BSIZE - 1;
    }
  }

  lemma LogSize(now: set<nat>, before: set<nat>, data: set<nat>, x: nat)
    requires now <= before + data + ({x} - {0})
    ensures |now| <= |before| + |data| + 1
  {
    SubsetSize(now, before + data + ({x} - {0}));
    SubsetSize({x} - {0}, {x});
  }

  // Apart from n blocks and the indirect block, others0 covers others.
  ghost predicate Covered(others0: set<nat>, others: set<nat>, ind: nat, n: nat) {
    exists data: set<nat> :: |data| <= n && CoveredBy(others0, data, others, ind)
  }

  predicate CoveredBy(others0: set<nat>, data: set<nat>, others: set<nat>, ind: nat) {
    forall b :: b in others ==> b in others0 || b in data || b == ind != 0
  }

  // What the loop of writei has logged after tot bytes: `ind` is the indirect block
  // now and `ind0` was it before, and likewise for the bitmap blocks and the others.
  ghost predicate Tally(off: nat, tot: nat, bitmaps0: set<nat>, bitmaps: set<nat>, others0: set<nat>,
                        others: set<nat>, ind0: nat, ind: nat) {
    && (ind0 != 0 ==> ind == ind0)
    && Covered(others0, others, ind, Touched(off, tot))
    && |bitmaps| <= |bitmaps0| + (if ind0 == 0 && ind != 0 then 1 else 0) + Touched(off, tot)
                    - (if !Aligned(off) && tot > 0 then 1 else 0)
  }

  lemma TallyStart(off: nat, bitmaps: set<nat>, others: set<nat>, ind: nat)
    ensures Tally(off, 0, bitmaps, bitmaps, others, others, ind, ind)
  {
    assert CoveredBy(others, {}, others, ind);
  }

  lemma TallyNext(off: nat, tot: nat, m: nat, ok: bool, addr: nat, bitmaps0: set<nat>, bitmaps: set<nat>,
                  bitmaps': set<nat>, others0: set<nat>, others: set<nat>, others': set<nat>, ind0: nat, ind: nat,
                  ind': nat)
    requires Tally(off, tot, bitmaps0, bitmaps, others0, others, ind0, ind)
    requires Touched(off, tot + m) == Touched(off, tot) + 1 && 0 < m && (tot > 0 ==> Aligned(off + tot))
    requires ind != 0 ==> ind' == ind
    requires others' <= others + (if ok then {addr} else {}) + ({ind'} - {0})
    requires |bitmaps'| <= |bitmaps| + (if ind == 0 && ind' != 0 then 1 else 0) + if ok && Aligned(off + tot) then 1
        else 0
    ensures Tally(off, if ok then tot + m else tot, bitmaps0, bitmaps', others0, others', ind0, ind')
  {
    hide Touched, Aligned, Covered;
    CoveredNext(ok, addr, Touched(off, tot), others0, others, others', ind, ind');
  }

  lemma CoveredNext(ok: bool, addr: nat, n: nat, others0: set<nat>, others: set<nat>, others': set<nat>, ind: nat,
                    ind': nat)
    requires Covered(others0, others, ind, n)
    requires ind != 0 ==> ind' == ind
    requires others' <= others + (if ok then {addr} else {}) + ({ind'} - {0})
    ensures Covered(others0, others', ind', n + if ok then 1 else 0)
  {
    var data: set<nat> :| |data| <= n && CoveredBy(others0, data, others, ind);
    if ok {
      assert CoveredBy(others0, data + {addr}, others', ind');
    } else {
      assert CoveredBy(others0, data, others', ind');
    }
  }

  lemma TallySize(off: nat, tot: nat, bitmaps0: set<nat>, bitmaps: set<nat>, others0: set<nat>, others: set<nat>,
                  ind0: nat, ind: nat)
    requires Tally(off, tot, bitmaps0, bitmaps, others0, others, ind0, ind)
    ensures |others| <= |others0| + Touched(off, tot) + 1
    ensures |bitmaps| <= |bitmaps0| + 1 + Touched(off, tot) - if !Aligned(off) && tot > 0 then 1 else 0
  {
    hide Touched, Aligned;
    var data: set<nat> :| |data| <= Touched(off, tot) && CoveredBy(others0, data, others, ind);
    LogSize(others, others0, data, ind);
  }

  // How much filewrite writes in one transaction.
  const CHUNK: nat := (MAXOPBLOCKS - 1 - 1 - 2) / 2 * BSIZE

  // What a write of n bytes at off may log: the data blocks, a bitmap block for every block
  // allocated, the indirect block with its bitmap block, and the inode.
  function MayLog(off: nat, n: nat): nat {
    Touched(off, n) + 2 + (Touched(off, n) - if !Aligned(off) && n > 0 then 1 else 0) + 1
  }

  // A write of at most CHUNK bytes logs at most MAXOPBLOCKS blocks, wherever it begins.
  lemma ChunkFits(off: nat, n: nat)
    requires n <= CHUNK
    ensures MayLog(off, n) <= MAXOPBLOCKS
  {
    if n > 0 {
      assert off == off / BSIZE * BSIZE + off % BSIZE;
    }
  }

  // No larger number of blocks would do.
  lemma ChunkLargest(n: nat)
    requires n > CHUNK && n % BSIZE == 0
    ensures exists off :: MayLog(off, n) > MAXOPBLOCKS
  {
    var m := n / BSIZE;
    assert n == m * BSIZE && m >= 4;
    assert (BSIZE - 1 + n - 1) / BSIZE == m;
    assert MayLog(BSIZE - 1, n) > MAXOPBLOCKS;
  }

  // What all inodes hold.
  ghost function FilesOf(d: Blocks, inodes: seq<Inode>): (fs: seq<seq<nat>>)
    requires Shape(inodes)
    ensures |fs| == |inodes| && forall j :: 0 <= j < |fs| ==> fs[j] == Contents(d, inodes[j])
  {
    seq(|inodes|, j requires 0 <= j < |inodes| => Contents(d, inodes[j]))
  }

  lemma FilesHeld(d: Blocks, inodes: seq<Inode>)
    requires Shape(inodes) && NoHoles(d, inodes)
    ensures AllHold(d, inodes, FilesOf(d, inodes))
  {
    forall j | 0 <= j < |inodes| ensures Holds(d, inodes[j], FilesOf(d, inodes)[j]) {
      ContentsHold(d, inodes[j]);
    }
  }

  // Inodes of the right sizes hold exactly their files, without holes.
  lemma HeldFiles(d: Blocks, inodes: seq<Inode>, fs: seq<seq<nat>>)
    requires Shape(inodes) && AllHold(d, inodes, fs)
    requires forall j :: 0 <= j < |inodes| ==> inodes[j].size == |fs[j]|
    ensures NoHoles(d, inodes) && FilesOf(d, inodes) == fs
  {
    forall j | 0 <= j < |inodes|
      ensures Mapped(d, inodes[j], inodes[j].size) && Contents(d, inodes[j]) == fs[j]
    {
      HeldContents(d, inodes[j], fs[j]);
    }
  }

  // The size of an inode plays no part in what it holds.
  lemma HoldsSize(d: Blocks, inodes: seq<Inode>, fs: seq<seq<nat>>, i: nat, size: nat)
    requires AllHold(d, inodes, fs) && i < |inodes|
    ensures AllHold(d, inodes[i := inodes[i].(size := size)], fs)
  {
    var inodes' := inodes[i := inodes[i].(size := size)];
    forall j: nat, o: nat | j < |inodes| && o < |fs[j]| ensures HoldsAt(d, inodes'[j], o, fs[j][o]) {
      assert HoldsAt(d, inodes[j], o, fs[j][o]);
    }
  }

  // The indirect block of inode i, or 0.
  function Indirect(inodes: seq<Inode>, i: nat): nat {
    if i < |inodes| && |inodes[i].addrs| == NDIRECT + 1 then inodes[i].addrs[NDIRECT] else 0
  }

  // Inode i may have new addresses; nothing else changed.
  ghost predicate OnlyAddrs(inodes: seq<Inode>, inodes': seq<Inode>, i: nat) {
    && |inodes| == |inodes'|
    && forall j :: 0 <= j < |inodes| ==> inodes'[j].size == inodes[j].size && (j != i ==> inodes'[j] == inodes[j])
  }

  lemma OnlyAddrsTrans(a: seq<Inode>, b: seq<Inode>, c: seq<Inode>, i: nat)
    requires OnlyAddrs(a, b, i) && OnlyAddrs(b, c, i)
    ensures OnlyAddrs(a, c, i)
  {
  }

  lemma OnlyAddrsSelf(a: seq<Inode>, i: nat)
    ensures OnlyAddrs(a, a, i)
  {
  }

  lemma Sizes(inodes0: seq<Inode>, inodes: seq<Inode>, i: nat)
    requires OnlyAddrs(inodes0, inodes, i)
    ensures |inodes0| == |inodes| && forall j :: 0 <= j < |inodes| ==> inodes[j].size == inodes0[j].size
  {
  }

  // What is left to do after the loop of writei, for the inodes in memory.
  lemma InodesNow(inodes0: seq<Inode>, inodes: seq<Inode>, i: nat, ino: Inode)
    requires OnlyAddrs(inodes0, inodes, i) && i < |inodes|
    ensures inodes0[i := ino] == inodes[i := ino]
  {
  }

  // The files gs are the files fs after the first n bytes of src were written at off
  // of inode i; beyond the end of a file nothing can be written.
  ghost predicate Written(fs: seq<seq<nat>>, gs: seq<seq<nat>>, i: nat, off: nat, src: seq<nat>, n: nat)
    requires i < |fs| && n <= |src|
  {
    if off <= |fs[i]| then gs == fs[i := Splice(fs[i], off, src[..n])] else n == 0 && gs == fs
  }

  lemma WrittenNothing(fs: seq<seq<nat>>, i: nat, off: nat, src: seq<nat>)
    requires i < |fs|
    ensures Written(fs, fs, i, off, src, 0)
  {
    if off <= |fs[i]| {
      SpliceNothing(fs, i, off, src);
    }
  }

  // A further chunk, of which `done` bytes were written.
  lemma WrittenMore(fs: seq<seq<nat>>, gs: seq<seq<nat>>, hs: seq<seq<nat>>, i: nat, off: nat, src: seq<nat>, k: nat,
                    n: nat, done: nat)
    requires i < |fs| && k + n <= |src| && done <= n && Written(fs, gs, i, off, src, k)
    requires |gs| == |fs|
    requires (hs == gs && done == 0)
             || (off + k <= |gs[i]| && hs == gs[i := Splice(gs[i], off + k, src[k..k + n][..done])])
    ensures Written(fs, hs, i, off, src, k + done)
  {
    if off <= |fs[i]| && off + k <= |gs[i]| && hs == gs[i := Splice(gs[i], off + k, src[k..k + n][..done])] {
      assert src[k..k + n][..done] == src[k..k + done];
      SpliceOn(fs, i, off, src, k, done);
    }
  }

  // ----- a write in several transactions

  // One transaction: the disk before it, what it logged, and the disk after it.
  datatype Tx = Tx(before: Blocks, logged: set<nat>, after: Blocks)

  // It changed only what it logged, no more than one call may log, and left a sound disk.
  ghost predicate TxOk(sb: Super, n: nat, tx: Tx) {
    Tracked(sb, tx.before, tx.after, tx.logged) && |tx.logged| <= MAXOPBLOCKS && Image(sb, tx.after, n)
  }

  ghost predicate Follows(txs: seq<Tx>, t: nat)
    requires t + 1 < |txs|
  {
    txs[t].after == txs[t + 1].before
  }

  // The transactions lead from d0 to d.
  ghost predicate Leads(sb: Super, n: nat, d0: Blocks, txs: seq<Tx>, d: Blocks) {
    && (if txs == [] then d == d0 else txs[0].before == d0 && txs[|txs| - 1].after == d)
    && (forall t: nat :: t + 1 < |txs| ==> Follows(txs, t))
    && (forall t :: 0 <= t < |txs| ==> TxOk(sb, n, txs[t]))
  }

  lemma LeadsOn(sb: Super, n: nat, d0: Blocks, txs: seq<Tx>, tx: Tx)
    requires Leads(sb, n, d0, txs, tx.before) && TxOk(sb, n, tx)
    ensures Leads(sb, n, d0, txs + [tx], tx.after)
  {
    hide TxOk;
    var all := txs + [tx];
    forall t: nat | t + 1 < |all| ensures Follows(all, t) {
      assert t + 1 < |txs| ==> Follows(txs, t);
    }
  }

  // How many of `total` bytes are written after transaction t.
  function Upto(t: nat, total: nat): nat {
    if (t + 1) * CHUNK < total then (t + 1) * CHUNK else total
  }

  // After each transaction, the file has received a whole number of chunks, or all
  // that was to be written.
  ghost predicate ByChunks(sb: Super, n: nat, fs: seq<seq<nat>>, txs: seq<Tx>, i: nat, off: nat, src: seq<nat>,
                           total: nat)
    requires i < |fs| && total <= |src|
  {
    forall t :: 0 <= t < |txs| ==> ChunkDone(sb, n, fs, txs[t].after, i, off, src, Upto(t, total))
  }

  ghost predicate ChunkDone(sb: Super, n: nat, fs: seq<seq<nat>>, d: Blocks, i: nat, off: nat, src: seq<nat>, upto: nat)
    requires i < |fs| && upto <= |src|
  {
    Image(sb, d, n) && Written(fs, FilesIn(sb, d, n), i, off, src, upto)
  }

  lemma ByChunksOn(sb: Super, n: nat, fs: seq<seq<nat>>, txs: seq<Tx>, tx: Tx, i: nat, off: nat, src: seq<nat>,
                   k: nat, done: nat)
    requires i < |fs| && k + done <= |src| && k == |txs| * CHUNK && done <= CHUNK
    requires ByChunks(sb, n, fs, txs, i, off, src, k) && ChunkDone(sb, n, fs, tx.after, i, off, src, k + done)
    ensures ByChunks(sb, n, fs, txs + [tx], i, off, src, k + done)
  {
    hide ChunkDone;
    forall t | 0 <= t < |txs| + 1
      ensures ChunkDone(sb, n, fs, (txs + [tx])[t].after, i, off, src, Upto(t, k + done))
    {
      if t < |txs| {
        assert (t + 1) * CHUNK <= |txs| * CHUNK;
        assert ChunkDone(sb, n, fs, txs[t].after, i, off, src, Upto(t, k));
      }
    }
  }

  // What readi returns of a file c: the bytes at off, clipped to the end of the file.
  function ReadSlice(c: seq<nat>, off: nat, n: nat): seq<nat> {
    if off > |c| || (off + n) % 0x1_0000_0000 < off then []
    else c[off..if off + n > |c| then |c| else off + n]
  }

  // Without wrap-around of the offset, those are all bytes of the file from off to off + n.
  lemma ReadSliceAt(c: seq<nat>, off: nat, n: nat)
    requires off < 0x1_0000_0000 && n < 0x1_0000_0000
    ensures off > |c| || off + n >= 0x1_0000_0000 ==> ReadSlice(c, off, n) == []
    ensures off <= |c| && off + n < 0x1_0000_0000 ==>
              && |ReadSlice(c, off, n)| == (if n < |c| - off then n else |c| - off)
              && forall k :: 0 <= k < |ReadSlice(c, off, n)| ==> ReadSlice(c, off, n)[k] == c[off + k]
  {
  }

  // What was written is read back, and what lies before and after it is as it was.
  lemma ReadAfterWrite(f: seq<nat>, off: nat, w: seq<nat>, at: nat, n: nat)
    requires off <= |f| && off + |w| < 0x1_0000_0000 && at + n < 0x1_0000_0000
    ensures at == off && n == |w| ==> ReadSlice(Splice(f, off, w), at, n) == w
    ensures at + n <= off || (off + |w| <= at && off + |w| <= |f|) ==>
              ReadSlice(Splice(f, off, w), at, n) == ReadSlice(f, at, n)
  {
    var g := Splice(f, off, w);
    ReadSliceAt(g, at, n);
    ReadSliceAt(f, at, n);
    forall o | 0 <= o < |g| ensures g[o] == if off <= o < off + |w| then w[o - off] else f[o] {
      SpliceAt(f, off, w, o);
    }
  }

  // The bytes of one block of a file.
  lemma BlockBytes(sb: Super, d: Blocks, inodes: seq<Inode>, own: Owners, i: nat, at: nat, m: nat)
    requires Inv(sb, d, inodes, own, {}, {}) && Shape(inodes) && i < |inodes| && NoHoles(d, inodes)
    requires at + m <= inodes[i].size && 0 < m && Within(at, m)
    ensures at < MAXFILE * BSIZE && HasBlock(d, inodes[i], at / BSIZE)
    ensures var a := Entry(d, inodes[i], SlotOf(at / BSIZE));
            && a in d && |d[a]| == BSIZE && at % BSIZE + m <= BSIZE
            && d[a][at % BSIZE..at % BSIZE + m] == Contents(d, inodes[i])[at..at + m]
  {
    assert at / BSIZE * BSIZE <= at;
    assert HasBlock(d, inodes[i], at / BSIZE);
    var a := Entry(d, inodes[i], SlotOf(at / BSIZE));
    assert a in own;
    var c := Contents(d, inodes[i]);
    forall o | at <= o < at + m ensures d[a][at % BSIZE + (o - at)] == c[o] {
      SameBlock(at, m, o);
    }
    var l, r := d[a][at % BSIZE..at % BSIZE + m], c[at..at + m];
    forall q | 0 <= q < m ensures l[q] == r[q] {
      assert r[q] == c[at + q];
    }
  }
}
