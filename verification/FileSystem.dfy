/**
  The block and inode layer of kernel/fs.c, updated in place: balloc, bfree, bmap,
  itrunc, readi and writei, and the chunked write of kernel/file.c.

  `d` is the disk as a transaction sees it and `inodes` are the in-memory inodes.
  The other fields exist for the proofs only: the inodes as they are in their blocks, who
  owns which block, the disk on which the current transaction began, and which bitmap
  blocks and which other blocks it has passed to log_write.
 */
module FileSystem {
  import opened DiskBlocks
  import opened FsSpec

  class FileSys {
    const sb: Super
    var d: Blocks
    var inodes: seq<Inode>
    ghost var dinodes: seq<Inode>
    ghost var own: Owners
    ghost var base: Blocks
    ghost var bitmaps: set<nat>
    ghost var others: set<nat>

    // Mount a disk that holds n inodes.
    constructor (sb: Super, d: Blocks, n: nat)
      requires Image(sb, d, n)
      ensures Valid() && this.sb == sb && this.d == d && inodes == InodesOf(sb, d, n)
      ensures base == d && bitmaps == {} && others == {}
    {
      hide Image, Inv, InodesOf, NoHoles, Tracked;
      ghost var o := ImageOwners(sb, d, n);
      this.sb, this.d, this.inodes := sb, d, InodesOf(sb, d, n);
      dinodes, base, bitmaps, others, own := InodesOf(sb, d, n), d, {}, {}, o;
      new;
      assert bitmaps + others == {};
    }

    // The records of the transaction and of the inodes on the disk are right.
    ghost predicate Ledger()
      reads this
    {
      && Tracked(sb, base, d, bitmaps + others) && sb.Valid(|inodes|)
      && |dinodes| == |inodes| && dinodes == InodesOf(sb, d, |dinodes|)
    }

    ghost predicate Sound()
      reads this
    {
      Inv(sb, d, inodes, own, {}, {}) && Ledger()
    }

    // Between calls the inodes are on the disk as they are in memory.
    ghost predicate Valid()
      reads this
    {
      Sound() && NoHoles(d, inodes) && dinodes == inodes
    }

    // begin_op: a transaction starts with nothing logged.
    ghost method Begin()
      requires Sound()
      modifies this`base, this`bitmaps, this`others
      ensures Sound() && base == d && bitmaps == {} && others == {}
    {
      hide Inv, InodesOf;
      base, bitmaps, others := d, {}, {};
      assert bitmaps + others == {};
    }

    // log_write of a bitmap block after changing it.
    method PutBitmap(b: nat, x: Block)
      requires Ledger() && b in d && sb.bmapstart <= b < sb.size
      modifies this`d, this`bitmaps
      ensures d == old(d)[b := x] && bitmaps == old(bitmaps) + {b} && Ledger()
    {
      hide Tracked, InodesOf;
      Recorded(b, x);
      d := d[b := x];
      bitmaps := bitmaps + {b};
      assert bitmaps + others == old(bitmaps + others) + {b};
    }

    // log_write of a data block after changing it.
    method Put(b: nat, x: Block)
      requires Ledger() && b in d && sb.dataStart <= b < sb.size
      modifies this`d, this`others
      ensures d == old(d)[b := x] && others == old(others) + {b} && Ledger()
    {
      hide Tracked, InodesOf;
      Recorded(b, x);
      d := d[b := x];
      others := others + {b};
      assert bitmaps + others == old(bitmaps + others) + {b};
    }

    lemma Recorded(b: nat, x: Block)
      requires Ledger() && b in d && sb.bmapstart <= b < sb.size
      ensures Tracked(sb, base, d[b := x], bitmaps + others + {b})
      ensures InodesOf(sb, d[b := x], |dinodes|) == dinodes
    {
      hide InodesOf, Tracked;
      TrackedPut(sb, base, d, bitmaps + others, b, x);
      InodesApart(sb, d, |dinodes|, b, x);
    }

    // The inner loop of balloc: the first free block of one bitmap block.
    method ScanBitmap(b0: nat) returns (bi: nat)
      requires sb.Valid(0) && Laid(sb, d) && b0 < sb.size && b0 % BPB == 0
      ensures bi <= BPB && b0 + bi <= sb.size
      ensures forall c :: b0 <= c < b0 + bi ==> InUse(sb, d, c)
      ensures bi < BPB && b0 + bi < sb.size ==> !InUse(sb, d, b0 + bi) && BBlock(sb, b0 + bi) == BBlock(sb, b0)
    {
      BBlockLow(sb, b0);
      var bp := d[BBlock(sb, b0)];
      bi := 0;
      while bi < BPB && b0 + bi < sb.size
        invariant 0 <= bi <= BPB && b0 + bi <= sb.size
        invariant forall c :: b0 <= c < b0 + bi ==> InUse(sb, d, c)
      {
        InChunk(sb, b0, bi);
        if !Bit(bp[bi / 8], bi % 8) {
          return;
        }
        bi := bi + 1;
      }
    }

    // The outer loop of balloc: the first free block of the disk, or sb.size.
    method FindFree() returns (b: nat)
      requires sb.Valid(0) && Laid(sb, d)
      ensures b <= sb.size && (forall c :: 0 <= c < b ==> InUse(sb, d, c))
      ensures b < sb.size ==> !InUse(sb, d, b)
    {
      hide InUse, BBlock;
      var b0 := 0;
      while b0 < sb.size
        invariant b0 % BPB == 0
        invariant forall c :: 0 <= c < b0 && c < sb.size ==> InUse(sb, d, c)
        decreases sb.size - b0
      {
        var bi := ScanBitmap(b0);
        if bi < BPB && b0 + bi < sb.size {
          return b0 + bi;
        }
        b0 := b0 + BPB;
      }
      b := sb.size;
    }

    // balloc: allocate a zeroed block, or return 0 when the disk is full.
    method BAlloc() returns (b: nat)
      requires Sound()
      modifies this`d, this`bitmaps, this`others
      ensures b == 0 ==> unchanged(this) && forall c :: 0 <= c < sb.size ==> InUse(sb, d, c)
      ensures b != 0 ==>
                && Ledger() && b < sb.size && !InUse(sb, old(d), b) && (forall c :: 0 <= c < b ==> InUse(sb, old(d), c))
                && BBlock(sb, b) in old(d) && |old(d)[BBlock(sb, b)]| == BSIZE
                && d == Allocated(sb, old(d), b)
                && bitmaps == old(bitmaps) + {BBlock(sb, b)} && others == old(others) + {b}
    {
      hide Inv, Mark, InUse, BBlock, Tracked, InodesOf, Ledger;
      ShapeOf(sb, d, inodes, own, {}, {});
      MetaInUse(sb, d, inodes, own);
      b := FindFree();
      if b == sb.size {
        return 0;
      }
      BBlockLow(sb, b);
      AllocKeeps(sb, d, inodes, own, b);
      PutBitmap(BBlock(sb, b), Mark(d[BBlock(sb, b)], b, true));
      Put(b, Zeros());
    }

    // bfree: release a block; false means panic("freeing free block").
    method BFree(b: nat) returns (ok: bool)
      requires sb.Valid(0) && Laid(sb, d) && b < sb.size && Ledger()
      modifies this`d, this`bitmaps
      ensures Ledger()
      ensures ok <==> InUse(sb, old(d), b)
      ensures BBlock(sb, b) in old(d) && |old(d)[BBlock(sb, b)]| == BSIZE
      ensures ok ==>
                && d == old(d)[BBlock(sb, b) := Mark(old(d)[BBlock(sb, b)], b, false)]
                && bitmaps == old(bitmaps) + {BBlock(sb, b)}
      ensures !ok ==> unchanged(this)
    {
      hide Tracked, InodesOf, Ledger;
      BBlockLow(sb, b);
      var bp := d[BBlock(sb, b)];
      var bi := b % BPB;
      if !Bit(bp[bi / 8], bi % 8) {
        return false;
      }
      PutBitmap(BBlock(sb, b), Mark(bp, b, false));
      ok := true;
    }

    // The state grew by blocks for inode i: nothing that was there moved.
    twostate predicate Grown(i: nat)
      reads this
    {
      && |inodes| == |old(inodes)| && i < |inodes|
      && inodes[i].size == old(inodes)[i].size
      && (forall j :: 0 <= j < |inodes| && j != i ==> inodes[j] == old(inodes)[j])
      && Keeps(old(d), old(own), d, own)
    }

    ghost predicate Full()
      reads this
    {
      FullDisk(sb, d)
    }

    // Allocate a block and enter it into addrs[k].
    method AllocDirect(i: nat, k: nat) returns (addr: nat)
      requires Sound() && i < |inodes| && k <= NDIRECT && k < |inodes[i].addrs| && inodes[i].addrs[k] == 0
      modifies this`d, this`inodes, this`own, this`bitmaps, this`others
      ensures Sound() && Shape(inodes) && Shape(old(inodes))
      ensures addr == 0 ==> unchanged(this) && Full()
      ensures addr != 0 ==>
                && Grown(i)
                && inodes[i] == WithAddr(old(inodes)[i], k, addr)
                && |bitmaps| <= |old(bitmaps)| + 1 && others == old(others) + {addr}
                && OneMore(old(d), old(inodes), d, inodes, i, k, addr)
    {
      hide Inv, Tracked, InodesOf, Allocated, OneMore, Keeps, InUse;
      ShapeOf(sb, d, inodes, own, {}, {});
      addr := BAlloc();
      if addr != 0 {
        AllocDirectOk(sb, old(d), inodes, own, i, k, addr);
        inodes := inodes[i := WithAddr(inodes[i], k, addr)];
        own := own[addr := (i, k)];
        ShapeOf(sb, d, inodes, own, {}, {});
      }
    }

    // Allocate a block and enter it into the indirect block.
    method AllocIndirect(i: nat, k: nat) returns (addr: nat)
      requires Sound() && Shape(inodes) && i < |inodes| && NDIRECT < k < SLOTS
      requires inodes[i].addrs[NDIRECT] != 0 && Entry(d, inodes[i], k) == 0
      modifies this`d, this`own, this`bitmaps, this`others
      ensures Sound() && Shape(inodes)
      ensures addr == 0 ==> unchanged(this) && Full()
      ensures addr != 0 ==>
                && Grown(i)
                && |bitmaps| <= |old(bitmaps)| + 1 && others == old(others) + {addr, inodes[i].addrs[NDIRECT]}
                && OneMore(old(d), inodes, d, inodes, i, k, addr)
    {
      hide Inv, Tracked, InodesOf, Allocated, OneMore, Keeps, InUse, Entry, PutWord;
      addr := BAlloc();
      if addr != 0 {
        AllocIndirectOk(sb, old(d), inodes, own, i, k, addr);
        var ind := inodes[i].addrs[NDIRECT];
        Put(ind, PutWord(d[ind], k - NDIRECT - 1, addr));
        own := own[addr := (i, k)];
      }
    }

    // How many blocks bmap has allocated for block bn of inode i.
    twostate function Fresh(i: nat, bn: nat, addr: nat): nat
      reads this
      requires i < |old(inodes)| && i < |inodes| && bn < MAXFILE
      requires |old(inodes)[i].addrs| == NDIRECT + 1 && |inodes[i].addrs| == NDIRECT + 1
    {
      (if old(inodes)[i].addrs[NDIRECT] == 0 && inodes[i].addrs[NDIRECT] != 0 then 1 else 0) +
      (if !HasBlock(old(d), old(inodes)[i], bn) && addr != 0 then 1 else 0)
    }

    // What bmap promises about inode i and block bn: the address, and nothing else
    // changed but possibly the indirect block.
    twostate predicate MappedBlock(i: nat, bn: nat, addr: nat)
      reads this
      requires bn < MAXFILE
    {
      && Sound() && Shape(inodes) && Shape(old(inodes)) && Grown(i)
      && addr == Entry(d, inodes[i], SlotOf(bn)) && (addr == 0 ==> Full())
      && (forall k: nat :: k < SLOTS && k != SlotOf(bn) && k != NDIRECT ==>
            Entry(d, inodes[i], k) == Entry(old(d), old(inodes)[i], k))
      && (HasBlock(old(d), old(inodes)[i], bn) ==> unchanged(this))
      && (old(inodes)[i].addrs[NDIRECT] != 0 ==> inodes[i].addrs[NDIRECT] == old(inodes)[i].addrs[NDIRECT])
      && others <= old(others) + ({addr, inodes[i].addrs[NDIRECT]} - {0})
      && |bitmaps| <= |old(bitmaps)| + Fresh(i, bn, addr)
    }

    method MapDirect(i: nat, bn: nat) returns (addr: nat)
      requires Sound() && Shape(inodes) && i < |inodes| && bn < NDIRECT
      modifies this`d, this`inodes, this`own, this`bitmaps, this`others
      ensures MappedBlock(i, bn, addr)
    {
      hide Inv, Tracked, InodesOf, InUse, Keeps;
      KeepsSame(sb, d, inodes, own);
      addr := inodes[i].addrs[bn];
      if addr == 0 {
        addr := AllocDirect(i, bn);
      }
    }

    // Load the indirect block, allocating it if necessary.
    method IndirectBlock(i: nat) returns (ind: nat)
      requires Sound() && Shape(inodes) && i < |inodes|
      modifies this`d, this`inodes, this`own, this`bitmaps, this`others
      ensures Sound() && Shape(inodes) && Grown(i)
      ensures ind == inodes[i].addrs[NDIRECT] && (ind == 0 ==> Full())
      ensures forall k: nat :: k < SLOTS && k != NDIRECT ==> Entry(d, inodes[i], k) == Entry(old(d), old(inodes)[i], k)
      ensures old(inodes)[i].addrs[NDIRECT] != 0 || ind == 0 ==> unchanged(this)
      ensures ind != 0 ==> others <= old(others) + {ind}
      ensures |bitmaps| <= |old(bitmaps)| + if old(inodes)[i].addrs[NDIRECT] == 0 && ind != 0 then 1 else 0
    {
      hide Inv, Tracked, InodesOf, InUse, Keeps;
      KeepsSame(sb, d, inodes, own);
      ind := inodes[i].addrs[NDIRECT];
      if ind == 0 {
        ind := AllocDirect(i, NDIRECT);
      }
    }

    // Look up an entry of the indirect block, allocating a block if it is empty.
    method MapEntry(i: nat, k: nat) returns (addr: nat)
      requires Sound() && Shape(inodes) && i < |inodes| && NDIRECT < k < SLOTS && inodes[i].addrs[NDIRECT] != 0
      modifies this`d, this`own, this`bitmaps, this`others
      ensures Sound() && Keeps(old(d), old(own), d, own)
      ensures addr == Entry(d, inodes[i], k) && (addr == 0 ==> Full())
      ensures forall m: nat :: m < SLOTS && m != k ==> Entry(d, inodes[i], m) == Entry(old(d), inodes[i], m)
      ensures Entry(old(d), inodes[i], k) != 0 || addr == 0 ==> unchanged(this)
      ensures addr != 0 ==> others <= old(others) + {addr, inodes[i].addrs[NDIRECT]}
      ensures |bitmaps| <= |old(bitmaps)| + if Entry(old(d), inodes[i], k) == 0 && addr != 0 then 1 else 0
    {
      hide Inv, Tracked, InodesOf, InUse, Keeps, Entry;
      KeepsSame(sb, d, inodes, own);
      addr := Entry(d, inodes[i], k);
      if addr == 0 {
        addr := AllocIndirect(i, k);
      }
    }

    method MapIndirect(i: nat, bn: nat) returns (addr: nat)
      requires Sound() && Shape(inodes) && i < |inodes| && NDIRECT <= bn < MAXFILE
      modifies this`d, this`inodes, this`own, this`bitmaps, this`others
      ensures MappedBlock(i, bn, addr)
    {
      hide Inv, Tracked, InodesOf, InUse, Keeps, Entry;
      var ind := IndirectBlock(i);
      if old(inodes[i].addrs[NDIRECT]) == 0 {
        NoIndirect(old(d), old(inodes[i]), bn + 1);
      }
      if ind == 0 {
        return 0;
      }
      ghost var d1, own1 := d, own;
      addr := MapEntry(i, bn + 1);
      KeepsTrans(old(d), old(own), d1, own1, d, own);
    }

    // bmap: the disk block of block bn of inode i, allocated if it was missing;
    // 0 when the disk is full.
    method BMap(i: nat, bn: nat) returns (addr: nat)
      requires Sound() && Shape(inodes) && i < |inodes| && bn < MAXFILE
      modifies this`d, this`inodes, this`own, this`bitmaps, this`others
      ensures MappedBlock(i, bn, addr)
    {
      if bn < NDIRECT {
        addr := MapDirect(i, bn);
      } else {
        addr := MapIndirect(i, bn);
      }
    }

    // Free addrs[k] and clear it.
    method FreeDirect(i: nat, k: nat)
      requires Sound() && Shape(inodes) && i < |inodes| && k < NDIRECT
      modifies this`d, this`inodes, this`own, this`bitmaps
      ensures Sound() && SameData(sb, old(d), d) && own == old(own) - Range(old(own), i, k, k + 1)
      ensures inodes == old(inodes)[i := WithAddr(old(inodes)[i], k, 0)]
    {
      hide Inv, Tracked, InodesOf, InUse, Mark, Entry, Range;
      ShapeOf(sb, d, inodes, own, {}, {});
      DirectSlot(d, inodes[i], k);
      EmptyRange(own, i, k);
      var b := inodes[i].addrs[k];
      if b != 0 {
        FreeSlot(sb, d, inodes, own, i, k, k);
        var ok := BFree(b);
        assert ok;
      } else {
        SkipSlot(sb, d, inodes, own, i, k, k);
      }
      InvDetach(sb, d, inodes, own, i, k);
      own := own - Range(own, i, k, k + 1);
      inodes := inodes[i := WithAddr(inodes[i], k, 0)];
    }

    // Free the blocks listed in the indirect block, and the indirect block.
    method FreeIndirect(i: nat)
      requires Sound() && Shape(inodes) && i < |inodes|
      modifies this`d, this`inodes, this`own, this`bitmaps
      ensures Sound() && SameData(sb, old(d), d) && own == old(own) - Range(old(own), i, NDIRECT, SLOTS)
      ensures inodes == old(inodes)[i := WithAddr(old(inodes)[i], NDIRECT, 0)]
    {
      hide Inv, Tracked, InodesOf, InUse, Mark, Range;
      ShapeOf(sb, d, inodes, own, {}, {});
      var ind := inodes[i].addrs[NDIRECT];
      if ind == 0 {
        NothingIndirect(sb, d, inodes, own, i);
      } else {
        FreeEntries(i);
        ShapeOf(sb, d, inodes, own, {}, Range(own, i, NDIRECT + 1, SLOTS));
        FreeIndirectBlock(sb, d, inodes, own, i);
        var ok := BFree(ind);
        assert ok;
      }
      InvDetach(sb, d, inodes, own, i, NDIRECT);
      own := own - Range(own, i, NDIRECT, SLOTS);
      inodes := inodes[i := WithAddr(inodes[i], NDIRECT, 0)];
    }

    method FreeEntries(i: nat)
      requires Sound() && Shape(inodes) && i < |inodes| && inodes[i].addrs[NDIRECT] != 0
      modifies this`d, this`bitmaps
      ensures Inv(sb, d, inodes, own, {}, Range(own, i, NDIRECT + 1, SLOTS)) && SameData(sb, old(d), d) && Ledger()
    {
      hide Inv, Tracked, InodesOf, InUse, Mark, Range, Entry;
      EmptyRange(own, i, NDIRECT + 1);
      ShapeOf(sb, d, inodes, own, {}, {});
      var j := 0;
      while j < NINDIRECT
        invariant 0 <= j <= NINDIRECT && Ledger()
        invariant Inv(sb, d, inodes, own, {}, Range(own, i, NDIRECT + 1, NDIRECT + 1 + j)) && SameData(sb, old(d), d)
      {
        ShapeOf(sb, d, inodes, own, {}, Range(own, i, NDIRECT + 1, NDIRECT + 1 + j));
        var a := Entry(d, inodes[i], NDIRECT + 1 + j);
        if a != 0 {
          FreeSlot(sb, d, inodes, own, i, NDIRECT + 1, NDIRECT + 1 + j);
          var ok := BFree(a);
          assert ok;
        } else {
          SkipSlot(sb, d, inodes, own, i, NDIRECT + 1, NDIRECT + 1 + j);
        }
        j := j + 1;
      }
    }

    // iupdate: copy inode i to its inode block.  On the disk, inode i becomes the one in
    // memory and no other inode changes; no data block and no bitmap block does.
    method IUpdate(i: nat)
      requires Sound() && i < |inodes|
      modifies this`d, this`dinodes, this`others
      ensures Sound() && dinodes == old(dinodes)[i := inodes[i]] && others == old(others) + {IBlock(sb, i)}
      ensures SameData(sb, old(d), d) && Keeps(old(d), own, d, own) && (old(Full()) ==> Full())
    {
      hide Inv, InodesOf, Tracked, SameData, Keeps, PutInode, Storable, FullDisk;
      StorableInode(sb, d, inodes, own, i);
      IBlockLow(sb, |inodes|, i);
      ShapeOf(sb, d, inodes, own, {}, {});
      var c := IBlock(sb, i);
      var x := PutInode(d[c], i, inodes[i]);
      InvMeta(sb, d, inodes, own, c, x);
      if FullDisk(sb, d) {
        FullMeta(sb, d, c, x);
      }
      InodesPut(sb, d, |inodes|, i, inodes[i]);
      TrackedPut(sb, base, d, bitmaps + others, c, x);
      d := d[c := x];
      dinodes := dinodes[i := inodes[i]];
      others := others + {c};
      assert bitmaps + others == old(bitmaps + others) + {c};
    }

    // The first loop of itrunc.
    method TruncDirect(i: nat)
      requires Sound() && Shape(inodes) && i < |inodes|
      modifies this`d, this`inodes, this`own, this`bitmaps
      ensures Sound() && Shape(inodes) && |inodes| == |old(inodes)|
      ensures forall j :: 0 <= j < |inodes| && j != i ==> inodes[j] == old(inodes)[j]
      ensures forall m :: 0 <= m < NDIRECT ==> inodes[i].addrs[m] == 0
      ensures own == old(own) - Range(old(own), i, 0, NDIRECT)
      ensures SameData(sb, old(d), d)
    {
      hide Inv, Tracked, InodesOf, Owns, Laid, InUse, Range, SameData;
      ShapeOf(sb, d, inodes, own, {}, {});
      SameDataSelf(sb, d);
      EmptyRange(own, i, 0);
      var k := 0;
      while k < NDIRECT
        invariant 0 <= k <= NDIRECT && Sound() && Shape(inodes) && |inodes| == |old(inodes)|
        invariant forall j :: 0 <= j < |inodes| && j != i ==> inodes[j] == old(inodes)[j]
        invariant forall m :: 0 <= m < k ==> inodes[i].addrs[m] == 0
        invariant own == old(own) - Range(old(own), i, 0, k)
        invariant SameData(sb, old(d), d)
      {
        RangeRest(old(own), i, 0, k, k + 1);
        ghost var d1 := d;
        FreeDirect(i, k);
        SameDataTrans(sb, old(d), d1, d);
        ShapeOf(sb, d, inodes, own, {}, {});
        k := k + 1;
      }
    }

    // itrunc: discard the contents of inode i.  Every block it owned is freed, once,
    // and bfree never finds a block already free.
    method ITrunc(i: nat)
      requires Valid() && Shape(inodes) && i < |inodes|
      modifies this`d, this`inodes, this`dinodes, this`own, this`bitmaps, this`others
      ensures Valid() && Shape(inodes) && |inodes| == |old(inodes)| && dinodes[i] == inodes[i]
      ensures inodes == old(inodes)[i := Inode(seq(NDIRECT + 1, _ => 0), 0)]
      ensures own == old(own) - Range(old(own), i, 0, SLOTS) && SameData(sb, old(d), d)
      ensures forall b :: b in Range(old(own), i, 0, SLOTS) ==> !InUse(sb, d, b)
    {
      hide Inv, Owns, InUse, Range, NoHoles, SameData, Tracked, InodesOf, Keeps;
      ShapeOf(sb, d, inodes, own, {}, {});
      RangeRest(old(own), i, 0, NDIRECT, SLOTS);
      TruncDirect(i);
      ghost var d1 := d;
      FreeIndirect(i);
      SameDataTrans(sb, old(d), d1, d);
      InvSize(sb, d, inodes, own, i, 0);
      inodes := inodes[i := inodes[i].(size := 0)];
      d1 := d;
      IUpdate(i);
      SameDataTrans(sb, old(d), d1, d);
      ShapeOf(sb, d, inodes, own, {}, {});
      NoHolesTrunc(sb, old(d), d, old(inodes), inodes, old(own), i);
      assert inodes[i].addrs == seq(NDIRECT + 1, _ => 0);
      forall b | b in Range(old(own), i, 0, SLOTS) ensures !InUse(sb, d, b) {
        RangeOwned(old(own), i, b);
        ReleasedFree(sb, d, inodes, own, b);
      }
    }

    // 1 if inode i has been given an indirect block.
    twostate function NewIndirect(i: nat): nat
      reads this
    {
      if Indirect(old(inodes), i) == 0 && Indirect(inodes, i) != 0 then 1 else 0
    }

    // The inodes are sound and hold the files fs.
    ghost predicate Holding(fs: seq<seq<nat>>)
      reads this
    {
      Sound() && Shape(inodes) && |fs| == |inodes| && AllHold(d, inodes, fs)
    }

    // One round of the loop of writei; false when the disk is full.  `fs` are the
    // files that the inodes hold.
    method WriteChunk(i: nat, off: nat, w: seq<nat>, ghost fs: seq<seq<nat>>) returns (ok: bool, addr: nat)
      requires Holding(fs) && i < |fs|
      requires 0 < |w| && off <= |fs[i]| && Within(off, |w|) && off + |w| <= MAXFILE * BSIZE
      modifies this`d, this`inodes, this`own, this`bitmaps, this`others
      ensures Holding(if ok then fs[i := Splice(fs[i], off, w)] else fs) && OnlyAddrs(old(inodes), inodes, i)
      ensures !ok ==> Full()
      ensures Indirect(old(inodes), i) != 0 ==> Indirect(inodes, i) == Indirect(old(inodes), i)
      ensures others <= old(others) + (if ok then {addr} else {}) + ({Indirect(inodes, i)} - {0})
      ensures |bitmaps| <= |old(bitmaps)| + NewIndirect(i) + if ok && Aligned(off) then 1 else 0
    {
      hide Inv, Tracked, InodesOf, Keeps, Entry, AllHold, InUse;
      ghost var d0, inodes0, own0 := d, inodes, own;
      UnalignedThere(d, inodes, fs, i, off);
      addr := BMap(i, off / BSIZE);
      KeepsHolds(sb, d0, inodes0, own0, d, inodes, own, fs);
      if addr == 0 {
        return false, 0;
      }
      PatchHolds(sb, d, inodes, own, fs, i, off, w);
      Put(addr, Patch(d[addr], off % BSIZE, w));
      ok := true;
    }

    // The arguments that writei refuses: past the end of the file, an offset that
    // wraps around 32 bits, or past the largest file.
    static predicate Refused(size: nat, off: nat, n: nat) {
      off > size || (off + n) % 0x1_0000_0000 < off || off + n > MAXFILE * BSIZE
    }

    // Wrap-around plays no part: a file is far shorter than 2^32 bytes.  What is refused
    // is to leave a gap and to outgrow the largest file.
    static lemma RefusedExactly(size: nat, off: nat, n: nat)
      requires off < 0x1_0000_0000 && n < 0x1_0000_0000
      ensures Refused(size, off, n) <==> off > size || off + n > MAXFILE * BSIZE
    {
    }

    // The loop of writei.
    method WriteLoop(i: nat, off: nat, src: seq<nat>, ghost fs: seq<seq<nat>>) returns (tot: nat)
      requires Holding(fs) && i < |fs| && off <= |fs[i]| && off + |src| <= MAXFILE * BSIZE
      modifies this`d, this`inodes, this`own, this`bitmaps, this`others
      ensures tot <= |src| && Holding(fs[i := Splice(fs[i], off, src[..tot])]) && OnlyAddrs(old(inodes), inodes, i)
      ensures tot < |src| ==> Full()
      ensures |bitmaps| <= |old(bitmaps)| + 1 + Touched(off, tot) - (if !Aligned(off) && tot > 0 then 1 else 0)
      ensures |others| <= |old(others)| + Touched(off, tot) + 1
    {
      hide Holding, OnlyAddrs, Indirect, FullDisk, Touched, Splice, Aligned, Step, Within, Tally;
      tot := 0;
      ghost var ind0 := Indirect(inodes, i);
      TallyStart(off, bitmaps, others, ind0);
      SpliceNothing(fs, i, off, src);
      OnlyAddrsSelf(inodes, i);
      while tot < |src|
        invariant tot <= |src| && Holding(fs[i := Splice(fs[i], off, src[..tot])]) && OnlyAddrs(old(inodes), inodes, i)
        invariant 0 < tot < |src| ==> Aligned(off + tot)
        invariant Tally(off, tot, old(bitmaps), bitmaps, old(others), others, ind0, Indirect(inodes, i))
      {
        var at := off + tot;
        var m := Step(at, |src| - tot);
        StepFacts(off, tot, |src|);
        ghost var gs, inodes1, bitmaps1, others1 := fs[i := Splice(fs[i], off, src[..tot])], inodes, bitmaps, others;
        var ok, addr := WriteChunk(i, at, src[tot..tot + m], gs);
        OnlyAddrsTrans(old(inodes), inodes1, inodes, i);
        TallyNext(off, tot, m, ok, addr, old(bitmaps), bitmaps1, bitmaps, old(others), others1, others, ind0,
                  Indirect(inodes1, i), Indirect(inodes, i));
        if !ok {
          break;
        }
        SpliceOn(fs, i, off, src, tot, m);
        tot := tot + m;
      }
      TallySize(off, tot, old(bitmaps), bitmaps, old(others), others, ind0, Indirect(inodes, i));
    }

    // writei once the arguments are accepted: the loop, the size and iupdate.
    method WriteChecked(i: nat, off: nat, src: seq<nat>, ghost fs: seq<seq<nat>>) returns (tot: nat)
      requires Valid() && Shape(inodes) && i < |inodes| && fs == FilesOf(d, inodes)
      requires off <= inodes[i].size && off + |src| <= MAXFILE * BSIZE
      modifies this`d, this`inodes, this`dinodes, this`own, this`bitmaps, this`others
      ensures Valid() && Shape(inodes) && |inodes| == |old(inodes)|
      ensures tot <= |src| && FilesOf(d, inodes) == fs[i := Splice(fs[i], off, src[..tot])]
      ensures tot < |src| ==> Full()
      ensures |bitmaps| <= |old(bitmaps)| + 1 + Touched(off, tot) - (if !Aligned(off) && tot > 0 then 1 else 0)
      ensures |others| <= |old(others)| + Touched(off, tot) + 2
    {
      hide Inv, Tracked, InodesOf, AllHold, FullDisk, NoHoles, Contents, Touched, Aligned, Splice, OnlyAddrs, Keeps,
           SameData;
      var size := inodes[i].size;
      FilesHeld(d, inodes);
      tot := WriteLoop(i, off, src, fs);
      ghost var gs := fs[i := Splice(fs[i], off, src[..tot])];
      Sizes(old(inodes), inodes, i);
      var size' := if off + tot > size then off + tot else size;
      InvSize(sb, d, inodes, own, i, size');
      HoldsSize(d, inodes, gs, i, size');
      InodesNow(old(inodes), inodes, i, inodes[i].(size := size'));
      inodes := inodes[i := inodes[i].(size := size')];
      ghost var d1 := d;
      IUpdate(i);
      ShapeOf(sb, d, inodes, own, {}, {});
      KeepsHolds(sb, d1, inodes, own, d, inodes, own, gs);
      HeldFiles(d, inodes, gs);
    }

    // writei: write src at offset off of inode i.  Returns the number of bytes
    // written, or -1 if the arguments are refused.  A write no longer than what
    // filewrite asks for logs at most MAXOPBLOCKS blocks, whatever else is the case.
    method WriteI(i: nat, off: nat, src: seq<nat>) returns (tot: int)
      requires Valid() && Shape(inodes) && i < |inodes| && off < 0x1_0000_0000 && |src| < 0x1_0000_0000
      modifies this`d, this`inodes, this`dinodes, this`own, this`bitmaps, this`others
      ensures Valid() && Shape(inodes) && |inodes| == |old(inodes)|
      ensures Refused(old(inodes)[i].size, off, |src|) ==> tot == -1 && unchanged(this)
      ensures !Refused(old(inodes)[i].size, off, |src|) ==>
                && 0 <= tot <= |src|
                && FilesOf(d, inodes)
                    == old(FilesOf(d, inodes))[i := Splice(old(Contents(d, inodes[i])), off, src[..tot])]
                && (tot < |src| ==> Full())
      ensures tot == -1 <==> off > old(inodes)[i].size || off + |src| > MAXFILE * BSIZE
      ensures tot == |src| && off == old(inodes)[i].size ==>
                Contents(d, inodes[i]) == old(Contents(d, inodes[i])) + src
      ensures |src| <= CHUNK && old(bitmaps) == {} && old(others) == {} ==> |bitmaps + others| <= MAXOPBLOCKS
    {
      hide Inv, Tracked, InodesOf, NoHoles, Contents, Touched, FullDisk;
      var size := inodes[i].size;
      if off > size || (off + |src|) % 0x1_0000_0000 < off {
        return -1;
      }
      if off + |src| > MAXFILE * BSIZE {
        return -1;
      }
      tot := WriteChecked(i, off, src, FilesOf(d, inodes));
      assert src[..|src|] == src;
      if |src| <= CHUNK {
        ChunkFits(off, tot);
      }
    }

    // One round of the loop of readi.
    method ReadChunk(i: nat, at: nat, m: nat) returns (bytes: seq<nat>)
      requires Valid() && Shape(inodes) && i < |inodes| && at + m <= inodes[i].size && 0 < m && Within(at, m)
      modifies this`d, this`inodes, this`own, this`bitmaps, this`others
      ensures unchanged(this)
      ensures bytes == Contents(d, inodes[i])[at..at + m]
    {
      hide Inv, Tracked, InodesOf, NoHoles, InUse, Contents, Keeps, Within;
      BlockBytes(sb, d, inodes, own, i, at, m);
      var addr := BMap(i, at / BSIZE);
      bytes := d[addr][at % BSIZE..at % BSIZE + m];
    }

    // The loop of readi, once n is clipped to the file.
    method ReadLoop(i: nat, off: nat, n: nat) returns (dst: seq<nat>)
      requires Valid() && Shape(inodes) && i < |inodes| && off + n <= inodes[i].size
      modifies this`d, this`inodes, this`own, this`bitmaps, this`others
      ensures unchanged(this) && dst == Contents(d, inodes[i])[off..off + n]
    {
      hide Sound, Valid, InUse, Contents, Step, Within, Aligned, Touched;
      ghost var c := Contents(d, inodes[i]);
      var tot := 0;
      dst := [];
      while tot < n
        invariant tot <= n && unchanged(this)
        invariant dst == c[off..off + tot]
        invariant 0 < tot < n ==> Aligned(off + tot)
      {
        var at := off + tot;
        var m := Step(at, n - tot);
        StepFacts(off, tot, n);
        var bytes := ReadChunk(i, at, m);
        assert c[off..off + tot] + c[at..at + m] == c[off..at + m];
        dst := dst + bytes;
        tot := tot + m;
      }
    }

    // readi: read n bytes at offset off of inode i.  Without holes, bmap finds every
    // block in place, so that reading changes and logs nothing.
    method ReadI(i: nat, off: nat, n: nat) returns (dst: seq<nat>)
      requires Valid() && Shape(inodes) && i < |inodes| && off < 0x1_0000_0000 && n < 0x1_0000_0000
      modifies this`d, this`inodes, this`own, this`bitmaps, this`others
      ensures unchanged(this)
      ensures dst == ReadSlice(Contents(d, inodes[i]), off, n)
      ensures off > inodes[i].size || off + n >= 0x1_0000_0000 ==> dst == []
      ensures off <= inodes[i].size && off + n < 0x1_0000_0000 ==>
                && |dst| == (if n < inodes[i].size - off then n else inodes[i].size - off)
                && forall k :: 0 <= k < |dst| ==> dst[k] == Contents(d, inodes[i])[off + k]
    {
      hide Sound, Valid, Contents;
      var size := inodes[i].size;
      ReadSliceAt(Contents(d, inodes[i]), off, n);
      if off > size || (off + n) % 0x1_0000_0000 < off {
        return [];
      }
      dst := ReadLoop(i, off, if off + n > size then size - off else n);
    }

    // What was written is there to be read, up to where the disk was full.
    method WriteThenRead(i: nat, off: nat, src: seq<nat>) returns (tot: int, dst: seq<nat>)
      requires Valid() && Shape(inodes) && i < |inodes| && off < 0x1_0000_0000 && |src| < 0x1_0000_0000
      modifies this`d, this`inodes, this`dinodes, this`own, this`bitmaps, this`others
      ensures tot >= 0 ==> tot <= |src| && dst == src[..tot]
      ensures off <= old(inodes)[i].size && off + |src| <= MAXFILE * BSIZE ==> tot >= 0 && (dst == src || Full())
    {
      hide Sound, Valid, Contents, Splice, ReadSlice, FullDisk;
      dst := [];
      tot := WriteI(i, off, src);
      if tot >= 0 {
        RefusedExactly(old(inodes)[i].size, off, |src|);
        ReadAfterWrite(old(Contents(d, inodes[i])), off, src[..tot], off, tot);
        assert FilesOf(d, inodes)[i] == Splice(old(Contents(d, inodes[i])), off, src[..tot]);
        assert src[..|src|] == src;
        dst := ReadI(i, off, tot);
      }
    }

    // A sound state is a sound disk.
    lemma OnDisk()
      requires Valid() && Shape(inodes)
      ensures Image(sb, d, |inodes|) && FilesIn(sb, d, |inodes|) == FilesOf(d, inodes)
    {
      hide Inv, Tracked, InodesOf, NoHoles, Contents;
    }

    // One transaction of filewrite: begin_op, writei, end_op.
    method WriteInTx(i: nat, off: nat, w: seq<nat>) returns (r: int, ghost tx: Tx)
      requires Valid() && Shape(inodes) && i < |inodes| && off < 0x1_0000_0000 && |w| <= CHUNK
      modifies this`d, this`inodes, this`dinodes, this`own, this`base, this`bitmaps, this`others
      ensures Valid() && Shape(inodes) && |inodes| == |old(inodes)|
      ensures TxOk(sb, |inodes|, tx) && tx.before == old(d) && tx.after == d
      ensures Refused(old(inodes)[i].size, off, |w|) ==> r == -1 && inodes == old(inodes) && d == old(d)
      ensures !Refused(old(inodes)[i].size, off, |w|) ==>
                && 0 <= r <= |w|
                && FilesOf(d, inodes) == old(FilesOf(d, inodes))[i := Splice(old(Contents(d, inodes[i])), off, w[..r])]
                && (r < |w| ==> Full())
    {
      hide Inv, Tracked, InodesOf, NoHoles, Contents, FullDisk, Image;
      Begin();
      r := WriteI(i, off, w);
      OnDisk();
      tx := Tx(base, bitmaps + others, d);
    }

    // k bytes of src have been written, by the transactions txs on the disk d0.
    ghost predicate Progress(d0: Blocks, fs: seq<seq<nat>>, txs: seq<Tx>, i: nat, off: nat, src: seq<nat>, k: nat)
      reads this
      requires i < |fs| && k <= |src|
    {
      && Valid() && Shape(inodes) && |inodes| == |fs| && Written(fs, FilesOf(d, inodes), i, off, src, k)
      && Leads(sb, |inodes|, d0, txs, d) && ByChunks(sb, |inodes|, fs, txs, i, off, src, k)
    }

    // One round of the loop of filewrite.
    method WriteRound(i: nat, off: nat, src: seq<nat>, k: nat, ghost d0: Blocks, ghost fs: seq<seq<nat>>,
                      ghost txs: seq<Tx>)
      returns (r: int, ghost tx: Tx)
      requires i < |fs| && k < |src| && off + k < 0x1_0000_0000 && k == |txs| * CHUNK
               && Progress(d0, fs, txs, i, off, src, k)
      modifies this`d, this`inodes, this`dinodes, this`own, this`base, this`bitmaps, this`others
      ensures -1 <= r <= ChunkSize(|src|, k)
      ensures Progress(d0, fs, txs + [tx], i, off, src, k + if r > 0 then r else 0)
      ensures r < ChunkSize(|src|, k) ==>
                Full() || (r == -1 && Refused(inodes[i].size, off + k, ChunkSize(|src|, k)))
    {
      hide Inv, Tracked, InodesOf, NoHoles, Contents, Written, FullDisk, TxOk, Leads, ByChunks, ChunkDone, Image;
      var n1 := ChunkSize(|src|, k);
      ghost var gs := FilesOf(d, inodes);
      r, tx := WriteInTx(i, off + k, src[k..k + n1]);
      ghost var done := if r > 0 then r else 0;
      WrittenMore(fs, gs, FilesOf(d, inodes), i, off, src, k, n1, done);
      AfterChunk(fs, i, off, src, k + done);
      LeadsOn(sb, |inodes|, d0, txs, tx);
      ByChunksOn(sb, |inodes|, fs, txs, tx, i, off, src, k, done);
    }

    // The inode part of filewrite: write src at off in transactions of at most CHUNK
    // bytes.  `txs` are the transactions, and after each of them a crash would find a
    // sound disk with a whole number of chunks written.
    method FileWrite(i: nat, off: nat, src: seq<nat>) returns (ret: int, off': nat, ghost txs: seq<Tx>)
      requires Valid() && Shape(inodes) && i < |inodes| && off < 0x1_0000_0000 && |src| < 0x8000_0000
      modifies this`d, this`inodes, this`dinodes, this`own, this`base, this`bitmaps, this`others
      ensures Valid() && Shape(inodes) && |inodes| == |old(inodes)|
      ensures off <= off' <= off + |src|
      ensures Written(old(FilesOf(d, inodes)), FilesOf(d, inodes), i, off, src, off' - off)
      ensures Leads(sb, |inodes|, old(d), txs, d)
      ensures ByChunks(sb, |inodes|, old(FilesOf(d, inodes)), txs, i, off, src, off' - off)
      ensures ret == if off' == off + |src| then |src| else -1
      ensures |txs| == if ret >= 0 then (|src| + CHUNK - 1) / CHUNK else (off' - off) / CHUNK + 1
      ensures ret == -1 ==> Full() || Refused(inodes[i].size, off', ChunkSize(|src|, off' - off))
      ensures ret == -1 ==> Full() || off > old(inodes)[i].size || off + |src| > MAXFILE * BSIZE
    {
      hide Valid, Shape, Contents, Written, FullDisk, Leads, ByChunks;
      ghost var fs := FilesOf(d, inodes);
      var k := 0;
      off', txs := off, [];
      WrittenNothing(fs, i, off, src);
      NoChunks(sb, |inodes|, d, fs, i, off, src);
      while k < |src|
        invariant k <= |src| && off' == off + k && Counted(|txs|, k, |src|)
        invariant off' < 0x1_0000_0000 && Progress(old(d), fs, txs, i, off, src, k)
      {
        var r;
        ghost var tx;
        r, tx := WriteRound(i, off, src, k, old(d), fs, txs);
        CountedOn(|txs|, k, |src|, if r > 0 then r else 0);
        Bounded(fs, txs, i, off, src, k + if r > 0 then r else 0);
        txs := txs + [tx];
        if r > 0 {
          off' := off' + r;
        }
        if r != ChunkSize(|src|, k) {
          break;
        }
        k := k + r;
      }
      ret := if k == |src| then |src| else -1;
      WhyShort(fs, i, off, src, off' - off);
    }

    // What has been written fits a file.
    lemma Bounded(fs: seq<seq<nat>>, txs: seq<Tx>, i: nat, off: nat, src: seq<nat>, k: nat)
      requires i < |fs| && k <= |src| && Shape(inodes) && |fs| == |inodes|
      requires Written(fs, FilesOf(d, inodes), i, off, src, k)
      ensures k > 0 ==> off + k <= MAXFILE * BSIZE
    {
      hide Contents, Splice;
      assert FilesOf(d, inodes)[i] == Contents(d, inodes[i]);
    }

    // A chunk is refused only if it was clear from the start that the whole would not fit.
    lemma WhyShort(fs: seq<seq<nat>>, i: nat, off: nat, src: seq<nat>, k: nat)
      requires i < |fs| && k <= |src| && Shape(inodes) && |fs| == |inodes| && off + k < 0x1_0000_0000
      requires |src| < 0x8000_0000 && Written(fs, FilesOf(d, inodes), i, off, src, k)
      ensures Refused(inodes[i].size, off + k, ChunkSize(|src|, k)) ==>
                off > |fs[i]| || off + |src| > MAXFILE * BSIZE
    {
      hide Contents, Splice;
      RefusedExactly(inodes[i].size, off + k, ChunkSize(|src|, k));
      assert FilesOf(d, inodes)[i] == Contents(d, inodes[i]);
    }

    lemma AfterChunk(fs: seq<seq<nat>>, i: nat, off: nat, src: seq<nat>, upto: nat)
      requires Valid() && Shape(inodes) && i < |fs| && upto <= |src|
               && Written(fs, FilesOf(d, inodes), i, off, src, upto)
      ensures ChunkDone(sb, |inodes|, fs, d, i, off, src, upto)
    {
      hide Inv, Tracked, InodesOf, NoHoles, Contents, Written, Image;
      OnDisk();
    }
  }

  // The bytes that filewrite passes to writei when k of n are written.
  function ChunkSize(n: nat, k: nat): nat
    requires k <= n
  {
    if n - k > CHUNK then CHUNK else n - k
  }

  // The transactions so far, when k of n bytes are written and none has failed.
  predicate Counted(t: nat, k: nat, n: nat) {
    if k < n then k == t * CHUNK else t == (n + CHUNK - 1) / CHUNK
  }

  lemma CountedOn(t: nat, k: nat, n: nat, done: nat)
    requires k < n && Counted(t, k, n) && done <= ChunkSize(n, k)
    ensures done == ChunkSize(n, k) ==> Counted(t + 1, k + done, n)
    ensures done < ChunkSize(n, k) ==> t + 1 == (k + done) / CHUNK + 1
  {
    if done < ChunkSize(n, k) {
      Chunks(t, done);
    } else if k + done == n {
      Chunks(t + 1, done - 1);
      assert n + CHUNK - 1 == (t + 1) * CHUNK + (done - 1);
    }
  }

  lemma Chunks(t: nat, r: nat)
    requires r < CHUNK
    ensures (t * CHUNK + r) / CHUNK == t
  {
    assert CHUNK == 3072;
  }

  lemma NoChunks(sb: Super, n: nat, d: Blocks, fs: seq<seq<nat>>, i: nat, off: nat, src: seq<nat>)
    requires i < |fs|
    ensures Leads(sb, n, d, [], d) && ByChunks(sb, n, fs, [], i, off, src, 0)
  {
  }
}
