/**
  A crash in the middle of a filewrite: the transactions of FileSystem committed through
  the log of LogSpec.

  A disk "backs" the blocks d that the file system sees when its log is empty and it has
  the same blocks outside the log.
 */
module FileCrash {
  import opened DiskBlocks
  import opened LogSpec
  import opened FsSpec

  ghost predicate Backs(l: Layout, p: Disk, d: Blocks) {
    && WellFormed(l, p) && Logged(p[l.start]) == [] && p.Keys == d.Keys
    && forall b :: b in d && !l.InLog(b) ==> p[b] == d[b]
  }

  // The log lies before the inodes and has room for one call.
  predicate Placed(l: Layout, sb: Super) {
    l.start + l.size <= sb.inodestart && l.size > MAXOPBLOCKS
  }

  // The blocks of s in some order, as log_write lists them.
  ghost predicate Lists(bs: seq<nat>, s: set<nat>) {
    |bs| == |s| && forall b :: b in bs <==> b in s
  }

  // ----- what the file system sees does not depend on the log

  lemma InodesAgree(l: Layout, sb: Super, n: nat, d: Blocks, r: Blocks)
    requires Placed(l, sb) && Backs(l, r, d) && sb.Valid(n)
    ensures InodesOf(sb, r, n) == InodesOf(sb, d, n)
  {
    hide Word, WordsOf, WellFormed, Logged;
    forall i | 0 <= i < n ensures ReadInode(sb, r, i) == ReadInode(sb, d, i) {
      IBlockLow(sb, n, i);
    }
  }

  lemma OwnsAgree(l: Layout, sb: Super, d: Blocks, r: Blocks, inodes: seq<Inode>, own: Owners)
    requires Placed(l, sb) && Backs(l, r, d) && sb.inodestart <= sb.dataStart && sb.Valid(0) && Laid(sb, d)
    requires Shape(inodes) && Owns(sb, d, inodes, own)
    ensures Owns(sb, r, inodes, own) && Keeps(d, own, r, own)
  {
    hide Word, WellFormed, Logged;
    forall i: nat, k: nat | i < |inodes| && k < SLOTS ensures Entry(r, inodes[i], k) == Entry(d, inodes[i], k) {
      assert Entry(d, inodes[i], NDIRECT) == inodes[i].addrs[NDIRECT];
    }
    forall i: nat, k: nat | i < |inodes| && k < SLOTS && Entry(r, inodes[i], k) != 0
      ensures Entry(r, inodes[i], k) in own && own[Entry(r, inodes[i], k)] == (i, k)
    {
      assert Entry(d, inodes[i], k) != 0;
    }
  }

  lemma BitmapAgree(l: Layout, sb: Super, d: Blocks, r: Blocks, own: Owners)
    requires Placed(l, sb) && Backs(l, r, d) && sb.inodestart <= sb.bmapstart && sb.Valid(0) && Laid(sb, d)
    requires Bitmap(sb, d, own, {}, {})
    ensures Laid(sb, r) && Bitmap(sb, r, own, {}, {})
  {
    hide Word, Logged, Bit;
    assert Laid(sb, r);
    forall b | 0 <= b < sb.size ensures BBlock(sb, b) < sb.dataStart && Marked(sb, r, b) == Marked(sb, d, b) {
      BBlockLow(sb, b);
    }
  }

  lemma InvAgree(l: Layout, sb: Super, d: Blocks, r: Blocks, inodes: seq<Inode>, own: Owners)
    requires Placed(l, sb) && Backs(l, r, d) && Inv(sb, d, inodes, own, {}, {})
    ensures Inv(sb, r, inodes, own, {}, {}) && Keeps(d, own, r, own)
  {
    hide Backs, Owns, Bitmap, Laid, Keeps;
    OwnsAgree(l, sb, d, r, inodes, own);
    BitmapAgree(l, sb, d, r, own);
  }

  lemma ImageAgrees(l: Layout, sb: Super, n: nat, d: Blocks, r: Blocks)
    requires Placed(l, sb) && Backs(l, r, d) && Image(sb, d, n)
    ensures Image(sb, r, n) && FilesIn(sb, r, n) == FilesIn(sb, d, n)
  {
    hide Backs, Inv, Keeps, NoHoles, Contents, InodesOf;
    var inodes := InodesOf(sb, d, n);
    var own: Owners :| Inv(sb, d, inodes, own, {}, {});
    Layout0(sb, d, inodes, own);
    InodesAgree(l, sb, n, d, r);
    InvAgree(l, sb, d, r, inodes, own);
    var fs := FilesOf(d, inodes);
    FilesHeld(d, inodes);
    KeepsHolds(sb, d, inodes, own, r, inodes, own, fs);
    HeldFiles(r, inodes, fs);
  }

  lemma Layout0(sb: Super, d: Blocks, inodes: seq<Inode>, own: Owners)
    requires Inv(sb, d, inodes, own, {}, {})
    ensures sb.Valid(|inodes|) && sb.Valid(0) && Laid(sb, d)
  {
  }

  // ----- one transaction

  lemma TxLogged(l: Layout, sb: Super, n: nat, p: Disk, tx: Tx, bs: seq<nat>)
    requires Placed(l, sb) && Backs(l, p, tx.before) && TxOk(sb, n, tx) && Lists(bs, tx.logged)
    ensures GoodList(l, p, bs) && Loggable(tx.after, bs) && tx.after.Keys == p.Keys
    ensures forall b :: b in p && !l.InLog(b) && b !in bs ==> p[b] == tx.after[b]
  {
    hide WellFormed, Logged, Inv;
    var own: Owners :| Inv(sb, tx.after, InodesOf(sb, tx.after, n), own, {}, {});
    Layout0(sb, tx.after, InodesOf(sb, tx.after, n), own);
    forall i | 0 <= i < |bs| ensures bs[i] in p && !l.InLog(bs[i]) && bs[i] in tx.after && |tx.after[bs[i]]| == BSIZE {
      assert bs[i] in tx.logged;
    }
  }

  // A whole commit takes the disk from the state before to the state after.
  lemma TxCommits(l: Layout, sb: Super, n: nat, p: Disk, tx: Tx, bs: seq<nat>)
    requires Placed(l, sb) && Backs(l, p, tx.before) && TxOk(sb, n, tx) && Lists(bs, tx.logged)
    ensures GoodList(l, p, bs) && Loggable(tx.after, bs)
    ensures Backs(l, CommitDisk(l, p, tx.after, bs, 2 * |bs| + 2), tx.after)
  {
    hide TxOk, Logged, GoodList, Loggable, CommitDisk, Lists, Word;
    TxLogged(l, sb, n, p, tx, bs);
    CommitComplete(l, p, tx.after, bs);
  }

  // ds are the disks of a crash after j writes of the commit of tx on p, and of crashes in
  // the recoveries after it.
  ghost predicate CrashIn(l: Layout, p: Disk, tx: Tx, bs: seq<nat>, j: nat, ds: seq<Disk>) {
    && Formatted(l, p) && GoodList(l, p, bs) && Loggable(tx.after, bs) && j <= 2 * |bs| + 2
    && CrashChain(l, ds) && ds[0] == CommitDisk(l, p, tx.after, bs, j)
  }

  // A crash anywhere in the commit, and any number of crashes in the recoveries after
  // it, leave the state before if the header had not been written, else the state after.
  lemma TxCrash(l: Layout, sb: Super, n: nat, p: Disk, tx: Tx, bs: seq<nat>, j: nat, ds: seq<Disk>)
    requires Placed(l, sb) && Backs(l, p, tx.before) && TxOk(sb, n, tx) && Lists(bs, tx.logged)
    requires CrashIn(l, p, tx, bs, j, ds)
    ensures ds != [] && WellFormed(l, ds[|ds| - 1])
    ensures Backs(l, Recover(l, ds[|ds| - 1]), if j > |bs| then tx.after else tx.before)
  {
    hide TxOk, Logged, GoodList, Loggable, CommitDisk, Lists, Word, Recover, Stopped;
    TxLogged(l, sb, n, p, tx, bs);
    CommitThenCrashes(l, p, tx.after, bs, j, ds);
  }

  // ----- all transactions of a filewrite

  // ps[t] is the disk when transaction t begins; a transaction that logged nothing
  // writes nothing.
  ghost predicate Commits(l: Layout, txs: seq<Tx>, bss: seq<seq<nat>>, ps: seq<Disk>) {
    && |bss| == |txs| && |ps| == |txs| + 1
    && forall t :: 0 <= t < |txs| ==> CommitsAt(l, txs[t], bss[t], ps[t], ps[t + 1])
  }

  ghost predicate CommitsAt(l: Layout, tx: Tx, bs: seq<nat>, p: Disk, q: Disk) {
    && Lists(bs, tx.logged) && Formatted(l, p) && GoodList(l, p, bs) && Loggable(tx.after, bs)
    && q == if bs == [] then p else CommitDisk(l, p, tx.after, bs, 2 * |bs| + 2)
  }

  // The file system's blocks when transaction t begins.
  ghost function Before(d0: Blocks, txs: seq<Tx>, t: nat): Blocks
    requires t <= |txs|
  {
    if t == 0 then d0 else txs[t - 1].after
  }

  lemma BeforeTx(sb: Super, n: nat, d0: Blocks, txs: seq<Tx>, d: Blocks, t: nat)
    requires Leads(sb, n, d0, txs, d) && t < |txs|
    ensures txs[t].before == Before(d0, txs, t) && TxOk(sb, n, txs[t])
  {
    hide TxOk;
    if t > 0 {
      assert Follows(txs, t - 1);
    }
  }

  lemma NothingChanged(l: Layout, sb: Super, n: nat, p: Disk, tx: Tx)
    requires Backs(l, p, tx.before) && TxOk(sb, n, tx) && Lists([], tx.logged)
    ensures Backs(l, p, tx.after)
  {
    hide WellFormed, Logged, Image;
    assert tx.logged == {};
  }

  lemma {:induction false} BacksAt(l: Layout, sb: Super, n: nat, d0: Blocks, txs: seq<Tx>, d: Blocks,
                                   bss: seq<seq<nat>>, ps: seq<Disk>, t: nat)
    requires Placed(l, sb) && Leads(sb, n, d0, txs, d) && Commits(l, txs, bss, ps) && Backs(l, ps[0], d0) && t <= |txs|
    ensures Backs(l, ps[t], Before(d0, txs, t))
    decreases t
  {
    hide Leads, Backs, TxOk, Lists, GoodList, Loggable, CommitDisk, Formatted;
    if t > 0 {
      BacksAt(l, sb, n, d0, txs, d, bss, ps, t - 1);
      BeforeTx(sb, n, d0, txs, d, t - 1);
      assert CommitsAt(l, txs[t - 1], bss[t - 1], ps[t - 1], ps[t]);
      if bss[t - 1] == [] {
        NothingChanged(l, sb, n, ps[t - 1], txs[t - 1]);
      } else {
        TxCommits(l, sb, n, ps[t - 1], txs[t - 1], bss[t - 1]);
      }
    }
  }

  lemma ChunkBefore(sb: Super, n: nat, d0: Blocks, fs: seq<seq<nat>>, txs: seq<Tx>, i: nat, off: nat, src: seq<nat>,
                    total: nat, t: nat)
    requires Image(sb, d0, n) && fs == FilesIn(sb, d0, n) && i < |fs| && total <= |src| && t <= |txs|
    requires ByChunks(sb, n, fs, txs, i, off, src, total)
    ensures ChunkDone(sb, n, fs, Before(d0, txs, t), i, off, src, Whole(t, total))
  {
    hide Image, FilesIn;
    if t == 0 {
      WrittenNothing(fs, i, off, src);
    } else {
      assert ChunkDone(sb, n, fs, txs[t - 1].after, i, off, src, Upto(t - 1, total));
    }
  }

  // As much as t whole chunks hold of `total` bytes.
  function Whole(t: nat, total: nat): nat {
    if t * CHUNK < total then t * CHUNK else total
  }

  // The transactions write src at off of file i, up to `total` bytes, on a sound disk d0
  // with the files fs: what FileSystem.FileWrite ensures of them.
  ghost predicate Writes(sb: Super, n: nat, d0: Blocks, txs: seq<Tx>, d: Blocks, fs: seq<seq<nat>>, i: nat, off: nat,
                         src: seq<nat>, total: nat) {
    && Image(sb, d0, n) && fs == FilesIn(sb, d0, n) && i < |fs| && total <= |src|
    && Leads(sb, n, d0, txs, d) && ByChunks(sb, n, fs, txs, i, off, src, total)
  }

  // The transactions commit one after the other, from a disk that backs d0 on, and ds are
  // the disks of a crash after j writes of the commit of t and of the recoveries after it.
  ghost predicate CrashAt(l: Layout, d0: Blocks, txs: seq<Tx>, bss: seq<seq<nat>>, ps: seq<Disk>, t: nat, j: nat,
                          ds: seq<Disk>) {
    Commits(l, txs, bss, ps) && Backs(l, ps[0], d0) && t < |txs| && CrashIn(l, ps[t], txs[t], bss[t], j, ds)
  }

  // How many transactions made it: the header of transaction t is write |bss[t]| + 1.
  function Landed(bss: seq<seq<nat>>, t: nat, j: nat): nat {
    if t < |bss| && j > |bss[t]| then t + 1 else t
  }

  // What is recovered from the last disk is sound, file i has the bytes of src up to
  // `upto`, and every other file is as in fs.
  ghost predicate Recovers(l: Layout, sb: Super, n: nat, ds: seq<Disk>, fs: seq<seq<nat>>, i: nat, off: nat,
                           src: seq<nat>, upto: nat) {
    && i < |fs| && upto <= |src| && ds != [] && WellFormed(l, ds[|ds| - 1])
    && ChunkDone(sb, n, fs, Recover(l, ds[|ds| - 1]), i, off, src, upto)
  }

  // Stop the machine after any write of the commit of any transaction of a filewrite,
  // and then stop any number of recoveries.  The disk recovered at last is sound, and
  // the file is as it was after the first t chunks if the header of transaction t had
  // not been written, and as after t + 1 chunks if it had; no other file has changed.
  lemma FileWriteCrash(l: Layout, sb: Super, n: nat, d0: Blocks, txs: seq<Tx>, d: Blocks, bss: seq<seq<nat>>,
                       ps: seq<Disk>, fs: seq<seq<nat>>, i: nat, off: nat, src: seq<nat>, total: nat, t: nat, j: nat,
                       ds: seq<Disk>)
    requires Placed(l, sb) && Writes(sb, n, d0, txs, d, fs, i, off, src, total)
    requires CrashAt(l, d0, txs, bss, ps, t, j, ds)
    ensures Recovers(l, sb, n, ds, fs, i, off, src, Whole(Landed(bss, t, j), total))
  {
    hide Placed, Image, FilesIn, Leads, ByChunks, Backs, TxOk, Lists, GoodList, Loggable, CommitDisk, Formatted,
         WellFormed, Stopped, Recover, Written, CrashIn;
    BacksAt(l, sb, n, d0, txs, d, bss, ps, t);
    BeforeTx(sb, n, d0, txs, d, t);
    assert CommitsAt(l, txs[t], bss[t], ps[t], ps[t + 1]);
    TxCrash(l, sb, n, ps[t], txs[t], bss[t], j, ds);
    var u := Landed(bss, t, j);
    ChunkBefore(sb, n, d0, fs, txs, i, off, src, total, u);
    ImageAgrees(l, sb, n, Before(d0, txs, u), Recover(l, ds[|ds| - 1]));
  }
}
