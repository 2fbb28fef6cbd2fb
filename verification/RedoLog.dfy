/**
  The log operations of kernel/log.c, step by step over the buffer cache.

  `disk.trace` grows by one disk for every bwrite, so the postconditions of Commit and
  RecoverFromLog name every disk on which a crash could strike; LogSpec says what
  recovery makes of each of them.

  Other processes use the cache at the same time: `held` counts their references, and
  bc.locks are the buffers they have locked.
 */
module RedoLog {
  import opened Common
  import opened DiskBlocks
  import opened LogSpec
  import opened BufferCache

  // ----- references

  lemma OneRef(r: multiset<nat>, p: nat)
    ensures r <= Inc(r, p) && Dec(Inc(r, p), p) == r && Inc(r, p)[p] == r[p] + 1
  {
  }

  lemma IncSwap(r: multiset<nat>, p: nat, q: nat)
    requires p != q
    ensures Inc(Inc(r, p), q) == Inc(Inc(r, q), p) && Inc(Inc(r, p), q)[p] == r[p] + 1
  {
  }

  // Taking a reference to p and then to q, and giving both up in either order, or
  // giving up one to q more.
  lemma PairOfRefs(r: multiset<nat>, p: nat, q: nat)
    requires p != q
    ensures var t := Inc(Inc(r, p), q);
            && r <= t && t[p] == r[p] + 1 && t[q] == r[q] + 1 && p in t && q in t
            && Dec(Dec(t, q), p) == r && Dec(Dec(t, p), q) == r
            && Dec(t, q)[p] == t[p] && Dec(t, q)[q] == r[q]
            && Dec(Dec(Dec(t, q), p), q) == Dec(r, q)
  {
    hide Inc, Dec;
    OneRef(r, p);
    OneRef(Inc(r, p), q);
    OneRef(r, q);
    OneRef(Inc(r, q), p);
    IncSwap(r, p, q);
    IncSwap(r, q, p);
    DecFacts(Inc(Inc(r, p), q), q);
  }

  ghost function Elems(s: seq<nat>): set<nat> {
    set c | c in s
  }

  // One reference for every entry of s.
  ghost function Pins(s: seq<nat>): multiset<nat> {
    multiset(s)
  }

  // The references of two parties together.
  ghost function Both(a: multiset<nat>, b: multiset<nat>): multiset<nat> {
    a + b
  }

  lemma BothFacts(a: multiset<nat>, b: multiset<nat>)
    ensures a <= Both(a, b) && b <= Both(a, b) && forall c :: Both(a, b)[c] == a[c] + b[c]
    ensures Both(multiset{}, b) == b && Both(a, multiset{}) == a
  {
  }

  lemma PinsFacts(s: seq<nat>)
    ensures forall c :: c in Pins(s) <==> c in s
    ensures s == [] ==> Pins(s) == multiset{}
  {
  }

  // Giving up the pin of entry k.
  lemma PinsDrop(s: seq<nat>, k: nat, held: multiset<nat>)
    requires k < |s|
    ensures s[k] in Both(Pins(s[k..]), held)
    ensures Dec(Both(Pins(s[k..]), held), s[k]) == Both(Pins(s[k + 1..]), held)
    ensures Elems(s[k..]) == Elems(s[k + 1..]) + {s[k]}
  {
    assert s[k..] == [s[k]] + s[k + 1..];
  }

  // Somebody else takes or gives up a reference.
  lemma HeldInc(a: multiset<nat>, held: multiset<nat>, c: nat)
    ensures Inc(Both(a, held), c) == Both(a, Inc(held, c))
  {
  }

  lemma HeldDec(a: multiset<nat>, held: multiset<nat>, c: nat)
    requires c in held
    ensures Dec(Both(a, held), c) == Both(a, Dec(held, c))
  {
  }

  // Logging a block that somebody holds, and then releasing it.
  lemma PinsAbsorb(s: seq<nat>, c: nat, held: multiset<nat>)
    requires c in held
    ensures var r := Both(Pins(s), held);
            var t := if c in s then r else Inc(r, c);
            && c in r && r <= t && t[c] >= 2 && t == Both(Pins(Absorb(s, c)), held)
            && Dec(t, c) == Both(Pins(Absorb(s, c)), Dec(held, c))
  {
    if c in s {
      PinsHeld(Pins(s), c, held);
    } else {
      assert Pins(s + [c]) == Inc(Pins(s), c);
      PinsHeld(Inc(Pins(s), c), c, held);
    }
  }

  lemma PinsHeld(a: multiset<nat>, c: nat, held: multiset<nat>)
    requires c in a && c in held
    ensures Both(a, held)[c] >= 2 && Dec(Both(a, held), c) == Both(a, Dec(held, c))
  {
  }

  lemma PinsGrow(s: seq<nat>, c: nat, held: multiset<nat>)
    ensures Both(Pins(s), held) <= Both(Pins(Absorb(s, c)), held)
  {
    assert Pins(s) <= Pins(Absorb(s, c));
  }

  lemma {:induction false} PinsSize(s: seq<nat>)
    ensures |Referred(Pins(s))| <= |s|
    decreases |s|
  {
    if s != [] {
      PinsSize(s[1..]);
      assert s == [s[0]] + s[1..];
      assert Referred(Pins(s)) == Referred(Pins(s[1..])) + {s[0]};
    }
  }

  lemma Fewer(a: multiset<nat>, b: multiset<nat>)
    requires a <= b
    ensures |Referred(a)| <= |Referred(b)|
  {
    SubsetSize(Referred(a), Referred(b));
  }

  lemma OneMore(m: multiset<nat>, c: nat)
    ensures |Referred(Inc(m, c))| <= |Referred(m)| + 1
  {
    IncFacts(m, c);
  }

  // ----- cached and stored contents

  // Only the blocks of s may differ from the disk.
  ghost predicate CleanBut(view: Disk, d: Disk, s: set<nat>) {
    view.Keys == d.Keys && forall c :: c in view && c !in s ==> view[c] == d[c]
  }

  // What the two halves of a commit amount to.
  lemma CommitOutcome(l: Layout, d: Disk, view: Disk, bs: seq<nat>)
    requires WellFormed(l, d) && GoodList(l, d, bs) && Loggable(view, bs) && CleanBut(view, d, Elems(bs))
    ensures var c := CommitPoint(l, d, view, bs);
            && FillTrace(l, d, view, bs, |bs|) + [c] + RecoveryTrace(l, c, |bs| + 1) == CommitTrace(l, d, view, bs)
            && WellFormed(l, Recover(l, c)) && Logged(Recover(l, c)[l.start]) == []
            && Recover(l, c).Keys == d.Keys
            && forall b :: b in view && !l.InLog(b) ==> Recover(l, c)[b] == view[b]
  {
    hide Fill, RecoveryDisk, GoodList, Loggable, Logged, Word;
    CommitComplete(l, d, view, bs);
  }

  // Clearing the header of the installed disk completes the recovery of d.
  lemma ErasedDisk(l: Layout, d: Disk)
    requires WellFormed(l, d)
    ensures var n := |Logged(d[l.start])|;
            var p := RecoveryDisk(l, d, n);
            && l.start in p && |p[l.start]| == BSIZE
            && p[l.start := EncodeHeader(p[l.start], [])] == Recover(l, d)
            && RecoveryTrace(l, d, n) + [Recover(l, d)] == RecoveryTrace(l, d, n + 1)
  {
    hide EncodeHeader, Logged, Word, RecoveryTrace, Install;
    RecoveryStep(l, d, |Logged(d[l.start])|);
    RecoveryTraceNext(l, d, |Logged(d[l.start])|);
  }

  // The header block can take the list bs, and what write_head then makes of it.
  ghost predicate Headed(l: Layout, d: Disk, bs: seq<nat>) {
    l.start in d && |d[l.start]| == BSIZE && |bs| < WORDS && Fit32(bs)
  }

  ghost function Header(l: Layout, d: Disk, bs: seq<nat>): Block {
    if Headed(l, d, bs) then EncodeHeader(d[l.start], bs) else []
  }

  // The header block after write_head has stored the count and the first i entries.
  ghost function Partial(data: Block, bs: seq<nat>, i: nat): (r: Block)
    requires |data| == BSIZE && i <= |bs| <= LOGSIZE && Fit32(bs)
    ensures |r| == BSIZE
  {
    PutWords(data, 0, [|bs|] + bs[..i])
  }

  lemma PartialEnds(data: Block, bs: seq<nat>)
    requires |data| == BSIZE && |bs| <= LOGSIZE && Fit32(bs)
    ensures Partial(data, bs, 0) == PutWord(data, 0, |bs|)
    ensures Partial(data, bs, |bs|) == EncodeHeader(data, bs)
  {
    hide PutWord, Word;
    PutWordsNext(data, 0, [], |bs|);
    assert [|bs|] + bs[..0] == [] + [|bs|];
    assert bs[..|bs|] == bs;
  }

  lemma PartialNext(data: Block, bs: seq<nat>, i: nat)
    requires |data| == BSIZE && i < |bs| <= LOGSIZE && Fit32(bs)
    ensures bs[i] < 0x1_0000_0000
    ensures Partial(data, bs, i + 1) == PutWord(Partial(data, bs, i), 1 + i, bs[i])
  {
    hide PutWord, PutWords, Word;
    PutWordsNext(data, 0, [|bs|] + bs[..i], bs[i]);
    assert [|bs|] + bs[..i] + [bs[i]] == [|bs|] + bs[..i + 1];
  }

  lemma Appended<T>(a: seq<T>, b: seq<T>, c: seq<T>)
    ensures a + b + c == a + (b + c)
  {
  }

  lemma ListFits(l: Layout, d: Disk, bs: seq<nat>)
    requires Formatted(l, d) && GoodList(l, d, bs)
    ensures Headed(l, d, bs) && d[l.start := Header(l, d, bs)] == PutHeader(l, d, bs)
  {
    hide EncodeHeader;
    assert l.InLog(l.start);
  }

  lemma ListAbsorb(l: Layout, d: Disk, view: Disk, bs: seq<nat>, c: nat, data: Block)
    requires GoodList(l, d, bs) && Loggable(view, bs) && |bs| < LOGSIZE && |bs| < l.size - 1
    requires c in d && !l.InLog(c) && |data| == BSIZE
    ensures GoodList(l, d, Absorb(bs, c)) && Loggable(view[c := data], Absorb(bs, c))
  {
  }

  class Log {
    const bc: BCache
    const l: Layout
    var n: nat                       // log.lh.n
    const block: array<nat>          // log.lh.block
    var outstanding: int
    var committing: bool

    constructor (bc: BCache, l: Layout)
      requires l.size > 0
      ensures this.bc == bc && this.l == l && n == 0 && Arranged() && outstanding == 0 && !committing
    {
      this.bc, this.l, n, outstanding, committing := bc, l, 0, 0, false;
      block := new nat[LOGSIZE](_ => 0);
    }

    ghost function Blocks(): seq<nat>
      reads this`n, block
      requires n <= block.Length
    {
      block[..n]
    }

    ghost predicate Arranged()
      reads this`n
    {
      block.Length == LOGSIZE && n <= LOGSIZE && n < l.size
    }

    // Read the blocks p and q and write one with the contents of the other.
    method CopyBetween(p: nat, q: nat, install: bool) returns (a: Buf, b: Buf)
      requires bc.Valid() && p != q && p in bc.disk.blocks && q in bc.disk.blocks && p !in bc.locks && q !in bc.locks
      requires p !in bc.refs && |Referred(bc.refs)| < |bc.bufs| && (q in bc.refs || |Referred(bc.refs)| + 1 < |bc.bufs|)
      modifies bc, bc.bufs, bc.disk
      ensures bc.Valid() && bc.order == old(bc.order) && Stay(old(bc.Holds()), bc.Holds())
      ensures bc.refs == Inc(Inc(old(bc.refs), p), q) && bc.locks == old(bc.locks) + {p, q}
      ensures bc.Held(a) && a.blockno == p && a.locked && a.valid
      ensures bc.Held(b) && b.blockno == q && b.locked && b.valid
      ensures p in old(bc.view) && q in old(bc.view)
      ensures var to, from := if install then q else p, if install then p else q;
              && bc.view == old(bc.view)[to := old(bc.view)[from]]
              && bc.disk.blocks == old(bc.disk.blocks)[to := old(bc.view)[from]]
      ensures bc.disk.trace == old(bc.disk.trace) + [bc.disk.blocks]
    {
      hide BCache.Valid, Inc, Dec, Referred, BCache.Holds, Stay;
      bc.Counts(p);
      ghost var s := bc.Snapshot();
      a, b := bc.ReadPair(p, q);
      ghost var t := bc.Snapshot();
      if install {
        bc.Store(b, a.data);
      } else {
        bc.Store(a, b.data);
      }
      ghost var u := bc.Snapshot();
      StayTrans(s, t, u);
    }

    // One round of the loop of write_log: copy a pinned block to its slot and write it.
    method WriteSlot(tail: nat)
      requires bc.Valid() && |Referred(bc.refs)| < |bc.bufs|
      requires Arranged() && tail < n && block[tail] in bc.refs && block[tail] !in bc.locks
      requires block[tail] in bc.disk.blocks && l.Slot(tail) in bc.disk.blocks && l.Slot(tail) !in bc.refs
      modifies bc, bc.bufs, bc.head, bc.disk
      ensures bc.Valid() && bc.locks == old(bc.locks) && bc.refs == old(bc.refs) && Stay(old(bc.Holds()), bc.Holds())
      ensures block[tail] in old(bc.view)
      ensures bc.view == old(bc.view)[l.Slot(tail) := old(bc.view)[block[tail]]]
      ensures bc.disk.blocks == old(bc.disk.blocks)[l.Slot(tail) := old(bc.view)[block[tail]]]
      ensures bc.disk.trace == old(bc.disk.trace) + [bc.disk.blocks]
    {
      hide BCache.Valid, Pins, Both, Inc, Dec, BCache.Holds, Stay;
      var p, q := l.Slot(tail), block[tail];
      bc.Referenced(q);
      bc.Counts(p);
      PairOfRefs(bc.refs, p, q);
      ghost var s := bc.Snapshot();
      var to, from := CopyBetween(p, q, false);
      ghost var t := bc.Snapshot();
      bc.ReleasePair(from, to);
      ghost var u := bc.Snapshot();
      StayTrans(s, t, u);
    }

    // One round of the loop of install_trans: copy a slot to its home block, write
    // it, and give up the pin unless this is recovery.
    method InstallSlot(tail: nat, recovering: bool)
      requires bc.Valid() && |Referred(bc.refs)| < |bc.bufs|
      requires Arranged() && tail < n && block[tail] in bc.disk.blocks && l.Slot(tail) in bc.disk.blocks
      requires l.Slot(tail) != block[tail] && l.Slot(tail) !in bc.refs && block[tail] !in bc.locks
      requires if recovering then block[tail] !in bc.refs && |Referred(bc.refs)| + 1 < |bc.bufs|
          else block[tail] in bc.refs
      modifies bc, bc.bufs, bc.head, bc.disk
      ensures bc.Valid() && bc.locks == old(bc.locks) && Stay(old(bc.Holds()), bc.Holds())
      ensures bc.refs == if recovering then old(bc.refs) else Dec(old(bc.refs), block[tail])
      ensures l.Slot(tail) in old(bc.view)
      ensures bc.view == old(bc.view)[block[tail] := old(bc.view)[l.Slot(tail)]]
      ensures bc.disk.blocks == old(bc.disk.blocks)[block[tail] := old(bc.view)[l.Slot(tail)]]
      ensures bc.disk.trace == old(bc.disk.trace) + [bc.disk.blocks]
    {
      hide BCache.Valid, Pins, Both, Inc, Dec, BCache.Holds, Stay;
      var p, q := l.Slot(tail), block[tail];
      bc.Counts(p);
      bc.Counts(q);
      ghost var r := bc.refs;
      PairOfRefs(r, p, q);
      ghost var s := bc.Snapshot();
      var lbuf, dbuf := CopyBetween(p, q, true);
      ghost var t := bc.Snapshot();
      if recovering {
        bc.ReleasePair(lbuf, dbuf);
      } else {
        UnpinAndRelease(lbuf, dbuf, r);
      }
      ghost var u := bc.Snapshot();
      StayTrans(s, t, u);
    }

    method UnpinAndRelease(lbuf: Buf, dbuf: Buf, ghost r: multiset<nat>)
      requires bc.Valid() && bc.Held(lbuf) && bc.Held(dbuf) && lbuf.locked && dbuf.locked && lbuf.valid && dbuf.valid
      requires lbuf.blockno != dbuf.blockno && dbuf.blockno in r
      requires bc.refs == Inc(Inc(r, lbuf.blockno), dbuf.blockno)
      requires lbuf.blockno in bc.view && dbuf.blockno in bc.view && bc.view.Keys == bc.disk.blocks.Keys
      requires bc.view[lbuf.blockno] == bc.disk.blocks[lbuf.blockno]
      requires bc.view[dbuf.blockno] == bc.disk.blocks[dbuf.blockno]
      modifies bc`order, bc`refs, bc`locks
      modifies bc.bufs`prev, bc.bufs`next, bc.head`prev, bc.head`next, bc.bufs`refcnt, bc.bufs`locked
      ensures bc.Valid() && bc.locks == old(bc.locks) - {lbuf.blockno, dbuf.blockno}
      ensures bc.refs == Dec(r, dbuf.blockno) && Stay(old(bc.Holds()), bc.Holds())
    {
      hide BCache.Valid, Pins, Both, Inc, Dec, BCache.Holds, Stay;
      var p, q := lbuf.blockno, dbuf.blockno;
      PairOfRefs(r, p, q);
      ghost var s := bc.Snapshot();
      bc.BUnpin(dbuf);
      ghost var t := bc.Snapshot();
      DecFacts(t.refs, p);
      DecFacts(Dec(t.refs, p), q);
      bc.ReleasePair(lbuf, dbuf);
      ghost var u := bc.Snapshot();
      StayTrans(s, t, u);
    }

    // The loop of write_head: a header block with the list in place.
    method FillHeader(data: Block) returns (hb: Block)
      requires Arranged() && |data| == BSIZE && Fit32(Blocks())
      ensures hb == EncodeHeader(data, Blocks())
    {
      hide PutWord, Word, Fit32, Partial, EncodeHeader;
      ghost var bs := Blocks();
      PartialEnds(data, bs);
      hb := PutWord(data, 0, n);
      var i := 0;
      while i < n
        invariant 0 <= i <= n && hb == Partial(data, bs, i)
      {
        PartialNext(data, bs, i);
        assert bs[i] == block[i];
        hb := PutWord(hb, 1 + i, block[i]);
        i := i + 1;
      }
    }

    // Put the list into the header block, which is held, and write it.
    method PutHead(b: Buf)
      requires bc.Valid() && bc.Held(b) && b.locked && b.valid && b.blockno == l.start
      requires l.start in bc.view && b.data == bc.view[l.start]
      requires Arranged() && Headed(l, bc.view, Blocks())
      modifies bc, bc.bufs, bc.head, bc.disk
      ensures bc.Valid() && Stay(old(bc.Holds()), bc.Holds()) && l.start in old(bc.refs)
      ensures bc.refs == Dec(old(bc.refs), l.start) && bc.locks == old(bc.locks) - {l.start}
      ensures bc.view == old(bc.view)[l.start := Header(l, old(bc.view), Blocks())]
      ensures bc.disk.blocks == old(bc.disk.blocks)[l.start := Header(l, old(bc.view), Blocks())]
      ensures bc.disk.trace == old(bc.disk.trace) + [bc.disk.blocks]
    {
      hide BCache.Valid, Pins, Both, Dec, BCache.Holds, BCache.Held, Stay, EncodeHeader, Fit32;
      bc.NowHeld(b);
      var hb := FillHeader(b.data);
      bc.StoreAndRelease(b, hb);
    }

    // write_head: put the list into the header block and write it.
    method WriteHead()
      requires bc.Valid() && |Referred(bc.refs)| < |bc.bufs| && l.start !in bc.refs
      requires Arranged() && Headed(l, bc.disk.blocks, Blocks())
      modifies bc, bc.bufs, bc.head, bc.disk
      ensures bc.Valid() && bc.locks == old(bc.locks) && bc.refs == old(bc.refs) && Stay(old(bc.Holds()), bc.Holds())
      ensures bc.view == old(bc.view)[l.start := Header(l, old(bc.disk.blocks), Blocks())]
      ensures bc.disk.blocks == old(bc.disk.blocks)[l.start := Header(l, old(bc.disk.blocks), Blocks())]
      ensures bc.disk.trace == old(bc.disk.trace) + [bc.disk.blocks]
    {
      hide BCache.Valid, Pins, Both, Inc, Dec, BCache.Holds, BCache.Held, Stay, EncodeHeader, Fit32;
      OneRef(bc.refs, l.start);
      bc.Counts(l.start);
      ghost var s := bc.Snapshot();
      var b := bc.Fetch(l.start);
      ghost var t := bc.Snapshot();
      PutHead(b);
      StayTrans(s, t, bc.Holds());
    }

    // The loop of read_head: take the list out of a header block.
    method TakeHeader(lh: Block)
      requires block.Length == LOGSIZE && |lh| == BSIZE && Word(lh, 0) <= LOGSIZE
      modifies this`n, block
      ensures n <= LOGSIZE && Blocks() == Logged(lh)
    {
      hide Word;
      n := Word(lh, 0);
      var i := 0;
      while i < n
        invariant 0 <= i <= n <= LOGSIZE == block.Length && n == Word(lh, 0)
        invariant block[..i] == WordsOf(lh, 1, 1 + i)
        modifies block
      {
        block[i] := Word(lh, 1 + i);
        i := i + 1;
      }
    }

    method ReadHead()
      requires bc.Valid() && |Referred(bc.refs)| < |bc.bufs|
      requires block.Length == LOGSIZE
      requires l.start in bc.disk.blocks && l.start !in bc.refs
      requires |bc.disk.blocks[l.start]| == BSIZE && Word(bc.disk.blocks[l.start], 0) <= LOGSIZE
      modifies this`n, block, bc`at, bc`refs, bc`locks, bc`order, bc.bufs, bc.head
      ensures bc.Valid() && bc.locks == old(bc.locks) && bc.refs == old(bc.refs) && bc.view == old(bc.view)
      ensures n <= LOGSIZE && Blocks() == Logged(bc.disk.blocks[l.start])
    {
      hide BCache.Valid, Pins, Both, Inc, Dec, BCache.Holds, Stay, Logged, Word;
      OneRef(bc.refs, l.start);
      bc.Counts(l.start);
      var b := bc.Fetch(l.start);
      TakeHeader(b.data);
      bc.BRelse(b);
    }

    // The cache holds the pins of the log and the references of others, who keep away
    // from the log region.
    ghost predicate Beside(pins: multiset<nat>, held: multiset<nat>)
      reads bc, bc.bufs, bc.head, bc.order, bc.disk
    {
      && bc.Valid() && bc.refs == Both(pins, held)
      && (forall c :: c in held ==> !l.InLog(c)) && (forall c :: c in bc.locks ==> c in held)
    }

    lemma BesideFacts(pins: multiset<nat>, held: multiset<nat>, c: nat)
      requires Beside(pins, held)
      ensures c in pins ==> c in bc.refs
      ensures l.InLog(c) && c !in pins ==> c !in bc.refs && c !in bc.locks
      ensures bc.view.Keys == bc.disk.blocks.Keys
    {
      hide BCache.Valid, Pins, Both;
      BothFacts(pins, held);
      bc.Counts(c);
    }

    // The cache while write_log is at work on a disk that was d0, and a cache that
    // showed v0, when it began: the logged blocks are pinned, and nobody has them locked.
    ghost predicate Filling(d0: Disk, v0: Disk, tail: nat, held: multiset<nat>)
      reads this`n, block, bc, bc.bufs, bc.head, bc.order, bc.disk
    {
      && Arranged() && tail <= n && Beside(Pins(Blocks()), held) && bc.locks !! Elems(Blocks())
      && |Referred(bc.refs)| < |bc.bufs|
      && Formatted(l, d0) && GoodList(l, d0, Blocks()) && Loggable(v0, Blocks())
      && bc.disk.blocks == Fill(l, d0, v0, Blocks(), tail)
      && CleanBut(bc.view, bc.disk.blocks, Elems(Blocks()))
      && forall c :: c in v0 && !l.InLog(c) ==> c in bc.view && bc.view[c] == v0[c]
    }

    lemma FillingNext(d0: Disk, v0: Disk, tail: nat, held: multiset<nat>)
      requires Filling(d0, v0, tail, held) && tail < n
      ensures block[tail] in bc.refs && block[tail] !in bc.locks && block[tail] in bc.disk.blocks
      ensures l.Slot(tail) in bc.disk.blocks && l.Slot(tail) !in bc.refs && |Referred(bc.refs)| < |bc.bufs|
              && l.InLog(l.Slot(tail))
      ensures block[tail] in bc.view &&
              Fill(l, d0, v0, Blocks(), tail + 1) == bc.disk.blocks[l.Slot(tail) := bc.view[block[tail]]]
    {
      hide BCache.Valid, Pins, Both, Beside, CleanBut, Formatted;
      var bs := Blocks();
      SlotIn(l, d0, bs, tail);
      assert block[tail] == bs[tail];
      PinsFacts(bs);
      BesideFacts(Pins(bs), held, block[tail]);
      BesideFacts(Pins(bs), held, l.Slot(tail));
    }

    method FillNext(tail: nat, ghost d0: Disk, ghost v0: Disk, ghost held: multiset<nat>)
      requires Filling(d0, v0, tail, held) && tail < n
      modifies bc, bc.bufs, bc.head, bc.disk
      ensures Filling(d0, v0, tail + 1, held) && bc.locks == old(bc.locks) && Stay(old(bc.Holds()), bc.Holds())
      ensures bc.refs == old(bc.refs) && bc.disk.trace == old(bc.disk.trace) + [bc.disk.blocks]
    {
      hide BCache.Valid, Pins, Both, BCache.Holds, Stay, Fill, Formatted, GoodList, Loggable;
      FillingNext(d0, v0, tail, held);
      WriteSlot(tail);
    }

    // write_log: copy the pinned blocks from the cache to the log.
    method WriteLog(ghost held: multiset<nat>)
      requires Filling(bc.disk.blocks, bc.view, 0, held)
      modifies bc, bc.bufs, bc.head, bc.disk
      ensures Filling(old(bc.disk.blocks), old(bc.view), n, held)
      ensures bc.refs == old(bc.refs) && bc.locks == old(bc.locks) && Stay(old(bc.Holds()), bc.Holds())
      ensures bc.disk.trace == old(bc.disk.trace) + FillTrace(l, old(bc.disk.blocks), old(bc.view), Blocks(), n)
    {
      hide BCache.Valid, Pins, Both, BCache.Holds, Stay, Beside, Fill, FillTrace, Formatted, GoodList, Loggable,
           CleanBut;
      ghost var d0, v0, t0 := bc.disk.blocks, bc.view, bc.disk.trace;
      ghost var s := bc.Snapshot();
      StaySelf(Pins(Blocks()), held);
      var tail := 0;
      while tail < n
        invariant 0 <= tail <= n && Filling(d0, v0, tail, held) && bc.refs == s.refs && bc.locks == old(bc.locks)
        invariant Stay(s, bc.Holds())
        invariant bc.disk.trace == t0 + FillTrace(l, d0, v0, Blocks(), tail)
      {
        ghost var t := bc.Snapshot();
        FillTraceNext(l, d0, v0, Blocks(), tail);
        FillNext(tail, d0, v0, held);
        StayTrans(s, t, bc.Holds());
        tail := tail + 1;
      }
    }

    lemma StaySelf(pins: multiset<nat>, held: multiset<nat>)
      requires Beside(pins, held)
      ensures Stay(bc.Holds(), bc.Holds())
    {
      bc.StaySelf();
    }

    // The cache while install_trans is at work on a disk that was d0 when it began:
    // the blocks not yet installed are still pinned, unless this is recovery.
    ghost predicate Installing(d0: Disk, tail: nat, recovering: bool, held: multiset<nat>)
      reads this`n, block, bc, bc.bufs, bc.head, bc.order, bc.disk
    {
      && Arranged() && tail <= n && Beside(if recovering then multiset{} else Pins(Blocks()[tail..]), held)
      && |Referred(bc.refs)| < |bc.bufs|
      && (if recovering then held == multiset{} && 2 <= |bc.bufs| else bc.locks !! Elems(Blocks()))
      && WellFormed(l, d0) && Logged(d0[l.start]) == Blocks()
      && bc.disk.blocks == RecoveryDisk(l, d0, tail)
      && CleanBut(bc.view, bc.disk.blocks, if recovering then {} else Elems(Blocks()[tail..]))
    }

    lemma InstallingNext(d0: Disk, tail: nat, recovering: bool, held: multiset<nat>)
      requires Installing(d0, tail, recovering, held) && tail < n
      ensures l.Slot(tail) in bc.disk.blocks && block[tail] in bc.disk.blocks && l.Slot(tail) != block[tail]
      ensures l.Slot(tail) !in bc.refs && block[tail] !in bc.locks && |Referred(bc.refs)| < |bc.bufs|
      ensures l.Slot(tail) in bc.view && bc.view[l.Slot(tail)] == bc.disk.blocks[l.Slot(tail)]
      ensures if recovering then block[tail] !in bc.refs && |Referred(bc.refs)| + 1 < |bc.bufs|
          else block[tail] in bc.refs
      ensures RecoveryDisk(l, d0, tail + 1) ==
              bc.disk.blocks[block[tail] := bc.disk.blocks[l.Slot(tail)]]
    {
      hide BCache.Valid, Pins, Both, Beside, RecoveryDisk, Logged, Word, Formatted;
      var bs := Blocks();
      SlotIn(l, d0, bs, tail);
      assert block[tail] == bs[tail] && bs[tail..][0] == bs[tail];
      PinsFacts(bs[tail..]);
      BesideFacts(if recovering then multiset{} else Pins(bs[tail..]), held, block[tail]);
      BesideFacts(if recovering then multiset{} else Pins(bs[tail..]), held, l.Slot(tail));
      RecoveryStep(l, d0, tail);
      if recovering {
        BesideNobody();
      }
    }

    lemma BesideNobody()
      requires Beside(multiset{}, multiset{})
      ensures bc.refs == multiset{} && Referred(bc.refs) == {} && bc.locks == {}
    {
    }

    method InstallNext(tail: nat, recovering: bool, ghost d0: Disk, ghost held: multiset<nat>)
      requires Installing(d0, tail, recovering, held) && tail < n
      modifies bc, bc.bufs, bc.head, bc.disk
      ensures Installing(d0, tail + 1, recovering, held) && bc.locks == old(bc.locks)
              && Stay(old(bc.Holds()), bc.Holds())
      ensures bc.refs <= old(bc.refs) && bc.disk.trace == old(bc.disk.trace) + [bc.disk.blocks]
    {
      hide BCache.Valid, Pins, Both, BCache.Holds, Dec, Stay, RecoveryDisk, WellFormed, Logged, Elems;
      InstallingNext(d0, tail, recovering, held);
      if !recovering {
        PinsDrop(Blocks(), tail, held);
        DecFacts(bc.refs, block[tail]);
        Fewer(Dec(bc.refs, block[tail]), bc.refs);
      }
      InstallSlot(tail, recovering);
    }

    // install_trans: copy the logged blocks to their home locations.
    method InstallTrans(recovering: bool, ghost held: multiset<nat>)
      requires Installing(bc.disk.blocks, 0, recovering, held)
      modifies bc, bc.bufs, bc.head, bc.disk
      ensures Installing(old(bc.disk.blocks), n, recovering, held)
      ensures bc.locks == old(bc.locks) && Stay(old(bc.Holds()), bc.Holds())
      ensures bc.disk.trace == old(bc.disk.trace) + RecoveryTrace(l, old(bc.disk.blocks), n)
    {
      hide BCache.Valid, Pins, Both, BCache.Holds, Stay, Beside, RecoveryDisk, RecoveryTrace, CleanBut, Elems;
      ghost var d0, t0 := bc.disk.blocks, bc.disk.trace;
      ghost var s := bc.Snapshot();
      StaySelf(if recovering then multiset{} else Pins(Blocks()[0..]), held);
      var tail := 0;
      while tail < n
        invariant 0 <= tail <= n && Installing(d0, tail, recovering, held) && bc.locks == old(bc.locks)
        invariant bc.refs <= s.refs && Stay(s, bc.Holds())
        invariant bc.disk.trace == t0 + RecoveryTrace(l, d0, tail)
      {
        ghost var t := bc.Snapshot();
        RecoveryTraceNext(l, d0, tail);
        InstallNext(tail, recovering, d0, held);
        bc.SameRefs();
        StayTrans(s, t, bc.Holds());
        tail := tail + 1;
      }
    }

    // Calls may be under way: the log is empty on the disk and the logged blocks are
    // pinned.  Only those, and the blocks of `busy` that somebody is changing under
    // their locks, may differ from the disk.
    ghost predicate Pending(held: multiset<nat>, busy: set<nat>)
      reads this`n, block, bc, bc.bufs, bc.head, bc.order, bc.disk
    {
      && Arranged() && Beside(Pins(Blocks()), held)
      && WellFormed(l, bc.disk.blocks) && Logged(bc.disk.blocks[l.start]) == []
      && GoodList(l, bc.disk.blocks, Blocks()) && Distinct(Blocks()) && Loggable(bc.view, Blocks())
      && CleanBut(bc.view, bc.disk.blocks, Elems(Blocks()) + busy) && busy <= bc.locks
    }

    // A commit may begin: nobody is changing a block or has a logged block locked, and
    // a buffer is to spare.
    ghost predicate Committable(held: multiset<nat>)
      reads this`n, block, bc, bc.bufs, bc.head, bc.order, bc.disk
    {
      Pending(held, {}) && bc.locks !! Elems(Blocks()) && |Referred(bc.refs)| < |bc.bufs|
    }

    lemma StartFilling(held: multiset<nat>)
      requires Committable(held)
      ensures Filling(bc.disk.blocks, bc.view, 0, held)
    {
      hide BCache.Valid, Pins, Both, Beside, GoodList, Loggable, Logged, Word;
      assert Elems(Blocks()) + {} == Elems(Blocks());
    }

    lemma HeadReady(d0: Disk, v0: Disk, held: multiset<nat>)
      requires Filling(d0, v0, n, held)
      ensures |Referred(bc.refs)| < |bc.bufs| && l.start !in bc.refs && Headed(l, bc.disk.blocks, Blocks())
      ensures bc.disk.blocks[l.start := Header(l, bc.disk.blocks, Blocks())] == CommitPoint(l, d0, v0, Blocks())
    {
      hide BCache.Valid, Pins, Both, Beside, Headed, Header, PutHeader, Loggable, CleanBut, Fill;
      assert l.InLog(l.start);
      PinsFacts(Blocks());
      BesideFacts(Pins(Blocks()), held, l.start);
      ListFits(l, bc.disk.blocks, Blocks());
    }

    // write_head at the commit point.
    method WriteCommitPoint(ghost d0: Disk, ghost v0: Disk, ghost held: multiset<nat>)
      requires Filling(d0, v0, n, held)
      modifies bc, bc.bufs, bc.head, bc.disk
      ensures bc.disk.blocks == CommitPoint(l, d0, v0, Blocks())
      ensures bc.disk.trace == old(bc.disk.trace) + [bc.disk.blocks]
      ensures Installing(bc.disk.blocks, 0, false, held)
      ensures bc.locks == old(bc.locks) && bc.refs == old(bc.refs) && Stay(old(bc.Holds()), bc.Holds())
    {
      hide BCache.Valid, Pins, Both, BCache.Holds, Stay, Elems, Headed, Header, CommitPoint, Fill, GoodList,
        Loggable, Formatted, WellFormed, RecoveryDisk, Logged, Word, Distinct;
      HeadReady(d0, v0, held);
      WriteHead();
      FirstRecoveryDisk(l, bc.disk.blocks);
      assert Blocks()[0..] == Blocks();
    }

    // The first two steps of commit, up to the commit point.
    method WriteTransaction(ghost held: multiset<nat>)
      requires Committable(held)
      modifies bc, bc.bufs, bc.head, bc.disk
      ensures bc.disk.blocks == CommitPoint(l, old(bc.disk.blocks), old(bc.view), Blocks())
      ensures bc.disk.trace == old(bc.disk.trace)
                             + FillTrace(l, old(bc.disk.blocks), old(bc.view), Blocks(), n) + [bc.disk.blocks]
      ensures Installing(bc.disk.blocks, 0, false, held)
      ensures bc.locks == old(bc.locks) && bc.refs == old(bc.refs) && Stay(old(bc.Holds()), bc.Holds())
    {
      hide BCache.Valid, Pins, Both, BCache.Holds, Stay, Filling, Beside, Installing, CommitPoint, FillTrace, GoodList,
        Loggable, Formatted, Logged, Word, CleanBut, Distinct;
      ghost var d0, v0 := bc.disk.blocks, bc.view;
      ghost var s := bc.Snapshot();
      StartFilling(held);
      WriteLog(held);
      ghost var t := bc.Snapshot();
      WriteCommitPoint(d0, v0, held);
      StayTrans(s, t, bc.Holds());
    }

    // With nothing logged and an empty log on the disk, a commit may begin.
    lemma NothingLogged(held: multiset<nat>)
      requires Beside(multiset{}, held) && |Referred(bc.refs)| < |bc.bufs|
      requires n == 0 && block.Length == LOGSIZE && bc.view == bc.disk.blocks
      requires WellFormed(l, bc.disk.blocks) && Logged(bc.disk.blocks[l.start]) == []
      ensures Committable(held)
    {
      hide BCache.Valid, Pins, Both;
      PinsFacts(Blocks());
    }

    lemma EraseReady(d0: Disk, recovering: bool, held: multiset<nat>)
      requires Installing(d0, n, recovering, held)
      ensures Beside(multiset{}, held) && bc.view == bc.disk.blocks && |Referred(bc.refs)| < |bc.bufs|
      ensures l.start !in bc.refs && Headed(l, bc.disk.blocks, [])
      ensures bc.disk.blocks[l.start := Header(l, bc.disk.blocks, [])] == Recover(l, d0)
      ensures RecoveryTrace(l, d0, n) + [Recover(l, d0)] == RecoveryTrace(l, d0, n + 1)
    {
      hide BCache.Valid, Pins, Both, Beside, EncodeHeader, Recover, RecoveryDisk, RecoveryTrace, Logged, Word;
      PinsFacts(Blocks()[n..]);
      assert l.InLog(l.start);
      BesideFacts(multiset{}, held, l.start);
      ErasedDisk(l, d0);
    }

    // Clear the header after everything was installed.
    method EraseLog(ghost d0: Disk, recovering: bool, ghost held: multiset<nat>)
      requires Installing(d0, n, recovering, held)
      modifies this`n, bc, bc.bufs, bc.head, bc.disk
      ensures n == 0 && Committable(held) && bc.view == bc.disk.blocks && bc.disk.blocks == Recover(l, d0)
      ensures bc.disk.trace == old(bc.disk.trace) + [bc.disk.blocks]
      ensures bc.locks == old(bc.locks) && bc.refs == old(bc.refs) && Stay(old(bc.Holds()), bc.Holds())
    {
      hide BCache.Valid, Pins, Both, BCache.Holds, Stay, Headed, Header, Committable, Recover, RecoveryDisk,
        RecoveryTrace, Formatted, GoodList, Logged, Word, Elems, Distinct;
      EraseReady(d0, recovering, held);
      n := 0;
      assert Blocks() == [];
      WriteHead();
      NothingLogged(held);
    }

    // The end of commit and of recovery: install, then erase the transaction.
    method InstallAndErase(recovering: bool, ghost held: multiset<nat>)
      requires Installing(bc.disk.blocks, 0, recovering, held)
      modifies this`n, bc, bc.bufs, bc.head, bc.disk
      ensures n == 0 && Committable(held) && bc.view == bc.disk.blocks
      ensures bc.disk.blocks == Recover(l, old(bc.disk.blocks))
      ensures bc.disk.trace == old(bc.disk.trace) + RecoveryTrace(l, old(bc.disk.blocks), old(n) + 1)
      ensures bc.locks == old(bc.locks) && Stay(old(bc.Holds()), bc.Holds())
    {
      hide BCache.Valid, Pins, Both, BCache.Holds, Stay, Beside, Committable, Recover, RecoveryDisk, RecoveryTrace,
           Formatted, GoodList, Logged, Word, CleanBut, Distinct;
      ghost var d0 := bc.disk.blocks;
      ghost var s := bc.Snapshot();
      InstallTrans(recovering, held);
      ghost var t := bc.Snapshot();
      EraseReady(d0, recovering, held);
      EraseLog(d0, recovering, held);
      bc.SameRefs();
      StayTrans(s, t, bc.Holds());
    }

    // What a commit is going to do.
    lemma CommitFacts(held: multiset<nat>, t0: seq<Disk>)
      requires Committable(held)
      ensures Formatted(l, bc.disk.blocks) && GoodList(l, bc.disk.blocks, Blocks()) && Loggable(bc.view, Blocks())
      ensures var d, v, bs := bc.disk.blocks, bc.view, Blocks();
              var c := CommitPoint(l, d, v, bs);
              && t0 + FillTrace(l, d, v, bs, |bs|) + [c] + RecoveryTrace(l, c, |bs| + 1) == t0
                  + CommitTrace(l, d, v, bs)
              && Recover(l, c).Keys == v.Keys
              && forall b :: b in v && !l.InLog(b) ==> Recover(l, c)[b] == v[b]
    {
      hide BCache.Valid, Pins, Both, Beside, CommitPoint, Recover, GoodList, Loggable, CommitTrace, FillTrace,
           RecoveryTrace, Logged, Word, Distinct;
      var d, v, bs := bc.disk.blocks, bc.view, Blocks();
      var c := CommitPoint(l, d, v, bs);
      assert Elems(bs) + {} == Elems(bs);
      CommitOutcome(l, d, v, bs);
      Appended(t0, FillTrace(l, d, v, bs, |bs|) + [c], RecoveryTrace(l, c, |bs| + 1));
      Appended(t0, FillTrace(l, d, v, bs, |bs|), [c]);
    }

    method CommitLogged(ghost held: multiset<nat>)
      requires Committable(held) && n > 0
      modifies this`n, bc, bc.bufs, bc.head, bc.disk
      ensures n == 0 && Committable(held) && bc.view == bc.disk.blocks
      ensures bc.locks == old(bc.locks) && Stay(old(bc.Holds()), bc.Holds())
      ensures bc.disk.trace == old(bc.disk.trace) + CommitTrace(l, old(bc.disk.blocks), old(bc.view), old(Blocks()))
      ensures forall c :: c in old(bc.view) && !l.InLog(c) ==> c in bc.view && bc.view[c] == old(bc.view)[c]
    {
      hide BCache.Valid, Pins, Both, BCache.Holds, Stay, Pending, Committable, CommitPoint, Recover, GoodList,
           Loggable, Formatted, CommitTrace, FillTrace, RecoveryTrace, Installing, Logged, Word;
      ghost var s := bc.Snapshot();
      Listed(held);
      CommitFacts(held, bc.disk.trace);
      WriteTransaction(held);
      ghost var t := bc.Snapshot();
      InstallAndErase(false, held);
      StayTrans(s, t, bc.Holds());
    }

    lemma Listed(held: multiset<nat>)
      requires Committable(held)
      ensures n <= block.Length && |Blocks()| == n
    {
    }

    // commit: write the transaction to the log, then to its home locations.
    method Commit(ghost held: multiset<nat>)
      requires Committable(held)
      modifies this`n, bc, bc.bufs, bc.head, bc.disk
      ensures n == 0 && Committable(held) && bc.view == bc.disk.blocks
      ensures bc.locks == old(bc.locks) && Stay(old(bc.Holds()), bc.Holds())
      ensures bc.disk.trace == old(bc.disk.trace)
                             + if old(n) == 0 then []
                                 else CommitTrace(l, old(bc.disk.blocks), old(bc.view), old(Blocks()))
      ensures forall c :: c in old(bc.view) && !l.InLog(c) ==> c in bc.view && bc.view[c] == old(bc.view)[c]
    {
      hide BCache.Valid, Pins, Both, BCache.Holds, Stay, CommitTrace, Beside, Loggable, GoodList, Logged, Word;
      if n > 0 {
        CommitLogged(held);
      } else {
        StaySelf(Pins(Blocks()), held);
        assert Elems(Blocks()) + {} == {};
      }
    }

    lemma StartRecovery()
      requires bc.Valid() && bc.locks == {} && bc.refs == multiset{} && 2 <= |bc.bufs|
      requires block.Length == LOGSIZE && WellFormed(l, bc.disk.blocks)
      requires n <= LOGSIZE && Blocks() == Logged(bc.disk.blocks[l.start])
      ensures Installing(bc.disk.blocks, 0, true, multiset{})
    {
      hide BCache.Valid, Pins, Both, RecoveryDisk, Logged, Word;
      FirstRecoveryDisk(l, bc.disk.blocks);
      bc.CleanView();
      BothFacts(multiset{}, multiset{});
      assert Referred(multiset{}) == {};
    }

    // recover_from_log: finish a committed transaction, if the disk holds one.
    method RecoverFromLog()
      requires bc.Valid() && bc.locks == {} && bc.refs == multiset{} && 2 <= |bc.bufs|
      requires block.Length == LOGSIZE && WellFormed(l, bc.disk.blocks)
      modifies this`n, block, bc, bc.bufs, bc.head, bc.disk
      ensures n == 0 && Committable(multiset{}) && bc.view == bc.disk.blocks
      ensures bc.disk.blocks == Recover(l, old(bc.disk.blocks))
      ensures bc.disk.trace == old(bc.disk.trace)
                + RecoveryTrace(l, old(bc.disk.blocks), |Logged(old(bc.disk.blocks)[l.start])| + 1)
    {
      hide BCache.Valid, Pins, Both, Installing, Committable, RecoveryTrace, Recover, Word, Logged, GoodList;
      assert l.InLog(l.start);
      ReadHead();
      StartRecovery();
      InstallAndErase(true, multiset{});
    }

    // One try of begin_op; false means that the caller must sleep.
    method BeginOp() returns (go: bool)
      modifies this`outstanding
      ensures go <==> !MustWait(n, old(outstanding), committing)
      ensures outstanding == old(outstanding) + if go then 1 else 0
    {
      if committing {
        go := false;
      } else if n + (outstanding + 1) * MAXOPBLOCKS > LOGSIZE {
        go := false;
      } else {
        outstanding := outstanding + 1;
        go := true;
      }
    }

    // The search of log_write for an entry of the same block.
    method FindEntry(c: nat) returns (i: nat)
      requires Arranged()
      ensures i <= n && c !in block[..i] && (i < n ==> block[i] == c)
    {
      i := 0;
      while i < n
        invariant 0 <= i <= n && c !in block[..i]
      {
        if block[i] == c {
          return;
        }
        i := i + 1;
      }
    }

    // log_write: enter a changed buffer into the list and pin it, once per
    // transaction.  False means panic.
    method LogWrite(b: Buf) returns (ok: bool)
      requires bc.Valid() && bc.Held(b) && b.locked && Arranged()
      modifies this`n, block, bc`refs, b`refcnt
      ensures bc.Valid() && bc.Held(b) && Arranged() && (ok ==> Stay(old(bc.Holds()), bc.Holds()))
      ensures ok <==> !TooBig(l, old(n), outstanding)
      ensures Blocks() == if ok then Absorb(old(Blocks()), b.blockno) else old(Blocks())
      ensures bc.refs == if ok && b.blockno !in old(Blocks()) then Inc(old(bc.refs), b.blockno) else old(bc.refs)
    {
      hide BCache.Valid, Pins, Both, Inc, BCache.Holds, Stay;
      if n >= LOGSIZE || n >= l.size - 1 || outstanding < 1 {
        return false;
      }
      var i := FindEntry(b.blockno);
      ghost var bs := Blocks();
      assert i < n ==> bs[i] == b.blockno;
      assert i == n ==> bs == block[..i];
      block[i] := b.blockno;
      if i == n {
        bc.BPin(b);
        n := n + 1;
      } else {
        bc.StaySelf();
      }
      assert Blocks() == Absorb(bs, b.blockno);
      ok := true;
    }

    // ----- others at work

    // bread by anybody: one more reference and one more lock, and nothing else that a
    // commit in progress or a call under way would notice.
    method Hold(c: nat, ghost pins: multiset<nat>, ghost held: multiset<nat>) returns (b: Buf)
      requires Beside(pins, held) && c in bc.disk.blocks && !l.InLog(c) && c !in bc.locks
      requires c in bc.refs || |Referred(bc.refs)| < |bc.bufs|
      modifies bc`at, bc`refs, bc`locks
      modifies bc.bufs`dev, bc.bufs`blockno, bc.bufs`valid, bc.bufs`refcnt, bc.bufs`locked, bc.bufs`data
      ensures Beside(pins, Inc(held, c)) && bc.locks == old(bc.locks) + {c} && Stay(old(bc.Holds()), bc.Holds())
      ensures bc.refs == Inc(old(bc.refs), c)
      ensures bc.Held(b) && b.blockno == c && b.locked && b.valid && c in bc.view && b.data == bc.view[c]
    {
      hide BCache.Valid, Pins, Both, BCache.Holds, BCache.Held, Stay;
      bc.Counts(c);
      HeldInc(pins, held, c);
      b := bc.Fetch(c);
    }

    // brelse by anybody of a block that is as on the disk, or has other references.
    method Drop(b: Buf, ghost c: nat, ghost pins: multiset<nat>, ghost held: multiset<nat>)
      requires Beside(pins, held) && bc.Held(b) && b.locked && b.blockno == c && c in held && bc.MayDrop(c)
      modifies bc`order, bc.bufs`prev, bc.bufs`next, bc.head`prev, bc.head`next, bc`refs, bc`locks, b`refcnt, b`locked
      ensures Beside(pins, Dec(held, c)) && bc.locks == old(bc.locks) - {c}
      ensures Stay(old(bc.Holds()), bc.Holds()) && bc.refs == Dec(old(bc.refs), c)
    {
      hide BCache.Valid, Pins, Both, BCache.Holds, Stay;
      HeldDec(pins, held, c);
      bc.BRelse(b);
    }

    // A reader that comes by during write_log or install_trans disturbs neither; it
    // waits if it wants a block that is being written.
    method ReadDuringFill(c: nat, ghost d0: Disk, ghost v0: Disk, ghost tail: nat, ghost held: multiset<nat>)
      returns (b: Buf)
      requires Filling(d0, v0, tail, held) && c in bc.disk.blocks && !l.InLog(c) && c !in bc.locks && c !in Blocks()
      requires |Referred(bc.refs)| + 1 < |bc.bufs|
      modifies bc, bc.bufs
      ensures Filling(d0, v0, tail, Inc(held, c)) && Stay(old(bc.Holds()), bc.Holds())
      ensures bc.Held(b) && b.blockno == c && b.locked && b.valid && c in bc.view && b.data == bc.view[c]
    {
      hide BCache.Valid, Pins, Both, BCache.Holds, BCache.Held, Inc, Referred, Stay, Beside, Formatted, GoodList,
           Loggable, Fill, CleanBut;
      OneMore(bc.refs, c);
      b := Hold(c, Pins(Blocks()), held);
    }

    method DropDuringFill(b: Buf, ghost c: nat, ghost d0: Disk, ghost v0: Disk, ghost tail: nat,
                          ghost held: multiset<nat>)
      requires Filling(d0, v0, tail, held) && bc.Held(b) && b.locked && b.blockno == c && c in held
      modifies bc, bc.bufs, bc.head
      ensures Filling(d0, v0, tail, Dec(held, c)) && Stay(old(bc.Holds()), bc.Holds())
    {
      hide BCache.Valid, Pins, Both, BCache.Holds, Dec, Referred, Stay, Formatted, GoodList, Loggable, Fill;
      bc.ShownAt(c);
      DecFacts(bc.refs, c);
      Fewer(Dec(bc.refs, c), bc.refs);
      Drop(b, c, Pins(Blocks()), held);
    }

    method ReadDuringInstall(c: nat, ghost d0: Disk, ghost tail: nat, ghost held: multiset<nat>) returns (b: Buf)
      requires Installing(d0, tail, false, held) && c in bc.disk.blocks && !l.InLog(c) && c !in bc.locks
               && c !in Blocks()
      requires |Referred(bc.refs)| + 1 < |bc.bufs|
      modifies bc, bc.bufs
      ensures Installing(d0, tail, false, Inc(held, c)) && Stay(old(bc.Holds()), bc.Holds())
      ensures bc.Held(b) && b.blockno == c && b.locked && b.valid && c in bc.view && b.data == bc.view[c]
    {
      hide BCache.Valid, Pins, Both, BCache.Holds, BCache.Held, Inc, Referred, Stay, Beside, WellFormed, Logged,
           RecoveryDisk, CleanBut;
      OneMore(bc.refs, c);
      b := Hold(c, Pins(Blocks()[tail..]), held);
    }

    method DropDuringInstall(b: Buf, ghost c: nat, ghost d0: Disk, ghost tail: nat, ghost held: multiset<nat>)
      requires Installing(d0, tail, false, held) && bc.Held(b) && b.locked && b.blockno == c && c in held
      modifies bc, bc.bufs, bc.head
      ensures Installing(d0, tail, false, Dec(held, c)) && Stay(old(bc.Holds()), bc.Holds())
    {
      hide BCache.Valid, Pins, Both, BCache.Holds, Dec, Referred, Stay, WellFormed, Logged, RecoveryDisk;
      bc.ShownAt(c);
      DecFacts(bc.refs, c);
      Fewer(Dec(bc.refs, c), bc.refs);
      Drop(b, c, Pins(Blocks()[tail..]), held);
    }

    // ----- calls

    // The holder of block c changes it and logs it.
    method LogChange(b: Buf, data: Block, ghost c: nat, ghost held: multiset<nat>) returns (ok: bool)
      requires Arranged() && Beside(Pins(Blocks()), held) && bc.Held(b) && b.locked && b.valid && b.blockno == c
               && c in held
      modifies this`n, block, bc`view, bc`refs, b`data, b`refcnt
      ensures ok <==> !TooBig(l, old(n), outstanding)
      ensures ok ==>
                && Arranged() && Beside(Pins(Blocks()), held) && bc.Held(b) && bc.MayDrop(c)
                && Blocks() == Absorb(old(Blocks()), c) && bc.view == old(bc.view)[c := data]
                && Stay(old(bc.Holds()), bc.Holds()) && old(bc.refs) <= bc.refs
    {
      hide BCache.Valid, BCache.Held, Pins, Both, Inc, Dec, BCache.Holds, Stay, Absorb, TooBig;
      PinsAbsorb(Blocks(), c, held);
      ghost var s := bc.Snapshot();
      bc.SetData(b, data);
      ghost var t := bc.Snapshot();
      ok := LogWrite(b);
      if ok {
        StayTrans(s, t, bc.Holds());
      }
    }

    // The state after block c was changed, logged and released, from the parts that changed.
    lemma PendingNow(bs: seq<nat>, c: nat, data: Block, v0: Disk, held: multiset<nat>, busy: set<nat>)
      requires Arranged() && Blocks() == Absorb(bs, c) && Beside(Pins(Blocks()), held) && busy - {c} <= bc.locks
      requires WellFormed(l, bc.disk.blocks) && Logged(bc.disk.blocks[l.start]) == []
      requires GoodList(l, bc.disk.blocks, bs) && Distinct(bs) && Loggable(v0, bs) && |bs| < LOGSIZE
               && |bs| < l.size - 1
      requires c in bc.disk.blocks && !l.InLog(c) && |data| == BSIZE && bc.view == v0[c := data]
      requires CleanBut(v0, bc.disk.blocks, Elems(bs) + busy)
      ensures Pending(held, busy - {c})
    {
      hide Beside, WellFormed, GoodList, Loggable, Logged, Word;
      ListAbsorb(l, bc.disk.blocks, v0, bs, c, data);
    }

    // The holder of block c changes it, logs it and releases it.  False means panic.
    method ChangeLogged(b: Buf, data: Block, ghost c: nat, ghost held: multiset<nat>, ghost busy: set<nat>)
      returns (ok: bool)
      requires Pending(held, busy) && bc.Held(b) && b.locked && b.valid && b.blockno == c && c in held
               && |data| == BSIZE
      modifies this`n, block, bc`view, bc`refs, bc`locks, bc`order, bc.bufs, bc.head
      ensures ok <==> !TooBig(l, old(n), outstanding)
      ensures ok ==>
                && Pending(Dec(held, c), busy - {c})
                && Blocks() == Absorb(old(Blocks()), c) && bc.view == old(bc.view)[c := data]
                && bc.locks == old(bc.locks) - {c} && Stay(old(bc.Holds()), bc.Holds())
    {
      hide BCache.Valid, Pins, Both, Beside, BCache.Holds, Inc, Dec, Stay, WellFormed, Loggable, GoodList, Logged,
           Distinct, Absorb, CleanBut, Elems;
      ghost var bs, v0 := Blocks(), bc.view;
      Apart(Pins(bs), held, b);
      ghost var s := bc.Snapshot();
      ok := LogChange(b, data, c, held);
      if ok {
        ghost var u := bc.Snapshot();
        Drop(b, c, Pins(Blocks()), held);
        StayTrans(s, u, bc.Holds());
        PendingNow(bs, c, data, v0, Dec(held, c), busy);
      }
    }

    // What somebody holds is on the disk and not in the log.
    lemma Apart(pins: multiset<nat>, held: multiset<nat>, b: Buf)
      requires Beside(pins, held) && bc.Held(b) && b.blockno in held
      ensures b.blockno in bc.disk.blocks && !l.InLog(b.blockno)
    {
      hide BCache.Valid, Both;
      bc.ShownAt(b.blockno);
    }

    // bread by a call.
    method HoldPending(c: nat, ghost held: multiset<nat>, ghost busy: set<nat>) returns (b: Buf)
      requires Pending(held, busy) && c in bc.disk.blocks && !l.InLog(c) && c !in bc.locks
      requires c in bc.refs || |Referred(bc.refs)| < |bc.bufs|
      modifies bc`at, bc`refs, bc`locks, bc.bufs
      ensures Pending(Inc(held, c), busy) && bc.locks == old(bc.locks) + {c} && Stay(old(bc.Holds()), bc.Holds())
      ensures bc.refs == Inc(old(bc.refs), c)
      ensures bc.Held(b) && b.blockno == c && b.locked && b.valid && c in bc.view && b.data == bc.view[c]
    {
      hide BCache.Valid, Pins, Both, BCache.Holds, BCache.Held, Inc, Referred, Stay, Beside, WellFormed, Loggable,
           GoodList, Logged, Distinct, CleanBut;
      b := Hold(c, Pins(Blocks()), held);
    }

    // The usual use of the log: read a block, change it, log it, release it, while
    // others hold what they hold.  The change stays in the cache, pinned, and the disk
    // is not touched.  False means panic.
    method UpdateBlock(c: nat, data: Block, ghost held: multiset<nat>, ghost busy: set<nat>) returns (ok: bool)
      requires Pending(held, busy) && c in bc.disk.blocks && !l.InLog(c) && c !in bc.locks && |data| == BSIZE
      requires c in bc.refs || |Referred(bc.refs)| < |bc.bufs|
      modifies this`n, block, bc`at, bc`view, bc`refs, bc`locks, bc`order, bc.bufs, bc.head
      ensures ok <==> !TooBig(l, old(n), outstanding)
      ensures ok ==>
                && Pending(held, busy) && bc.locks == old(bc.locks) && Stay(old(bc.Holds()), bc.Holds())
                && Blocks() == Absorb(old(Blocks()), c) && bc.view == old(bc.view)[c := data] && old(bc.refs) <= bc.refs
    {
      hide BCache.Valid, Pins, Both, Inc, Dec, BCache.Holds, BCache.Held, Stay, Pending, Absorb;
      Free(held, busy, c);
      PendingRefs(held, busy);
      ghost var bs := Blocks();
      OneRef(held, c);
      OneRef(bc.refs, c);
      ghost var s := bc.Snapshot();
      var b := HoldPending(c, held, busy);
      ghost var t := bc.Snapshot();
      ok := ChangeLogged(b, data, c, Inc(held, c), busy);
      if ok {
        StayTrans(s, t, bc.Holds());
        assert busy - {c} == busy && bc.locks == old(bc.locks);
        PendingRefs(held, busy);
        PinsGrow(bs, c, held);
      }
    }

    lemma PendingRefs(held: multiset<nat>, busy: set<nat>)
      requires Pending(held, busy)
      ensures n <= block.Length && bc.refs == Both(Pins(Blocks()), held)
    {
    }

    lemma Free(held: multiset<nat>, busy: set<nat>, c: nat)
      requires Pending(held, busy) && c !in bc.locks
      ensures c !in busy && n <= block.Length
    {
    }

    // A call that holds block p, as bmap holds the indirect block, while it updates q;
    // then it changes p.
    method UpdateHolding(p: nat, dp: Block, q: nat, dq: Block, ghost held: multiset<nat>,
                         ghost busy: set<nat>) returns (ok: bool)
      requires Pending(held, busy) && p in bc.disk.blocks && !l.InLog(p) && p !in bc.locks && |dp| == BSIZE
      requires q in bc.disk.blocks && !l.InLog(q) && q !in bc.locks && |dq| == BSIZE && p != q
      requires |Referred(bc.refs)| + 1 < |bc.bufs|
      modifies this`n, block, bc`at, bc`view, bc`refs, bc`locks, bc`order, bc.bufs, bc.head
      ensures ok <==> !TooBig(l, old(n), outstanding) && !TooBig(l, |Absorb(old(block[..n]), q)|, outstanding)
      ensures ok ==>
                && Pending(held, busy) && bc.locks == old(bc.locks) && Stay(old(bc.Holds()), bc.Holds())
                && Blocks() == Absorb(Absorb(old(Blocks()), q), p) && bc.view == old(bc.view)[q := dq][p := dp]
    {
      hide BCache.Valid, Pins, Both, Inc, Dec, BCache.Holds, BCache.Held, Stay, Pending;
      Free(held, busy, p);
      OneRef(held, p);
      OneRef(bc.refs, p);
      OneMore(bc.refs, p);
      ghost var s := bc.Snapshot();
      var b := HoldPending(p, held, busy);
      HeldNow(b, Inc(held, p), busy);
      ghost var t := bc.Snapshot();
      ok := UpdateBlock(q, dq, Inc(held, p), busy);
      if !ok {
        return;
      }
      ghost var u := bc.Snapshot();
      Resume(t, p, b, Inc(held, p), busy);
      ok := ChangeLogged(b, dp, p, Inc(held, p), busy);
      if ok {
        StayTrans(s, t, u);
        StayTrans(s, u, bc.Holds());
        assert busy - {p} == busy && bc.locks == old(bc.locks);
      }
    }

    lemma HeldNow(b: Buf, held: multiset<nat>, busy: set<nat>)
      requires Pending(held, busy) && bc.Held(b)
      ensures b.blockno in bc.Holds().refs && b.blockno in bc.Holds().at && bc.Holds().at[b.blockno] == b
      ensures b.valid ==> b.blockno in bc.Holds().loaded
    {
      hide BCache.Valid, BCache.Holds;
      bc.NowHeld(b);
    }

    lemma Resume(was: Holding, p: nat, b: Buf, held: multiset<nat>, busy: set<nat>)
      requires Pending(held, busy) && Stay(was, bc.Holds()) && p in held
      requires p in was.refs && p in was.at && was.at[p] == b && p in was.loaded
      ensures bc.Held(b) && b.blockno == p && b.valid && (b.locked <==> p in bc.locks) && n <= block.Length
    {
      hide BCache.Valid, Pins, Both, BCache.Holds, Stay;
      BothFacts(Pins(Blocks()), held);
      bc.StillHeld(was, p, b);
    }

    // end_op: the last call to finish commits for all.  False means panic.
    method EndOp(ghost held: multiset<nat>) returns (ok: bool)
      requires outstanding == 1 && !committing ==> Committable(held)
      modifies this`outstanding, this`committing, this`n, bc, bc.bufs, bc.head, bc.disk
      ensures ok <==> !old(committing)
      ensures ok ==> !committing && outstanding == old(outstanding) - 1
      ensures ok && old(outstanding) == 1 ==>
                && n == 0 && Committable(held) && bc.view == bc.disk.blocks
                && bc.locks == old(bc.locks) && Stay(old(bc.Holds()), bc.Holds())
                && bc.disk.trace == old(bc.disk.trace)
                                  + (if old(n) == 0 then []
                                     else CommitTrace(l, old(bc.disk.blocks), old(bc.view), old(Blocks())))
                && forall c :: c in old(bc.view) && !l.InLog(c) ==> c in bc.view && bc.view[c] == old(bc.view)[c]
      ensures !ok || old(outstanding) != 1 ==>
                n == old(n) && unchanged(bc) && unchanged(bc.bufs) && unchanged(bc.head) && unchanged(bc.disk)
    {
      hide BCache.Valid, Pins, Both, BCache.Holds, Stay, CommitTrace, Pending;
      outstanding := outstanding - 1;
      if committing {
        return false;
      }
      if outstanding == 0 {
        committing := true;
        Commit(held);
        committing := false;
      }
      ok := true;
    }

    // Group commit at work: two calls change a block each, and the end of the second
    // one commits both in a single transaction.
    method TwoCalls(p: nat, dp: Block, q: nat, dq: Block) returns (ok: bool)
      requires Committable(multiset{}) && n == 0 && outstanding == 0 && !committing && 2 < l.size && 2 < |bc.bufs|
      requires p in bc.disk.blocks && !l.InLog(p) && |dp| == BSIZE && q in bc.disk.blocks && !l.InLog(q)
               && |dq| == BSIZE
      modifies this, block, bc, bc.bufs, bc.head, bc.disk
      ensures ok && n == 0 && outstanding == 0 && Committable(multiset{}) && bc.view == bc.disk.blocks
      ensures Formatted(l, old(bc.disk.blocks)) && GoodList(l, old(bc.disk.blocks), Absorb([p], q))
      ensures Loggable(old(bc.view)[p := dp][q := dq], Absorb([p], q))
      ensures bc.disk.trace == old(bc.disk.trace)
                             + CommitTrace(l, old(bc.disk.blocks), old(bc.view)[p := dp][q := dq], Absorb([p], q))
      ensures forall c :: c in old(bc.view) && !l.InLog(c) ==>
                            c in bc.disk.blocks && bc.disk.blocks[c] == old(bc.view)[p := dp][q := dq][c]
    {
      hide BCache.Valid, Pins, Both, BCache.Holds, Stay, CommitTrace, Pending;
      NobodyLocks();
      ok := BeginOp();
      ok := BeginOp();
      ok := UpdateBlock(p, dp, multiset{}, {});
      NobodyLocks();
      assert Blocks() == [p];
      ok := EndOp(multiset{});
      NobodyLocks();
      ok := UpdateBlock(q, dq, multiset{}, {});
      NobodyLocks();
      PendingFacts(multiset{}, {});
      ok := EndOp(multiset{});
    }

    // A transaction of as many blocks as there are buffers cannot be written to the log:
    // all buffers are pinned, so that bread of a slot panics.  LOGSIZE is NBUF, and so a
    // log of more than LOGSIZE blocks would need more than NBUF buffers.
    lemma NoneToSpare(held: multiset<nat>, c: nat)
      requires Pending(held, {}) && n == |bc.bufs| && l.InLog(c)
      ensures c !in bc.at && forall x :: x in bc.bufs ==> x.refcnt > 0
    {
      hide BCache.Valid, Pins, Both;
      PinsFacts(Blocks());
      BothFacts(Pins(Blocks()), held);
      bc.AllTaken(Blocks());
      if c in bc.at {
        bc.OneBuffer(c);
      }
    }

    lemma NobodyLocks()
      requires Pending(multiset{}, {})
      ensures bc.locks == {} && n <= block.Length && |Referred(bc.refs)| <= n
    {
      hide BCache.Valid, Pins;
      BothFacts(Pins(Blocks()), multiset{});
      PinsSize(Blocks());
    }

    lemma PendingFacts(held: multiset<nat>, busy: set<nat>)
      requires Pending(held, busy)
      ensures Formatted(l, bc.disk.blocks) && GoodList(l, bc.disk.blocks, Blocks()) && Loggable(bc.view, Blocks())
    {
    }
  }
}
