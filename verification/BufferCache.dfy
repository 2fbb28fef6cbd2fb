/**
  The buffer cache (kernel/bio.c): NBUF buffers on a circular doubly linked list in
  order of last use, over a disk of blocks.

  Buffers are objects that point to each other, as in the kernel.  `order` is the list
  from head.next to head.prev and `at` says which buffer holds which block; both are
  only used in proofs.  What a client sees is `view`: for each block its cached contents,
  or the disk's.
 */
module BufferCache {
  import opened Common
  import opened DiskBlocks
  import opened LogSpec

  const ROOTDEV: nat := 1

  // The disk behind the driver.  Each write is atomic; `trace` collects the disk
  // contents after every write, that is, all the disks a crash can leave behind.
  class Device {
    var blocks: Disk
    ghost var trace: seq<Disk>

    constructor (d: Disk)
      ensures blocks == d && trace == []
    {
      blocks := d;
      trace := [];
    }

    method Read(b: nat) returns (data: Block)
      requires b in blocks
      ensures data == blocks[b]
    {
      data := blocks[b];
    }

    method Write(b: nat, data: Block)
      requires b in blocks
      modifies this
      ensures blocks == old(blocks)[b := data]
      ensures trace == old(trace) + [blocks]
    {
      blocks := blocks[b := data];
      trace := trace + [blocks];
    }
  }

  class Buf {
    var valid: bool
    var locked: bool
    var dev: nat
    var blockno: nat
    var refcnt: int
    var prev: Buf?
    var next: Buf?
    var data: Block

    constructor ()
      ensures !valid && !locked && dev == 0 && blockno == 0 && refcnt == 0
    {
      valid, locked, dev, blockno, refcnt := false, false, 0, 0, 0;
      prev, next, data := null, null, [];
    }

    // Give the buffer to another block; its contents are stale.
    method Reassign(dev: nat, blockno: nat)
      modifies this`dev, this`blockno, this`valid, this`refcnt
      ensures this.dev == dev && this.blockno == blockno && !valid && refcnt == 1
    {
      this.dev := dev;
      this.blockno := blockno;
      valid := false;
      refcnt := 1;
    }
  }

  ghost function Cut<T>(s: seq<T>, k: nat): seq<T>
    requires k < |s|
  {
    s[..k] + s[k + 1..]
  }

  // Moving one element to the front keeps the elements.
  lemma MovedElements<T>(s: seq<T>, k: nat)
    requires k < |s| && Distinct(s)
    ensures var r := [s[k]] + Cut(s, k);
            |r| == |s| && (forall x :: x in s ==> x in r) && (forall i :: 0 <= i < |r| ==> r[i] in s)
    ensures s[k] !in Cut(s, k) && forall i :: 0 <= i < |Cut(s, k)| ==> Cut(s, k)[i] in s
  {
    var r := [s[k]] + Cut(s, k);
    forall x | x in s ensures x in r {
      var j :| 0 <= j < |s| && s[j] == x;
      assert r[if j < k then j + 1 else if j == k then 0 else j] == x;
    }
  }

  // The blocks that have a reference.
  ghost function Referred(refs: multiset<nat>): set<nat> {
    set c | c in refs
  }

  ghost function Inc(m: multiset<nat>, c: nat): multiset<nat> {
    m + multiset{c}
  }

  ghost function Dec(m: multiset<nat>, c: nat): multiset<nat> {
    m - multiset{c}
  }

  lemma IncFacts(m: multiset<nat>, c: nat)
    ensures c in Inc(m, c) && m <= Inc(m, c) && Inc(m, c)[c] == m[c] + 1 && Inc(m, c) == m[c := m[c] + 1]
    ensures Referred(Inc(m, c)) == Referred(m) + {c}
  {
  }

  lemma DecFacts(m: multiset<nat>, c: nat)
    ensures Dec(m, c) <= m && forall e :: e != c ==> Dec(m, c)[e] == m[e]
    ensures c in m ==> Dec(m, c) == m[c := m[c] - 1] && Dec(m, c)[c] == m[c] - 1
  {
  }

  // What the holder of a reference relies on: which buffer holds its block, and
  // whether the block has been read into it.
  datatype Holding = Holding(refs: multiset<nat>, at: map<nat, Buf>, loaded: set<nat>)

  // Blocks that stay referenced stay in their buffers, and stay valid.
  ghost predicate Stay(s: Holding, t: Holding) {
    forall c :: c in s.refs && c in t.refs ==>
      && c in s.at && c in t.at && t.at[c] == s.at[c]
      && (c in s.loaded ==> c in t.loaded)
  }

  lemma StayTrans(s: Holding, t: Holding, u: Holding)
    requires Stay(s, t) && Stay(t, u)
    requires s.refs <= t.refs || u.refs <= t.refs
    ensures Stay(s, u)
  {
  }

  class BCache {
    const disk: Device
    ghost const bufs: set<Buf>            // the NBUF elements of bcache.buf
    const head: Buf
    ghost var order: seq<Buf>
    ghost var at: map<nat, Buf>
    ghost var view: Disk
    ghost var refs: multiset<nat>         // the references to each block
    ghost var locks: set<nat>             // the blocks whose buffers are locked

    // The list as a walk from head back to head.
    ghost function Ring(): seq<Buf>
      reads this
    {
      [head] + order + [head]
    }

    ghost predicate Linked()
      reads this, head, order
    {
      && head !in order && Distinct(order)
      && var r := Ring();
         && (forall i {:trigger r[i].next} :: 0 <= i <= |order| ==> r[i].next == r[i + 1])
         && (forall i {:trigger r[i].prev} :: 1 <= i <= |order| + 1 ==> r[i].prev == r[i - 1])
    }

    // The list holds every buffer exactly once.
    ghost predicate Permutes()
      reads this
    {
      && |order| == |bufs| && head !in bufs
      && (forall b :: b in bufs ==> b in order)
      && (forall i :: 0 <= i < |order| ==> order[i] in bufs)
    }

    // `at` is exactly the buffers of the root device: no block has two.
    ghost predicate Indexed()
      reads this, bufs, disk
    {
      && (forall c :: c in at ==> at[c] in bufs && at[c].dev == ROOTDEV && at[c].blockno == c && c in disk.blocks)
      && (forall b :: b in bufs && b.dev == ROOTDEV ==> b.blockno in at && at[b.blockno] == b)
    }

    // References and locks are counted on cached blocks only.
    ghost predicate Counted()
      reads this, bufs, disk
      requires Indexed()
    {
      && (forall b :: b in bufs ==> b.refcnt >= 0 && (b.refcnt > 0 ==> b.dev == ROOTDEV) && (b.locked ==> b.refcnt > 0))
      && (forall c :: refs[c] == if c in at then at[c].refcnt else 0)
      && (forall c :: c in locks <==> c in at && at[c].locked)
    }

    // A buffer nobody refers to holds nothing that the disk does not.
    ghost predicate Clean()
      reads this, bufs, disk
      requires Indexed()
    {
      forall c :: c in at && at[c].refcnt == 0 && at[c].valid ==> at[c].data == disk.blocks[c]
    }

    // What a client of the cache sees of a block.
    ghost predicate Shown()
      reads this, bufs, disk
      requires Indexed()
    {
      && view.Keys == disk.blocks.Keys
      && forall c :: c in view ==> view[c] == if c in at && at[c].valid then at[c].data else disk.blocks[c]
    }

    ghost predicate Valid()
      reads this, bufs, head, order, disk
    {
      Linked() && Permutes() && Indexed() && Counted() && Clean() && Shown()
    }

    // binit: every buffer is linked in at the front, one after the other.
    constructor (disk: Device, buf: seq<Buf>, head: Buf)
      requires Distinct(buf) && head !in buf
      requires forall b :: b in buf ==> b.dev == 0 && b.refcnt == 0 && !b.valid && !b.locked
      modifies buf, head
      ensures this.disk == disk && this.bufs == (set b | b in buf) && |bufs| == |buf| && this.head == head
      ensures Valid() && view == disk.blocks && refs == multiset{} && locks == {}
    {
      this.disk, this.bufs, this.head := disk, (set b | b in buf), head;
      this.order, this.at, this.view := [], map[], disk.blocks;
      this.refs, this.locks := multiset{}, {};
      new;
      head.prev := head;
      head.next := head;
      assert Linked();
      hide Linked;
      var i := 0;
      while i < |buf|
        invariant 0 <= i <= |buf| && |order| == i && at == map[] && view == disk.blocks && refs == multiset{}
                  && locks == {}
        invariant forall j {:trigger order[j]} :: 0 <= j < i ==> order[j] == buf[i - 1 - j]
        invariant forall j :: 0 <= j < i ==> buf[j] in order
        invariant Linked()
        invariant forall b :: b in bufs ==> b.dev == 0 && b.refcnt == 0 && !b.valid && !b.locked
      {
        assert buf[i] in bufs;
        assert forall j :: 0 <= j < |order| ==> order[j] in bufs && order[j] != buf[i];
        PushFront(buf[i]);
        i := i + 1;
      }
      DistinctSize(buf);
      forall b | b in bufs ensures b in order {
        var j :| 0 <= j < |buf| && buf[j] == b;
      }
      assert Permutes();
    }

    // Link b in between head and the first buffer.
    method PushFront(b: Buf)
      requires Linked() && b !in order && b != head && b in bufs
      requires forall i :: 0 <= i < |order| ==> order[i] in bufs
      modifies this`order, bufs`prev, bufs`next, head`prev, head`next
      ensures order == [b] + old(order) && Linked()
    {
      ghost var r := Ring();
      assert r[0].next == r[1];
      b.next := head.next;
      b.prev := head;
      head.next.prev := b;
      head.next := b;
      order := [b] + order;
      ghost var s := Ring();
      assert forall i :: 2 <= i < |s| ==> s[i] == r[i - 1];
    }

    // Take b out of the list.
    method Unlink(b: Buf, ghost k: nat)
      requires Linked() && k < |order| && order[k] == b
      requires forall i :: 0 <= i < |order| ==> order[i] in bufs
      modifies this`order, bufs`prev, bufs`next, head`prev, head`next
      ensures order == Cut(old(order), k) && Linked()
    {
      ghost var r := Ring();
      assert r[k + 1] == b;
      assert b.next == r[k + 2] && b.prev == r[k];
      b.next.prev := b.prev;
      b.prev.next := b.next;
      order := order[..k] + order[k + 1..];
      ghost var s := Ring();
      assert forall i :: 0 <= i <= k ==> s[i] == r[i];
      assert forall i :: k < i < |s| ==> s[i] == r[i + 1];
    }

    // A buffer that a client has a reference to.
    ghost predicate Held(b: Buf)
      reads this, bufs
    {
      b in bufs && b.dev == ROOTDEV && b.blockno in refs && b.blockno in at && at[b.blockno] == b
    }

    ghost function Holds(): Holding
      reads this, bufs
    {
      Holding(refs, at, set c | c in at && at[c] in bufs && at[c].valid)
    }

    twostate predicate Kept()
      reads this, bufs
    {
      Stay(old(Holds()), Holds())
    }

    // The first loop of bget: the buffer that holds a block, if any.
    method FindCached(blockno: nat) returns (b: Buf?)
      requires Valid()
      ensures b == null <==> blockno !in at
      ensures b != null ==> b == at[blockno] && b in bufs && b.dev == ROOTDEV && b.blockno == blockno
    {
      ghost var r := Ring();
      ghost var i := 0;
      assert r[0].next == r[1];
      b := head.next;
      while b != head
        invariant 0 <= i <= |order| && b == r[i + 1]
        invariant forall j :: 0 <= j < i ==> !(order[j].dev == ROOTDEV && order[j].blockno == blockno)
        decreases |order| - i
      {
        assert b == order[i];
        if b.dev == ROOTDEV && b.blockno == blockno {
          return;
        }
        assert r[i + 1].next == r[i + 2];
        b := b.next;
        i := i + 1;
      }
      assert i == |order|;
      b := null;
    }

    // order[k] is unreferenced and everything used less recently is referenced.
    ghost predicate LeastRecent(k: nat)
      reads this, order
    {
      k < |order| && order[k].refcnt == 0 && forall j :: k < j < |order| ==> order[j].refcnt != 0
    }

    // The second loop of bget: the least recently used buffer without references.
    method FindUnused() returns (b: Buf?, ghost k: nat)
      requires Valid()
      ensures b == null <==> forall x :: x in bufs ==> x.refcnt > 0
      ensures b != null ==> LeastRecent(k) && order[k] == b && b in bufs && b.refcnt == 0 && !b.locked
    {
      ghost var r := Ring();
      k := |order|;
      assert r[|order| + 1].prev == r[|order|];
      b := head.prev;
      while b != head
        invariant 0 <= k <= |order| && b == r[k]
        invariant forall j :: k <= j < |order| ==> order[j].refcnt != 0
        decreases k
      {
        assert b == order[k - 1];
        if b.refcnt == 0 {
          k := k - 1;
          return;
        }
        assert r[k].prev == r[k - 1];
        b := b.prev;
        k := k - 1;
      }
      b := null;
    }

    // Changing anything but links leaves the list as it is.
    twostate lemma LinksKept()
      requires old(Linked()) && order == old(order)
      requires forall x :: x in order || x == head ==> x.next == old(x.next) && x.prev == old(x.prev)
      ensures Linked()
    {
      ghost var r := old(Ring());
      assert r == Ring();
      forall i | 0 <= i <= |order| ensures r[i].next == r[i + 1] {
        assert r[i] in order || r[i] == head;
        assert old(r[i].next) == r[i + 1];
      }
      forall i | 1 <= i <= |order| + 1 ensures r[i].prev == r[i - 1] {
        assert r[i] in order || r[i] == head;
        assert old(r[i].prev) == r[i - 1];
      }
    }

    // Relinking leaves everything else as it is.
    twostate lemma ContentsKept()
      requires old(Indexed()) && old(Counted()) && old(Clean()) && old(Shown())
      requires at == old(at) && view == old(view) && disk.blocks == old(disk.blocks)
      requires refs == old(refs) && locks == old(locks)
      requires forall x :: x in bufs ==>
                 x.dev == old(x.dev) && x.blockno == old(x.blockno) && x.valid == old(x.valid) &&
                 x.refcnt == old(x.refcnt) && x.locked == old(x.locked) && x.data == old(x.data)
      ensures Indexed() && Counted() && Clean() && Shown() && Kept()
    {
    }

    // Only the buffer of block c changed, and it is in order.
    twostate predicate Touched(c: nat)
      reads this, bufs, disk
    {
      && at == old(at) && c in at && at[c] in bufs && c in view && order == old(order)
      && disk.blocks.Keys == old(disk.blocks).Keys == view.Keys == old(view).Keys
      && (forall x :: x in view && x != c ==> view[x] == old(view)[x] && disk.blocks[x] == old(disk.blocks)[x])
      && (forall x :: x in bufs ==> x.dev == old(x.dev) && x.blockno == old(x.blockno))
      && (forall x :: x in bufs && x != at[c] ==>
                        x.valid == old(x.valid) && x.data == old(x.data) &&
                        x.refcnt == old(x.refcnt) && x.locked == old(x.locked))
      && var b := at[c];
      && b.refcnt >= 0 && refs == old(refs)[c := b.refcnt]
      && locks == (if b.locked then old(locks) + {c} else old(locks) - {c})
      && (b.locked ==> b.refcnt > 0) && (old(b.valid) ==> b.valid)
      && (b.refcnt == 0 && b.valid ==> b.data == disk.blocks[c])
      && view[c] == if b.valid then b.data else disk.blocks[c]
    }

    twostate lemma TouchedCounted(c: nat)
      requires old(Indexed()) && old(Counted()) && Touched(c)
      ensures Indexed() && Counted()
    {
    }

    twostate lemma TouchedContents(c: nat)
      requires old(Indexed()) && old(Clean()) && old(Shown()) && Touched(c) && Indexed()
      ensures Clean() && Shown()
    {
    }

    twostate lemma TouchedKept(c: nat)
      requires old(Indexed()) && old(Counted()) && Touched(c) && Indexed() && Counted()
      ensures Kept()
    {
    }

    twostate lemma TouchedValid(c: nat)
      requires old(Valid()) && Touched(c)
      requires forall x :: x in order || x == head ==> x.next == old(x.next) && x.prev == old(x.prev)
      ensures Valid() && Kept()
    {
      hide Linked, Indexed, Counted, Clean, Shown, Kept;
      LinksKept();
      TouchedCounted(c);
      TouchedContents(c);
      TouchedKept(c);
    }

    // A cached block, seen from its buffer.
    lemma ShownAt(c: nat)
      requires Valid() && c in at
      ensures c in disk.blocks && disk.blocks.Keys == view.Keys && at[c].refcnt >= 0
      ensures at[c] in bufs && at[c].dev == ROOTDEV && at[c].blockno == c
      ensures refs[c] == at[c].refcnt
      ensures c in locks <==> at[c].locked
      ensures at[c].locked ==> at[c].refcnt > 0
      ensures view[c] == if at[c].valid then at[c].data else disk.blocks[c]
    {
    }

    // A cached block gets one more reference.
    method AddRef(b: Buf)
      requires Valid() && b.blockno in at && at[b.blockno] == b
      modifies this`refs, b`refcnt
      ensures Valid() && Kept() && Held(b)
      ensures refs == Inc(old(refs), b.blockno)
    {
      hide Valid, Kept, Inc;
      ShownAt(b.blockno);
      IncFacts(refs, b.blockno);
      b.refcnt := b.refcnt + 1;
      refs := Inc(refs, b.blockno);
      assert locks == if b.locked then locks + {b.blockno} else locks - {b.blockno};
      TouchedValid(b.blockno);
    }

    // Block c was not cached; it has been given a buffer that nobody referred to.
    twostate predicate Recycled(c: nat)
      reads this, bufs, disk
    {
      && c in at && c in disk.blocks && c !in old(at) && order == old(order)
      && disk.blocks == old(disk.blocks) && view == old(view)
      && refs == old(refs)[c := 1] && locks == old(locks)
      && var b := at[c];
      && b in bufs && old(b.refcnt) == 0 && !b.locked
      && b.dev == ROOTDEV && b.blockno == c && !b.valid && b.refcnt == 1
      && at == (if old(b.dev) == ROOTDEV then old(at) - {old(b.blockno)} else old(at))[c := b]
      && (forall x :: x in bufs ==> x.locked == old(x.locked) && x.data == old(x.data))
      && (forall x :: x in bufs && x != b ==> x.dev == old(x.dev) && x.blockno == old(x.blockno) &&
                                              x.valid == old(x.valid) && x.refcnt == old(x.refcnt))
    }

    twostate lemma RecycledIndexed(c: nat)
      requires old(Indexed()) && Recycled(c)
      ensures Indexed()
    {
    }

    twostate lemma RecycledCounted(c: nat)
      requires old(Indexed()) && old(Counted()) && Recycled(c) && Indexed()
      ensures Counted()
    {
    }

    twostate lemma RecycledContents(c: nat)
      requires old(Indexed()) && old(Counted()) && old(Clean()) && old(Shown()) && Recycled(c) && Indexed()
      ensures Clean() && Shown()
    {
    }

    twostate lemma RecycledKept(c: nat)
      requires old(Indexed()) && old(Counted()) && Recycled(c) && Indexed()
      ensures Kept()
    {
    }

    twostate lemma RecycledValid(c: nat)
      requires old(Valid()) && Recycled(c)
      requires forall x :: x in order || x == head ==> x.next == old(x.next) && x.prev == old(x.prev)
      ensures Valid() && Kept()
    {
      hide Linked, Indexed, Counted, Clean, Shown, Kept;
      LinksKept();
      RecycledIndexed(c);
      RecycledCounted(c);
      RecycledContents(c);
      RecycledKept(c);
    }

    // An unreferenced buffer is given to another block.
    method Recycle(b: Buf, blockno: nat)
      requires Valid() && b in bufs && b.refcnt == 0 && !b.locked && blockno in disk.blocks && blockno !in at
      modifies this`at, this`refs, b`dev, b`blockno, b`valid, b`refcnt
      ensures Valid() && Kept() && Held(b) && b.blockno == blockno
      ensures refs == old(refs)[blockno := 1] && !b.valid
    {
      hide Linked, Permutes, Indexed, Counted, Clean, Shown, Kept;
      ghost var now := (if b.dev == ROOTDEV then at - {b.blockno} else at)[blockno := b];
      b.Reassign(ROOTDEV, blockno);
      at := now;
      refs := refs[blockno := 1];
      RecycledValid(blockno);
    }

    // When every buffer is referenced, so are as many blocks.
    lemma AllReferenced()
      requires Valid() && forall x :: x in bufs ==> x.refcnt > 0
      ensures |Referred(refs)| >= |bufs|
    {
      BlocksFit(bufs, Referred(refs));
    }

    lemma {:induction false} BlocksFit(s: set<Buf>, cs: set<nat>)
      requires forall x :: x in s ==> x.blockno in cs
      requires forall x, y :: x in s && y in s && x != y ==> x.blockno != y.blockno
      ensures |s| <= |cs|
      decreases |s|
    {
      if s != {} {
        var x :| x in s;
        BlocksFit(s - {x}, cs - {x.blockno});
      }
    }

    // Referenced blocks, as many as there are buffers, take up all buffers.
    lemma AllTaken(s: seq<nat>)
      requires Valid() && Distinct(s) && |s| == |bufs| && forall i :: 0 <= i < |s| ==> s[i] in refs
      ensures forall x :: x in bufs ==> x.refcnt > 0 && x.dev == ROOTDEV && x.blockno in s
    {
      var cs := set c | c in s;
      var taken := set x | x in bufs && x.dev == ROOTDEV && x.blockno in s;
      DistinctSize(s);
      HoldersSize(cs, taken);
      forall x | x in bufs ensures x in taken {
        if x !in taken {
          SubsetSize(taken, bufs - {x});
        }
      }
    }

    lemma {:induction false} HoldersSize(cs: set<nat>, bs: set<Buf>)
      requires Valid() && forall c :: c in cs ==> c in at && at[c] in bs
      ensures |cs| <= |bs|
      decreases |cs|
    {
      if cs != {} {
        var c :| c in cs;
        HoldersSize(cs - {c}, bs - {at[c]});
      }
    }

    lemma OneBuffer(c: nat)
      requires Valid() && c in at
      ensures at[c] in bufs && at[c].blockno == c
    {
    }

    // Find the buffer of a block, or recycle the least recently used free one.
    // Null stands for panic("bget: no buffers").
    method BGet(blockno: nat) returns (b: Buf?)
      requires Valid() && blockno in disk.blocks
      modifies this`at, this`refs, bufs`dev, bufs`blockno, bufs`valid, bufs`refcnt
      ensures Valid() && Kept()
      ensures b == null <==> blockno !in old(at) && forall x :: x in bufs ==> old(x.refcnt) > 0
      ensures b == null ==>
                && |Referred(old(refs))| >= |bufs| && blockno !in old(refs) && at == old(at)
                && refs == old(refs)
      ensures b != null ==> Held(b) && b.blockno == blockno && refs == Inc(old(refs), blockno)
      ensures b != null && blockno in old(at) ==> b == old(at)[blockno] && b.valid == old(b.valid)
      ensures b != null && blockno !in old(at) ==>
                !b.valid && exists k: nat :: old(LeastRecent(k)) && order[k] == b
    {
      hide Linked, Permutes, Indexed, Counted, Clean, Shown, Inc, Referred, Stay, Holds;
      b := FindCached(blockno);
      if b != null {
        AddRef(b);
        return;
      }
      ghost var k;
      b, k := FindUnused();
      if b != null {
        Uncached(blockno);
        IncFacts(refs, blockno);
        Recycle(b, blockno);
      } else {
        AllReferenced();
        Uncached(blockno);
        StaySelf();
      }
    }

    lemma Uncached(c: nat)
      requires Valid() && c !in at
      ensures c !in refs && c !in locks
    {
    }

    lemma Referenced(c: nat)
      requires Valid() && c in refs
      ensures c in at && c in disk.blocks
    {
    }

    lemma Counts(c: nat)
      requires Valid()
      ensures disk.blocks.Keys == view.Keys
      ensures c in view && c !in refs ==> view[c] == disk.blocks[c]
      ensures c !in refs ==> c !in locks
    {
    }

    lemma CleanView()
      requires Valid()
      ensures disk.blocks.Keys == view.Keys
      ensures forall c :: c in view && c !in refs ==> view[c] == disk.blocks[c]
    {
    }

    lemma StaySelf()
      requires Valid()
      ensures Stay(Holds(), Holds())
    {
    }

    method Lock(b: Buf)
      requires Valid() && Held(b) && !b.locked
      modifies this`locks, b`locked
      ensures Valid() && Kept() && Held(b)
      ensures b.locked && locks == old(locks) + {b.blockno}
    {
      hide Valid, Kept;
      ShownAt(b.blockno);
      b.locked := true;
      locks := locks + {b.blockno};
      assert refs == refs[b.blockno := b.refcnt];
      TouchedValid(b.blockno);
    }

    method Unlock(b: Buf)
      requires Valid() && Held(b)
      modifies this`locks, b`locked
      ensures Valid() && Kept() && Held(b)
      ensures !b.locked && locks == old(locks) - {b.blockno}
    {
      hide Valid, Kept;
      ShownAt(b.blockno);
      b.locked := false;
      locks := locks - {b.blockno};
      assert refs == refs[b.blockno := b.refcnt];
      TouchedValid(b.blockno);
    }

    // Read the block into a stale buffer.
    method Load(b: Buf)
      requires Valid() && Held(b) && b.locked
      modifies b`valid, b`data
      ensures Valid() && Kept() && Held(b)
      ensures b.valid && b.data == view[b.blockno]
    {
      hide Valid, Kept;
      ShownAt(b.blockno);
      if !b.valid {
        var data := disk.Read(b.blockno);
        b.data := data;
        b.valid := true;
      }
      assert refs == refs[b.blockno := b.refcnt] && locks == locks + {b.blockno};
      TouchedValid(b.blockno);
    }

    // Return the locked buffer of a block, holding what a client should see of it.
    method BRead(blockno: nat) returns (b: Buf?)
      requires Valid() && blockno in disk.blocks && blockno !in locks
      modifies this`at, this`refs, this`locks
      modifies bufs`dev, bufs`blockno, bufs`valid, bufs`refcnt, bufs`locked, bufs`data
      ensures Valid() && Kept()
      ensures b == null <==> blockno !in old(at) && forall x :: x in bufs ==> old(x.refcnt) > 0
      ensures b == null ==>
                && |Referred(old(refs))| >= |bufs| && blockno !in old(refs) && refs == old(refs)
                && locks == old(locks)
      ensures b != null ==> Held(b) && b.blockno == blockno && b.locked && b.valid && b.data == view[blockno]
      ensures b != null ==> refs == Inc(old(refs), blockno) && locks == old(locks) + {blockno}
    {
      hide Linked, Permutes, Indexed, Counted, Clean, Shown, Inc, Referred, Stay, Holds;
      ghost var s := Snapshot();
      b := BGet(blockno);
      ghost var t := Snapshot();
      if b != null {
        IncFacts(s.refs, blockno);
        ShownAt(blockno);
        Lock(b);
        ghost var u := Snapshot();
        Load(b);
        SameRefs();
        StayTrans(s, t, u);
        StayTrans(s, u, Holds());
      }
    }

    // The same where a buffer is sure to be found.
    method Fetch(blockno: nat) returns (b: Buf)
      requires Valid() && blockno in disk.blocks && blockno !in locks
      requires blockno in refs || |Referred(refs)| < |bufs|
      modifies this`at, this`refs, this`locks
      modifies bufs`dev, bufs`blockno, bufs`valid, bufs`refcnt, bufs`locked, bufs`data
      ensures Valid() && Kept()
      ensures Held(b) && b.blockno == blockno && b.locked && b.valid && b.data == view[blockno]
      ensures refs == Inc(old(refs), blockno) && locks == old(locks) + {blockno}
    {
      hide Valid, Stay, Inc, Referred;
      b := BRead(blockno);
    }

    // Write the buffer through to the disk.
    method BWrite(b: Buf)
      requires Valid() && Held(b) && b.locked && b.valid
      modifies disk
      ensures Valid() && Kept() && Held(b)
      ensures disk.blocks == old(disk.blocks)[b.blockno := b.data]
      ensures disk.trace == old(disk.trace) + [disk.blocks]
    {
      hide Valid, Kept;
      ShownAt(b.blockno);
      disk.Write(b.blockno, b.data);
      assert refs == refs[b.blockno := b.refcnt] && locks == locks + {b.blockno};
      TouchedValid(b.blockno);
    }

    // The holder of a buffer changes its contents in memory.
    method SetData(b: Buf, data: Block)
      requires Valid() && Held(b) && b.locked && b.valid
      modifies this`view, b`data
      ensures Valid() && Kept() && Held(b)
      ensures view == old(view)[b.blockno := data] && b.data == data
    {
      hide Valid, Kept;
      ShownAt(b.blockno);
      b.data := data;
      view := view[b.blockno := data];
      assert refs == refs[b.blockno := b.refcnt] && locks == locks + {b.blockno};
      TouchedValid(b.blockno);
    }

    lemma SameRefs()
      ensures Holds().refs == refs
    {
    }

    // Change a held buffer and write it through.
    method Store(b: Buf, data: Block)
      requires Valid() && Held(b) && b.locked && b.valid
      modifies this`view, b`data, disk
      ensures Valid() && Kept() && Held(b)
      ensures view == old(view)[b.blockno := data]
      ensures disk.blocks == old(disk.blocks)[b.blockno := data]
      ensures disk.trace == old(disk.trace) + [disk.blocks]
    {
      hide Valid, Stay, Holds;
      ghost var s := Holds();
      SetData(b, data);
      ghost var t := Holds();
      BWrite(b);
      SameRefs();
      StayTrans(s, t, Holds());
    }

    method BPin(b: Buf)
      requires Valid() && Held(b)
      modifies this`refs, b`refcnt
      ensures Valid() && Kept() && Held(b)
      ensures refs == Inc(old(refs), b.blockno)
    {
      AddRef(b);
    }

    // The last reference may only be given up when the disk has the contents.
    ghost predicate MayDrop(c: nat)
      reads this, disk
    {
      c in refs && (refs[c] == 1 ==> c in view && c in disk.blocks && view[c] == disk.blocks[c])
    }

    method BUnpin(b: Buf)
      requires Valid() && Held(b) && MayDrop(b.blockno) && (refs[b.blockno] == 1 ==> !b.locked)
      modifies this`refs, b`refcnt
      ensures Valid() && Kept()
      ensures refs == Dec(old(refs), b.blockno)
      ensures b.blockno in refs ==> Held(b)
    {
      hide Valid, Kept, Dec;
      ShownAt(b.blockno);
      DecFacts(refs, b.blockno);
      b.refcnt := b.refcnt - 1;
      refs := Dec(refs, b.blockno);
      assert locks == if b.locked then locks + {b.blockno} else locks - {b.blockno};
      TouchedValid(b.blockno);
    }

    lemma NoRepeats()
      requires Linked()
      ensures head !in order && Distinct(order)
    {
    }

    method MoveToFront(b: Buf)
      requires Valid() && b in bufs
      modifies this`order, bufs`prev, bufs`next, head`prev, head`next
      ensures Valid() && Kept()
      ensures exists k :: 0 <= k < |order| && old(order)[k] == b && order == [b] + Cut(old(order), k)
    {
      hide Linked, Distinct, Cut, Indexed, Counted, Clean, Shown, Kept;
      NoRepeats();
      ghost var k :| 0 <= k < |order| && order[k] == b;
      MovedElements(order, k);
      Unlink(b, k);
      PushFront(b);
      ContentsKept();
    }

    // Unlock the buffer and drop the reference; with no reference left it becomes
    // the most recently used.
    method BRelse(b: Buf)
      requires Valid() && Held(b) && MayDrop(b.blockno) && b.locked
      modifies this`order, bufs`prev, bufs`next, head`prev, head`next, this`refs, this`locks, b`refcnt, b`locked
      ensures Valid() && Kept()
      ensures refs == Dec(old(refs), b.blockno) && locks == old(locks) - {b.blockno}
      ensures b.blockno in refs ==> order == old(order)
      ensures b.blockno !in refs
              ==> exists k :: 0 <= k < |order| && old(order)[k] == b && order == [b] + Cut(old(order), k)
    {
      hide Linked, Permutes, Indexed, Counted, Clean, Shown, Dec, Stay, Holds;
      ghost var s := Snapshot();
      Unlock(b);
      ghost var t := Snapshot();
      DecFacts(refs, b.blockno);
      BUnpin(b);
      ghost var u := Snapshot();
      StayTrans(s, t, u);
      ShownAt(b.blockno);
      if b.refcnt == 0 {
        MoveToFront(b);
        SameRefs();
        StayTrans(s, u, Holds());
      }
    }

    // Change a held buffer, write it through and release it.
    method StoreAndRelease(b: Buf, data: Block)
      requires Valid() && Held(b) && b.locked && b.valid
      modifies this`order, bufs`prev, bufs`next, head`prev, head`next, this`refs, this`locks, b`refcnt, b`locked
      modifies this`view, b`data, disk
      ensures Valid() && Kept() && b.blockno in old(refs)
      ensures refs == Dec(old(refs), b.blockno) && locks == old(locks) - {b.blockno}
      ensures view == old(view)[b.blockno := data]
      ensures disk.blocks == old(disk.blocks)[b.blockno := data]
      ensures disk.trace == old(disk.trace) + [disk.blocks]
    {
      hide Valid, Stay, Holds, Dec;
      ghost var s := Snapshot();
      Store(b, data);
      ghost var t := Snapshot();
      BRelse(b);
      SameRefs();
      StayTrans(s, t, Holds());
    }

    // The state of the holders, for comparison later.
    lemma Snapshot() returns (s: Holding)
      ensures s == Holds() && s.refs == refs
    {
      s := Holds();
    }

    // The buffer b is still the one that was held for block c.
    lemma StillHeld(was: Holding, c: nat, b: Buf)
      requires Valid() && Stay(was, Holds()) && c in refs
      requires c in was.refs && c in was.at && was.at[c] == b && c in was.loaded
      ensures Held(b) && b.blockno == c && b.valid && c in view && b.data == view[c] && (b.locked <==> c in locks)
    {
      hide Linked, Permutes, Clean;
    }

    lemma NowHeld(b: Buf)
      requires Valid() && Held(b)
      ensures b.blockno in Holds().refs && b.blockno in Holds().at && Holds().at[b.blockno] == b
      ensures b in bufs && (b.blockno in Holds().loaded <==> b.valid)
    {
    }

    // Hold two blocks at once, as the copying loops of the log do.
    method ReadPair(p: nat, q: nat) returns (a: Buf, b: Buf)
      requires Valid() && p != q && p in disk.blocks && q in disk.blocks && p !in locks && q !in locks
      requires p !in refs && |Referred(refs)| < |bufs| && (q in refs || |Referred(refs)| + 1 < |bufs|)
      modifies this`at, this`refs, this`locks
      modifies bufs`dev, bufs`blockno, bufs`valid, bufs`refcnt, bufs`locked, bufs`data
      ensures Valid() && Kept() && refs == Inc(Inc(old(refs), p), q) && locks == old(locks) + {p, q}
      ensures Held(a) && a.blockno == p && a.locked && a.valid && a.data == view[p]
      ensures Held(b) && b.blockno == q && b.locked && b.valid && b.data == view[q]
    {
      hide Valid, Stay, Holds, Held, Inc;
      IncFacts(refs, p);
      IncFacts(Inc(refs, p), q);
      ghost var s := Holds();
      SameRefs();
      a := Fetch(p);
      SameRefs();
      NowHeld(a);
      ghost var t := Holds();
      b := Fetch(q);
      NowHeld(b);
      StillHeld(t, p, a);
      StayTrans(s, t, Holds());
    }

    method ReleasePair(a: Buf, b: Buf)
      requires Valid() && Held(a) && Held(b) && a.blockno != b.blockno && a.locked && b.locked && b.valid
      requires MayDrop(a.blockno) && MayDrop(b.blockno)
      modifies this`order, this`refs, this`locks, bufs`prev, bufs`next, head`prev, head`next, bufs`refcnt, bufs`locked
      ensures Valid() && Kept() && refs == Dec(Dec(old(refs), a.blockno), b.blockno)
      ensures locks == old(locks) - {a.blockno, b.blockno}
    {
      hide Valid, Stay, Holds, Held, Dec;
      ghost var s, p, q := Holds(), a.blockno, b.blockno;
      DecFacts(refs, p);
      DecFacts(Dec(refs, p), q);
      SameRefs();
      NowHeld(a);
      NowHeld(b);
      BRelse(a);
      ghost var t := Holds();
      SameRefs();
      StillHeld(s, q, b);
      NowHeld(b);
      BRelse(b);
      SameRefs();
      StayTrans(s, t, Holds());
    }
  }
}
