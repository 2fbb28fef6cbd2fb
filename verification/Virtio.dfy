// The virtio disk driver of kernel/virtio_disk.c and the device on the other side of
// its queue (section 2.6 of VIRTIO 1.1).  Each method is what runs without giving up
// the disk lock; the device acts between them, and completes requests in any order.
module Virtio {
  import opened Common
  import opened DiskBlocks

  const NUM := 8
  const F_NEXT := 1
  const F_WRITE := 2
  const T_IN := 0
  const T_OUT := 1

  // What a descriptor points to.
  datatype Addr = Null | Header(op: nat) | Buffer(b: nat) | Status(slot: nat)
  datatype Desc = Desc(addr: Addr, len: nat, flags: nat, next: nat)
  datatype Op = Op(kind: nat, sector: nat)
  datatype Info = Info(b: Option<nat>, status: nat)

  // How far a request has come: made available, taken by the device, completed as
  // entry `at` of all used entries, and seen by the interrupt handler.
  datatype Stage = Queued | Taken | Done(at: nat) | Seen(at: nat)

  // A request in flight: the descriptors after its head, what it asks for, and its
  // number among all requests.
  datatype Chain = Chain(mid: nat, tail: nat, buf: nat, write: bool, block: nat, id: nat, stage: Stage)

  type Chains = map<nat, Chain>

  // struct virtq_avail and struct virtq_used: the ring, and how many entries were ever
  // put on it, in 16 bits.
  datatype Queue = Queue(idx: nat, ring: seq<nat>)

  // The requests in flight, with the descriptors they own, and all entries that were
  // ever put on the available and the used ring, with the numbers of the requests that
  // were completed; the device has taken nTaken of the former, and the driver has seen
  // nSeen of the latter.
  datatype Flight = Flight(chains: Chains, owner: map<nat, nat>, offers: seq<nat>, nTaken: nat, dones: seq<nat>,
                           ids: seq<nat>, nSeen: nat)

  // The device stores sectors of 512 bytes; the contents of one are a number here.  A
  // buffer has room for a block.
  const PER := BSIZE / 512
  type Sectors = map<nat, int>
  type Contents = c: seq<int> | |c| == PER witness seq(PER, _ => 0)

  predicate HasNext(flags: nat) { flags % 2 == 1 }
  predicate HasWrite(flags: nat) { flags / 2 % 2 == 1 }

  // b->blockno * (BSIZE / 512), in 32 bits
  function Sector(block: nat): nat { block * (BSIZE / 512) % 0x1_0000_0000 }

  // The n sectors from `at` on exist.
  predicate Spans(sectors: Sectors, at: nat, n: nat) { forall i :: at <= i < at + n ==> i in sectors }

  // Reading n sectors, and writing x, from sector `at` on.
  function Fetch(sectors: Sectors, at: nat, n: nat): (r: seq<int>)
    requires Spans(sectors, at, n)
    ensures |r| == n && forall i :: 0 <= i < n ==> r[i] == sectors[at + i]
  {
    seq(n, i requires 0 <= i < n => sectors[at + i])
  }

  function Burn(sectors: Sectors, at: nat, x: seq<int>): (r: Sectors)
    ensures forall i :: i in sectors ==> i in r
    ensures forall i :: at <= i < at + |x| ==> i in r && r[i] == x[i - at]
    ensures forall i :: i in sectors && !(at <= i < at + |x|) ==> r[i] == sectors[i]
    decreases |x|
  {
    if x == [] then sectors else Burn(sectors, at, x[..|x| - 1])[at + |x| - 1 := x[|x| - 1]]
  }

  // Block k of the disk is x: its bytes begin at byte BSIZE * k, which is 512 times its
  // first sector.
  predicate IsBlock(sectors: Sectors, k: nat, x: Contents) {
    forall i :: 0 <= i < PER ==> Stores(sectors, BSIZE * k / 512 + i, x[i])
  }

  predicate Stores(sectors: Sectors, at: nat, v: int) { at in sectors && sectors[at] == v }

  // The driver asks for the right place exactly when the sector number does not wrap.
  lemma SectorExactly(block: nat)
    requires block < 0x1_0000_0000
    ensures 512 * Sector(block) == BSIZE * block <==> block < 0x8000_0000
  {
  }

  // The descriptors in use are the disjoint union of the chains.
  ghost predicate Partition(free: seq<bool>, owner: map<nat, nat>, chains: Chains) {
    && |free| == NUM
    && (forall i :: i in owner <==> 0 <= i < NUM && !free[i])
    && (forall h :: h in chains ==> Three(h, chains[h].mid, chains[h].tail) && Owner(owner, h, chains[h]))
    && (forall i :: i in owner ==>
          owner[i] in chains && (i == owner[i] || i == chains[owner[i]].mid || i == chains[owner[i]].tail))
  }

  predicate Three(h: nat, m: nat, t: nat) { h != m && h != t && m != t }

  predicate Owner(owner: map<nat, nat>, h: nat, c: Chain) {
    h in owner && owner[h] == h && c.mid in owner && owner[c.mid] == h && c.tail in owner && owner[c.tail] == h
  }

  // The descriptors of a chain say what it asks for.
  predicate Formatted(desc: seq<Desc>, ops: seq<Op>, h: nat, c: Chain) {
    && |desc| == |ops| == NUM && h < NUM && c.mid < NUM && c.tail < NUM
    && desc[h] == Desc(Header(h), 16, F_NEXT, c.mid)
    && desc[c.mid] == Desc(Buffer(c.buf), BSIZE, F_NEXT + (if c.write then 0 else F_WRITE), c.tail)
    && desc[c.tail] == Desc(Status(h), 1, F_WRITE, 0)
    && ops[h] == Op(if c.write then T_OUT else T_IN, Sector(c.block))
  }

  // What the device finds when it follows the descriptors.
  lemma ReadsAs(desc: seq<Desc>, ops: seq<Op>, h: nat, c: Chain)
    requires Formatted(desc, ops, h, c)
    ensures h < |desc| && c.mid < |desc| && c.tail < |desc| && desc[h].next == c.mid && desc[c.mid].next == c.tail
    ensures desc[h].addr == Header(h) && h < |ops| && ops[h].sector == Sector(c.block)
    ensures ops[h].kind == if c.write then T_OUT else T_IN
    ensures desc[c.mid].addr == Buffer(c.buf) && desc[c.mid].len / 512 == PER && HasWrite(desc[c.mid].flags) == !c.write
    ensures desc[c.tail].addr == Status(h) && HasWrite(desc[c.tail].flags)
  {
    hide Sector;
  }

  // The driver's records of a chain: the buffer is the device's until it is seen.
  predicate Recorded(info: seq<Info>, busy: map<nat, bool>, h: nat, c: Chain) {
    && |info| == NUM && h < NUM && c.buf in busy
    && info[h] == Info(Some(c.buf), if c.stage.Done? || c.stage.Seen? then 0 else 0xff)
    && busy[c.buf] == !c.stage.Seen?
  }

  predicate AllFormatted(desc: seq<Desc>, ops: seq<Op>, chains: Chains) {
    forall h :: h in chains ==> Formatted(desc, ops, h, chains[h])
  }

  predicate AllRecorded(info: seq<Info>, busy: map<nat, bool>, chains: Chains) {
    forall h :: h in chains ==> Recorded(info, busy, h, chains[h])
  }

  // The buffers and the sectors exist.
  predicate AllThere(data: map<nat, Contents>, sectors: Sectors, chains: Chains) {
    forall h :: h in chains ==> chains[h].buf in data && Spans(sectors, Sector(chains[h].block), PER)
  }

  // Where entry k goes.
  function Slot(k: nat): (r: nat)
    ensures r < NUM
  {
    k % NUM
  }

  // The ring holds the entries from lo on of the log, whose index is counted in 16 bits.
  ghost predicate Ring(q: Queue, log: seq<nat>, lo: nat) {
    && |q.ring| == NUM && lo <= |log| <= lo + NUM && q.idx == |log| % 0x1_0000
    && forall k :: lo <= k < |log| ==> q.ring[Slot(k)] == log[k]
  }

  // The driver or the device adds an entry.
  function Push(q: Queue, e: nat): Queue
    requires |q.ring| == NUM
  {
    Queue((q.idx + 1) % 0x1_0000, q.ring[Slot(q.idx) := e])
  }

  // The entries from lo on of `avail` are the queued chains, in order.
  ghost predicate Offered(avail: seq<nat>, lo: nat, chains: Chains) {
    && (forall k :: lo <= k < |avail| ==>
          && avail[k] in chains && chains[avail[k]].stage.Queued?
          && chains[avail[k]].id == k)
    && (forall h :: h in chains ==>
          && chains[h].id < |avail| && avail[chains[h].id] == h
          && (chains[h].stage.Queued? ==> lo <= chains[h].id))
  }

  lemma OfferedSome(avail: seq<nat>, lo: nat, chains: Chains)
    requires Offered(avail, lo, chains)
    ensures lo < |avail| ==> chains != map[]
  {
    if lo < |avail| {
      assert avail[lo] in chains;
    }
  }

  // The entries from lo on of `used` are the chains done and not seen; those before
  // lo of chains in flight are seen.  `ids` are the numbers of the requests.
  ghost predicate Returned(used: seq<nat>, ids: seq<nat>, lo: nat, chains: Chains) {
    && |ids| == |used|
    && (forall k :: lo <= k < |used| ==> used[k] in chains && chains[used[k]].stage == Done(k))
    && (forall h :: h in chains && chains[h].stage.Done? ==>
          lo <= chains[h].stage.at < |used| && used[chains[h].stage.at] == h && ids[chains[h].stage.at] == chains[h].id)
    && (forall h :: h in chains && chains[h].stage.Seen? ==>
          chains[h].stage.at < lo <= |used| && used[chains[h].stage.at] == h && ids[chains[h].stage.at] == chains[h].id)
  }

  // No two requests share a buffer.
  ghost predicate Exclusive(chains: Chains) {
    forall g, h :: g in chains && h in chains && chains[g].buf == chains[h].buf ==> g == h
  }

  // What the driver's tables say about the chains; free are the other descriptors.
  ghost predicate Tabled(desc: seq<Desc>, ops: seq<Op>, info: seq<Info>, busy: map<nat, bool>,
                         data: map<nat, Contents>, sectors: Sectors, free: seq<bool>, g: Flight) {
    && |desc| == |ops| == |info| == |free| == NUM && Partition(free, g.owner, g.chains) && Exclusive(g.chains)
    && AllFormatted(desc, ops, g.chains) && AllRecorded(info, busy, g.chains) && AllThere(data, sectors, g.chains)
  }

  // Both rings; the device has read `taken` entries and the driver `seen`, in 16 bits.
  ghost predicate Ringed(avail: Queue, taken: nat, used: Queue, seen: nat, g: Flight) {
    && Ring(avail, g.offers, g.nTaken) && taken == g.nTaken % 0x1_0000 && Offered(g.offers, g.nTaken, g.chains)
    && Ring(used, g.dones, g.nSeen) && seen == g.nSeen % 0x1_0000 && Returned(g.dones, g.ids, g.nSeen, g.chains)
  }

  // Nobody sleeps while what they wait for is there.
  ghost predicate Asleep(sleepers: set<nat>, free: seq<bool>, waiting: set<nat>, chains: Chains) {
    && (sleepers != {} ==> |FreeSet(free)| < 3)
    && (forall h :: h in waiting ==> h in chains && !chains[h].stage.Seen?)
  }

  function FreeSet(free: seq<bool>): set<nat> { set i | 0 <= i < |free| && free[i] }

  // Distinct entries of x number no more than x has.
  lemma EntriesFit(entries: seq<nat>, x: set<nat>)
    requires Distinct(entries) && forall e :: e in entries ==> e in x
    ensures |entries| <= |x|
  {
    DistinctSize(entries);
    SubsetSize((set e | e in entries), x);
  }

  // A ring with fewer than NUM entries takes another.
  lemma RingPush(q: Queue, log: seq<nat>, lo: nat, e: nat)
    requires Ring(q, log, lo) && |log| < lo + NUM
    ensures |q.ring| == NUM && Ring(Push(q, e), log + [e], lo)
  {
    WrapNext(|log|);
    forall k | lo <= k < |log| ensures Slot(k) != Slot(|log|) {
      SlotsDiffer(k, |log|, NUM);
    }
  }

  lemma RingSize(q: Queue, log: seq<nat>, lo: nat)
    requires Ring(q, log, lo)
    ensures |q.ring| == NUM && lo <= |log|
  {
  }

  // Comparing the 16-bit indices tells whether the ring is empty, and where its first
  // entry is.
  lemma RingPop(q: Queue, log: seq<nat>, lo: nat, at: nat)
    requires Ring(q, log, lo) && at == lo % 0x1_0000
    ensures at != q.idx <==> lo < |log|
    ensures at != q.idx ==>
              && q.ring[Slot(at)] == log[lo] && Ring(q, log, lo + 1)
              && (at + 1) % 0x1_0000 == (lo + 1) % 0x1_0000
  {
    Wrap(lo, |log|);
    WrapNext(lo);
  }

  lemma Wrap(lo: nat, n: nat)
    requires lo <= n <= lo + NUM
    ensures lo % 0x1_0000 != n % 0x1_0000 <==> lo < n
  {
  }

  lemma WrapNext(x: nat)
    ensures Slot(x % 0x1_0000) == Slot(x) && (x % 0x1_0000 + 1) % 0x1_0000 == (x + 1) % 0x1_0000
  {
    assert x == x / 0x1_0000 * 0x2000 * NUM + x % 0x1_0000;
  }

  // The offered entries are distinct heads, so that there is room for one that is not
  // in flight.
  lemma OfferRoom(avail: seq<nat>, lo: nat, chains: Chains, h: nat)
    requires Offered(avail, lo, chains) && lo <= |avail| && h < NUM && h !in chains
             && forall g :: g in chains ==> g < NUM
    ensures |avail| < lo + NUM
  {
    EntriesFit(avail[lo..], chains.Keys);
    BelowSize(chains.Keys + {h}, NUM);
    assert |chains.Keys + {h}| == |chains.Keys| + 1;
  }

  lemma ReturnRoom(used: seq<nat>, ids: seq<nat>, lo: nat, chains: Chains, h: nat)
    requires Returned(used, ids, lo, chains) && lo <= |used| && h in chains && !chains[h].stage.Done?
             && forall g :: g in chains ==> g < NUM
    ensures |used| < lo + NUM
  {
    EntriesFit(used[lo..], chains.Keys - {h});
    BelowSize(chains.Keys, NUM);
  }

  // free without the descriptors in idx, which are distinct and were free.
  ghost predicate Allocated(free0: seq<bool>, free: seq<bool>, idx: seq<nat>) {
    && |free0| == |free| == NUM
    && (forall j :: 0 <= j < |idx| ==> idx[j] < NUM && free0[idx[j]])
    && (forall j, k :: 0 <= j < k < |idx| ==> idx[j] != idx[k])
    && (forall k :: 0 <= k < NUM ==> (free[k] <==> free0[k] && k !in idx))
  }

  lemma {:induction false} AllocatedSize(free0: seq<bool>, free: seq<bool>, idx: seq<nat>)
    requires Allocated(free0, free, idx)
    ensures |FreeSet(free0)| == |FreeSet(free)| + |idx|
    decreases |idx|
  {
    if idx == [] {
      assert FreeSet(free0) == FreeSet(free);
    } else {
      var n := |idx| - 1;
      var free' := free[idx[n] := true];
      assert forall k :: 0 <= k < NUM ==> (k in idx <==> k in idx[..n] || k == idx[n]);
      AllocatedSize(free0, free', idx[..n]);
      assert FreeSet(free') == FreeSet(free) + {idx[n]};
    }
  }

  class Disk {
    // Shared with the device.
    var desc: seq<Desc>
    var ops: seq<Op>
    var avail: Queue
    var used: Queue
    var info: seq<Info>
    var data: map<nat, Contents>     // of the buffers
    // The driver's.
    var free: seq<bool>
    var seen: nat                    // disk.used_idx
    var busy: map<nat, bool>         // b->disk
    // The device's.
    var taken: nat
    var sectors: Sectors

    ghost var g: Flight
    // The processes asleep on &disk.free[0], and the requests whose process is asleep.
    ghost var sleepers: set<nat>
    ghost var waiting: set<nat>

    // free0 are the descriptors that no chain owns.
    ghost predicate Tables(free0: seq<bool>)
      reads this
    {
      Tabled(desc, ops, info, busy, data, sectors, free0, g)
    }

    ghost predicate Rings()
      reads this
    {
      Ringed(avail, taken, used, seen, g)
    }

    ghost predicate Sleeping()
      reads this
    {
      Asleep(sleepers, free, waiting, g.chains)
    }

    ghost predicate Valid()
      reads this
    {
      Tables(free) && Rings() && Sleeping()
    }

    // The end of virtio_disk_init: nothing is in flight.
    constructor (data: map<nat, Contents>, sectors: Sectors)
      ensures Valid() && g.chains == map[]
    {
      desc, ops, info := seq(NUM, _ => Desc(Null, 0, 0, 0)), seq(NUM, _ => Op(0, 0)), seq(NUM, _ => Info(None, 0));
      avail, used, free := Queue(0, seq(NUM, _ => 0)), Queue(0, seq(NUM, _ => 0)), seq(NUM, _ => true);
      seen, taken, busy := 0, 0, map[];
      this.data, this.sectors := data, sectors;
      g, sleepers, waiting := Flight(map[], map[], [], 0, [], [], 0), {}, {};
    }

    // With nothing in flight, all descriptors are free and nothing is on the rings.
    lemma Idle()
      requires Valid() && g.chains == map[]
      ensures |FreeSet(free)| >= 3 && g.nTaken == |g.offers|
    {
      OfferedSome(g.offers, g.nTaken, g.chains);
      assert 0 !in g.owner && 1 !in g.owner && 2 !in g.owner;
      SubsetSize({0, 1, 2}, FreeSet(free));
    }

    // When a request was seen, its buffer is the process's again.
    lemma SeenClear(h: nat)
      requires Valid() && h in g.chains && g.chains[h].stage.Seen?
      ensures g.chains[h].buf in busy && !busy[g.chains[h].buf]
    {
      hide Ringed, FreeSet;
      TabledRecord(desc, ops, info, busy, data, sectors, free, g, h);
    }

    // alloc_desc
    method AllocDesc() returns (i: int)
      requires |free| == NUM
      modifies this`free
      ensures i == -1 ==> free == old(free) && forall k :: 0 <= k < NUM ==> !free[k]
      ensures i != -1 ==> 0 <= i < NUM && old(free)[i] && free == old(free)[i := false]
    {
      i := 0;
      while i < NUM
        invariant 0 <= i <= NUM && free == old(free) && forall k :: 0 <= k < i ==> !free[k]
      {
        if free[i] {
          free := free[i := false];
          return;
        }
        i := i + 1;
      }
      i := -1;
    }

    // free_desc.  It panics unless i is a descriptor in use.
    method FreeDesc(i: nat)
      requires |desc| == |free| == NUM && i < NUM && !free[i]
      modifies this`desc, this`free, this`sleepers
      ensures desc == old(desc)[i := Desc(Null, 0, 0, 0)] && free == old(free)[i := true] && sleepers == {}
    {
      desc := desc[i := Desc(Null, 0, 0, 0)];
      free := free[i := true];
      sleepers := {};
    }

    // free_chain, of the chain h, m, t.
    method FreeChain(h: nat, ghost m: nat, ghost t: nat)
      requires |desc| == |free| == NUM && h < NUM && m < NUM && t < NUM && Three(h, m, t) && !free[h] && !free[m]
               && !free[t]
      requires HasNext(desc[h].flags) && desc[h].next == m && HasNext(desc[m].flags) && desc[m].next == t
               && !HasNext(desc[t].flags)
      modifies this`desc, this`free, this`sleepers
      ensures |desc| == NUM && sleepers == {} && free == old(free)[h := true][m := true][t := true]
      ensures forall k :: 0 <= k < NUM && k != h && k != m && k != t ==> desc[k] == old(desc)[k]
    {
      var i := h;
      ghost var j := 0;
      while true
        invariant 0 <= j < 3 && i == [h, m, t][j] && |desc| == |free| == NUM
        invariant free == if j == 0 then old(free) else if j == 1 then old(free)[h := true]
            else old(free)[h := true][m := true]
        invariant forall k :: 0 <= k < NUM && k !in [h, m, t][..j] ==> desc[k] == old(desc)[k]
        decreases 3 - j
      {
        var flag, next := desc[i].flags, desc[i].next;
        FreeDesc(i);
        if !HasNext(flag) {
          break;
        }
        i := next;
        j := j + 1;
      }
    }

    // alloc3_desc: three descriptors, or none.
    method Alloc3Desc() returns (ok: bool, idx: seq<nat>)
      requires |desc| == |free| == NUM
      modifies this`desc, this`free, this`sleepers
      ensures ok <==> |FreeSet(old(free))| >= 3
      ensures ok ==> |idx| == 3 && Allocated(old(free), free, idx) && desc == old(desc) && sleepers == old(sleepers)
      ensures |free| == NUM && |FreeSet(free)| <= |FreeSet(old(free))|
      ensures !ok ==> free == old(free) && (sleepers == {} || sleepers == old(sleepers))
      ensures |desc| == NUM && forall k :: 0 <= k < NUM && !free[k] ==> desc[k] == old(desc)[k]
    {
      hide FreeSet;
      idx := [];
      while |idx| < 3
        invariant |idx| <= 3 && Allocated(old(free), free, idx) && desc == old(desc) && sleepers == old(sleepers)
      {
        var i := AllocDesc();
        if i < 0 {
          AllocatedSize(old(free), free, idx);
          NoneFree(free);
          FreeAgain(idx, old(free));
          return false, [];
        }
        ghost var idx0 := idx;
        idx := idx + [i];
        assert forall k :: 0 <= k < NUM ==> (k in idx <==> k in idx0 || k == i);
      }
      AllocatedSize(old(free), free, idx);
      ok := true;
    }

    // The inner loop of alloc3_desc.
    method FreeAgain(idx: seq<nat>, ghost free0: seq<bool>)
      requires |desc| == |free| == NUM && Allocated(free0, free, idx)
      modifies this`desc, this`free, this`sleepers
      ensures free == free0 && (sleepers == {} || sleepers == old(sleepers))
      ensures |desc| == NUM && forall k :: 0 <= k < NUM && !free[k] ==> desc[k] == old(desc)[k]
    {
      var j := 0;
      while j < |idx|
        invariant j <= |idx| && |desc| == NUM && Allocated(free0, free, idx[j..])
                  && (sleepers == {} || sleepers == old(sleepers))
        invariant forall k :: 0 <= k < NUM && !free0[k] ==> desc[k] == old(desc)[k]
      {
        assert idx[j..] == [idx[j]] + idx[j + 1..];
        FreeDesc(idx[j]);
        j := j + 1;
      }
    }

    // virtio_disk_rw, up to where it sleeps, by process pid.  Either there are not three
    // free descriptors and it sleeps until some are freed (-1), or the request is made
    // available and it sleeps until the request is seen.
    method Submit(pid: nat, b: nat, block: nat, write: bool) returns (head: int, ghost idx: seq<nat>)
      requires Valid() && b in data && Spans(sectors, Sector(block), PER)
      requires forall h :: h in g.chains ==> g.chains[h].buf != b
      modifies this`desc, this`ops, this`info, this`busy, this`avail, this`free, this`g, this`waiting, this`sleepers
      ensures Valid()
      ensures head == -1 <==> |FreeSet(old(free))| < 3
      ensures head == -1 ==> pid in sleepers && g == old(g) && free == old(free)
      ensures head != -1 ==>
                && 0 <= head < NUM && head !in old(g.chains) && head in waiting && |idx| == 3 && idx[0] == head
                && g == Requested(old(g), idx, Request(idx[1], idx[2], b, write, block, |old(g.offers)|))
                && g.chains == old(g.chains)[head as nat := g.chains[head]] && g.offers == old(g.offers) + [head]
                && var c := g.chains[head]; c.buf == b && c.write == write && c.block == block && c.stage == Queued
    {
      hide Ringed, FreeSet, Sector, Exclusive, Allocated, Partition, AllFormatted, AllRecorded, AllThere;
      var ok, three := Alloc3Desc();
      idx := three;
      if !ok {
        DescKept(g.owner, g.chains, free, old(desc), desc, ops);
        sleepers := sleepers + {pid};
        return -1, [];
      }
      Place(three, b, block, write, old(free));
      head := three[0];
    }

    // virtio_disk_rw with the descriptors idx.
    method Place(idx: seq<nat>, b: nat, block: nat, write: bool, ghost free0: seq<bool>)
      requires Tables(free0) && Rings() && Sleeping() && |idx| == 3 && Allocated(free0, free, idx)
      requires b in data && Spans(sectors, Sector(block), PER) && forall h :: h in g.chains ==> g.chains[h].buf != b
      modifies this`desc, this`ops, this`info, this`busy, this`avail, this`g, this`waiting
      ensures Valid() && idx[0] < NUM && idx[0] !in old(g.chains) && idx[0] in waiting
      ensures g == Requested(old(g), idx, Request(idx[1], idx[2], b, write, block, |old(g.offers)|))
    {
      hide Ringed, FreeSet, Sector, Allocated, Tabled;
      AllocatedIn(desc, ops, info, busy, data, sectors, free0, g, free, idx);
      ghost var c := Request(idx[1], idx[2], b, write, block, |g.offers|);
      Format(idx, b, block, write, free0, c);
      RingedOffer(avail, taken, used, seen, g, idx, c);
      avail := Push(avail, idx[0]);
      g, waiting := Requested(g, idx, c), waiting + {idx[0]};
    }

    // virtio_disk_rw fills in the three descriptors for the chain c.
    method Format(idx: seq<nat>, b: nat, block: nat, write: bool, ghost free0: seq<bool>, ghost c: Chain)
      requires Tables(free0) && |idx| == 3 && Allocated(free0, free, idx)
      requires b in data && Spans(sectors, Sector(block), PER) && forall h :: h in g.chains ==> g.chains[h].buf != b
      requires c == Request(idx[1], idx[2], b, write, block, c.id)
      modifies this`desc, this`ops, this`info, this`busy
      ensures Tabled(desc, ops, info, busy, data, sectors, free, Requested(g, idx, c))
    {
      hide Sector, Partition, AllFormatted, AllRecorded, AllThere, Exclusive, Allocated;
      AllocatedOld(free0, free, idx, g.owner, g.chains);
      var i0, i1, i2 := idx[0], idx[1], idx[2];
      ops := ops[i0 := Op(if write then T_OUT else T_IN, Sector(block))];
      desc := desc[i0 := Desc(Header(i0), 16, F_NEXT, i1)];
      desc := desc[i1 := Desc(Buffer(b), BSIZE, F_NEXT + (if write then 0 else F_WRITE), i2)];
      info := info[i0 := Info(info[i0].b, 0xff)];
      desc := desc[i2 := Desc(Status(i0), 1, F_WRITE, 0)];
      busy := busy[b := true];
      info := info[i0 := Info(Some(b), info[i0].status)];
      assert info == old(info)[i0 := Info(Some(b), 0xff)];
      FormattedAdd(g.owner, g.chains, free0, free, old(desc), old(ops), idx, c);
      RecordedAdd(g.chains, old(info), old(busy), i0, c);
      PartitionAdd(free0, free, idx, g.owner, g.chains, c);
      ExclusiveAdd(g.chains, i0, c);
      ThereAdd(data, sectors, g.chains, i0, c);
    }

    // The device takes the next request from the available ring, if there is one.
    method DeviceTake() returns (some: bool, h: nat)
      requires Valid()
      modifies this`taken, this`g
      ensures Valid() && (some <==> old(g.nTaken) < |old(g.offers)|)
      ensures !some ==> g == old(g)
      ensures some ==>
                && h == old(g.offers)[old(g.nTaken)] && h in old(g.chains) && old(g.chains)[h].stage.Queued?
                && g == old(g).(chains := Staged(old(g.chains), h, Taken), nTaken := old(g.nTaken) + 1)
    {
      hide Ringed, Tabled, FreeSet, Recorded;
      RingedTake(avail, taken, used, seen, g);
      if taken == avail.idx {
        return false, 0;
      }
      h := avail.ring[Slot(taken)];
      TabledRecord(desc, ops, info, busy, data, sectors, free, g, h);
      RecordedTake(info, busy, h, g.chains[h]);
      ghost var g' := g.(chains := Staged(g.chains, h, Taken), nTaken := g.nTaken + 1);
      TabledStage(desc, ops, info, busy, data, sectors, free, g, h, Taken, info, busy, data, sectors, g');
      taken := (taken + 1) % 0x1_0000;
      g, some := g', true;
    }

    // The device completes a request that it took, as its descriptors say.
    method DeviceComplete(h: nat)
      requires Valid() && h in g.chains && g.chains[h].stage == Taken
      modifies this`data, this`sectors, this`info, this`used, this`g
      ensures Valid() && g == Completed(old(g), h)
      ensures g.dones == old(g.dones) + [h] && g.ids == old(g.ids) + [old(g.chains)[h].id]
      ensures Transferred(old(data), old(sectors), old(g.chains)[h], data, sectors)
      ensures old(g.chains)[h].block < 0x8000_0000 ==>
                Carried(old(data), old(sectors), old(g.chains)[h], data, sectors)
    {
      hide Ringed, Tabled, FreeSet, Sector, Transferred, Carried;
      TabledBelow(desc, ops, info, busy, data, sectors, free, g);
      RingedDone(avail, taken, used, seen, g, h);
      Transfer(h);
      if g.chains[h].block < 0x8000_0000 {
        TransferCarries(old(data), old(sectors), g.chains[h], data, sectors);
      }
      used := Push(used, h);
      g := Completed(g, h);
    }

    // The device reads or writes the buffer, as far as its length and flag allow, and
    // then the status byte.
    method Transfer(h: nat)
      requires Tables(free) && h in g.chains && g.chains[h].stage == Taken
      modifies this`data, this`sectors, this`info
      ensures Transferred(old(data), old(sectors), g.chains[h], data, sectors)
      ensures Tabled(desc, ops, info, busy, data, sectors, free, Completed(g, h))
    {
      hide Sector, Partition, Exclusive, Formatted, Recorded, AllThere, Burn, Spans;
      ghost var c := g.chains[h];
      assert Formatted(desc, ops, h, c) && Recorded(info, busy, h, c);
      assert c.buf in data && Spans(sectors, Sector(c.block), PER) by { ThereAt(data, sectors, g.chains, h); }
      ReadsAs(desc, ops, h, c);
      var m := desc[h].next;
      var t := desc[m].next;
      var op, b := ops[desc[h].addr.op], desc[m].addr.b;
      Move(op, b, desc[m].len / 512, HasWrite(desc[m].flags));
      var slot := desc[t].addr.slot;
      DoneRecord(info, busy, h, c, |g.dones|);
      if HasWrite(desc[t].flags) {
        info := info[slot := Info(info[slot].b, 0)];
      }
      TabledStage(desc, ops, old(info), busy, old(data), old(sectors), free, g, h, Done(|g.dones|), info, busy, data,
                  sectors, Completed(g, h));
    }

    // The device reads n sectors from buffer b or writes them to it, which it may do if
    // the descriptor says so.
    method Move(op: Op, b: nat, n: nat, mayWrite: bool)
      requires b in data && Spans(sectors, op.sector, PER) && n == PER
      modifies this`data, this`sectors
      ensures data.Keys == old(data).Keys && old(sectors).Keys <= sectors.Keys
      ensures op.kind == T_OUT && !mayWrite ==> data == old(data) && sectors == Burn(old(sectors), op.sector, data[b])
      ensures op.kind == T_IN && mayWrite ==>
                data == old(data)[b := Fetch(sectors, op.sector, PER)] && sectors == old(sectors)
    {
      if op.kind == T_OUT && !mayWrite {
        assert data[b][..n] == data[b];
        sectors := Burn(sectors, op.sector, data[b][..n]);
      } else if op.kind == T_IN && mayWrite {
        data := data[b := Fetch(sectors, op.sector, n)];
      }
    }

    // One round of the loop of virtio_disk_intr.  It panics if the status is not 0.
    method IntrStep() returns (more: bool)
      requires Valid()
      modifies this`busy, this`seen, this`g, this`waiting
      ensures Valid() && (more <==> old(g.nSeen) < |old(g.dones)|)
      ensures !more ==> g == old(g) && forall h :: h in g.chains ==> !g.chains[h].stage.Done?
      ensures more ==>
                && var h := old(g.dones)[old(g.nSeen)];
                && h in old(g.chains) && old(g.chains)[h].stage == Done(old(g.nSeen)) && waiting == old(waiting) - {h}
                && g == old(g).(chains := Staged(old(g.chains), h, Seen(old(g.nSeen))), nSeen := old(g.nSeen) + 1)
    {
      hide Ringed, Tabled, FreeSet;
      RingedSeen(avail, taken, used, seen, g);
      if seen == used.idx {
        return false;
      }
      var id := used.ring[Slot(seen)];
      TabledRecord(desc, ops, info, busy, data, sectors, free, g, id);
      assert info[id].status == 0;
      var b := info[id].b.value;
      busy := busy[b := false];
      ghost var g' := g.(chains := Staged(g.chains, id, Seen(g.nSeen)), nSeen := g.nSeen + 1);
      TabledStage(desc, ops, info, old(busy), data, sectors, free, g, id, Seen(g.nSeen), info, busy, data, sectors, g');
      seen := (seen + 1) % 0x1_0000;
      g, waiting, more := g', waiting - {id}, true;
    }

    // virtio_disk_intr: afterwards every request that was completed is seen.
    method Intr()
      requires Valid()
      modifies this`busy, this`seen, this`g, this`waiting
      ensures Valid() && g.chains.Keys == old(g.chains).Keys && forall h :: h in g.chains ==> !g.chains[h].stage.Done?
      ensures g == old(g).(chains := g.chains, nSeen := g.nSeen)
      ensures forall h :: h in g.chains ==> SeenOrSame(old(g.chains)[h], g.chains[h])
    {
      hide Tabled, Asleep, Ringed;
      var more := true;
      while more
        invariant Valid() && g.chains.Keys == old(g.chains).Keys && g == old(g).(chains := g.chains, nSeen := g.nSeen)
        invariant !more ==> forall h :: h in g.chains ==> !g.chains[h].stage.Done?
        invariant forall h :: h in g.chains ==> SeenOrSame(old(g.chains)[h], g.chains[h])
        decreases |g.dones| - g.nSeen, more
      {
        more := IntrStep();
      }
    }

    // The end of virtio_disk_rw for the chain h, when it finds b->disk clear: its own
    // request has been seen as used.
    method Finish(h: nat)
      requires Valid() && h in g.chains && g.chains[h].buf in busy && !busy[g.chains[h].buf]
      modifies this`info, this`desc, this`free, this`sleepers, this`g
      ensures Valid() && g == Finished(old(g), h) && g.chains == old(g.chains) - {h}
      ensures var c := old(g.chains)[h];
              c.stage.Seen? && c.stage.at < g.nSeen <= |g.dones| == |g.ids| && g.dones[c.stage.at] == h
                  && g.ids[c.stage.at] == c.id
    {
      hide Ringed, FreeSet, Partition, AllThere, AllFormatted, AllRecorded, Exclusive;
      TabledRecord(desc, ops, info, busy, data, sectors, free, g, h);
      RingedFinish(avail, taken, used, seen, g, h);
      ChainThere(desc, ops, info, busy, data, sectors, free, g, h);
      info := info[h := Info(None, info[h].status)];
      FreeChain(h, g.chains[h].mid, g.chains[h].tail);
      TabledFinish(old(desc), ops, old(info), busy, data, sectors, old(free), g, h, desc, info, free);
      g := Finished(g, h);
    }
  }

  // What the interrupt handler does to a chain.
  predicate SeenOrSame(c: Chain, d: Chain) {
    d == c || (c.stage.Done? && d == c.(stage := Seen(c.stage.at)))
  }

  lemma BlockSpans(sectors: Sectors, k: nat, x: Contents)
    requires IsBlock(sectors, k, x) && k < 0x8000_0000
    ensures Spans(sectors, Sector(k), PER)
  {
    SectorExactly(k);
    forall i | Sector(k) <= i < Sector(k) + PER ensures i in sectors {
      assert Stores(sectors, BSIZE * k / 512 + (i - Sector(k)), x[i - Sector(k)]);
    }
  }

  lemma SameBlock(sectors: Sectors, k: nat, x: Contents, y: Contents)
    requires IsBlock(sectors, k, x) && IsBlock(sectors, k, y)
    ensures x == y
  {
    forall i | 0 <= i < PER ensures x[i] == y[i] {
      assert Stores(sectors, BSIZE * k / 512 + i, x[i]) && Stores(sectors, BSIZE * k / 512 + i, y[i]);
    }
  }

  // A request from beginning to end on an idle disk.
  method OneRequest(d: Disk, pid: nat, b: nat, block: nat, write: bool)
    requires d.Valid() && d.g.chains == map[] && b in d.data
    requires Spans(d.sectors, Sector(block), PER) && block < 0x8000_0000
    modifies d
    ensures d.Valid() && d.g.chains == map[]
    ensures b in d.data && d.data == old(d.data)[b := d.data[b]] && IsBlock(d.sectors, block, d.data[b])
    ensures if write then d.data == old(d.data) else d.sectors == old(d.sectors)
    ensures forall k: nat, x: Contents :: k != block && IsBlock(old(d.sectors), k, x) ==> IsBlock(d.sectors, k, x)
  {
    hide Tabled, Ringed, FreeSet, Asleep, Sector, Spans, Transferred, IsBlock, Disk.Valid;
    d.Idle();
    var h, _ := d.Submit(pid, b, block, write);
    var _, t := d.DeviceTake();
    d.DeviceComplete(t);
    d.Intr();
    d.SeenClear(h);
    d.Finish(h);
  }

  // What is written to a block is what a later read of it returns.
  method WriteThenRead(d: Disk, pid: nat, b: nat, c: nat, block: nat)
    requires d.Valid() && d.g.chains == map[] && b in d.data && c in d.data
    requires Spans(d.sectors, Sector(block), PER) && block < 0x8000_0000
    modifies d
    ensures d.Valid() && c in d.data && d.data[c] == old(d.data)[b]
  {
    hide Sector, Spans, IsBlock, Disk.Valid;
    OneRequest(d, pid, b, block, true);
    ghost var x := d.data[b];
    BlockSpans(d.sectors, block, x);
    OneRequest(d, pid, c, block, false);
    SameBlock(d.sectors, block, x, d.data[c]);
  }

  function Request(mid: nat, tail: nat, buf: nat, write: bool, block: nat, id: nat): Chain {
    Chain(mid, tail, buf, write, block, id, Queued)
  }

  function Requested(g: Flight, idx: seq<nat>, c: Chain): Flight
    requires |idx| == 3
  {
    g.(chains := g.chains[idx[0] := c], owner := g.owner[idx[0] := idx[0]][idx[1] := idx[0]][idx[2] := idx[0]],
       offers := g.offers + [idx[0]])
  }

  function Completed(g: Flight, h: nat): Flight
    requires h in g.chains
  {
    g.(chains := Staged(g.chains, h, Done(|g.dones|)), dones := g.dones + [h], ids := g.ids + [g.chains[h].id])
  }

  function Finished(g: Flight, h: nat): Flight
    requires h in g.chains
  {
    g.(chains := g.chains - {h}, owner := g.owner - {h, g.chains[h].mid, g.chains[h].tail})
  }

  function Staged(chains: Chains, h: nat, s: Stage): Chains
    requires h in chains
  {
    chains[h := chains[h].(stage := s)]
  }

  // The transfer that the chain asks for.
  ghost predicate Transferred(data: map<nat, Contents>, sectors: Sectors, c: Chain,
                              data': map<nat, Contents>, sectors': Sectors) {
    c.buf in data && Spans(sectors, Sector(c.block), PER) &&
    if c.write then data' == data && sectors' == Burn(sectors, Sector(c.block), data[c.buf])
    else data' == data[c.buf := Fetch(sectors, Sector(c.block), PER)] && sectors' == sectors
  }

  // The same in blocks: a write makes the block of the disk what the buffer holds and
  // leaves every other block, and a read makes the buffer what the block holds.
  ghost predicate Carried(data: map<nat, Contents>, sectors: Sectors, c: Chain, data': map<nat, Contents>,
                          sectors': Sectors) {
    && c.buf in data && c.buf in data' && data' == data[c.buf := data'[c.buf]]
    && IsBlock(sectors', c.block, data'[c.buf])
    && (if c.write then data' == data else sectors' == sectors)
    && forall k: nat, x: Contents :: k != c.block && IsBlock(sectors, k, x) ==> IsBlock(sectors', k, x)
  }

  lemma TransferCarries(data: map<nat, Contents>, sectors: Sectors, c: Chain, data': map<nat, Contents>,
                        sectors': Sectors)
    requires Transferred(data, sectors, c, data', sectors') && c.block < 0x8000_0000
    ensures Carried(data, sectors, c, data', sectors')
  {
    SectorExactly(c.block);
    assert Sector(c.block) == BSIZE * c.block / 512;
    forall k: nat, x: Contents | k != c.block && IsBlock(sectors, k, x) ensures IsBlock(sectors', k, x) {
      forall i | 0 <= i < PER ensures Stores(sectors', BSIZE * k / 512 + i, x[i]) {
        assert Stores(sectors, BSIZE * k / 512 + i, x[i]);
      }
    }
  }

  // ----- the rings

  lemma RingedOffer(avail: Queue, taken: nat, used: Queue, seen: nat, g: Flight, idx: seq<nat>, c: Chain)
    requires Ringed(avail, taken, used, seen, g) && |idx| == 3 && idx[0] < NUM && idx[0] !in g.chains
    requires c.id == |g.offers| && c.stage == Queued && forall h :: h in g.chains ==> h < NUM
    ensures |avail.ring| == NUM && Ringed(Push(avail, idx[0]), taken, used, seen, Requested(g, idx, c))
  {
    hide Ring, Offered, Returned, Push;
    RingSize(avail, g.offers, g.nTaken);
    OfferRoom(g.offers, g.nTaken, g.chains, idx[0]);
    OfferedAdd(g.offers, g.nTaken, g.chains, idx[0], c);
    ReturnedAdd(g.dones, g.ids, g.nSeen, g.chains, idx[0], c);
    RingPush(avail, g.offers, g.nTaken, idx[0]);
  }

  lemma RingedTake(avail: Queue, taken: nat, used: Queue, seen: nat, g: Flight)
    requires Ringed(avail, taken, used, seen, g)
    ensures taken != avail.idx <==> g.nTaken < |g.offers|
    ensures taken != avail.idx ==>
              && |avail.ring| == NUM && var h := avail.ring[Slot(taken)];
              && h == g.offers[g.nTaken] && h in g.chains && g.chains[h].stage.Queued?
              && Ringed(avail, (taken + 1) % 0x1_0000, used, seen,
                        g.(chains := Staged(g.chains, h, Taken), nTaken := g.nTaken + 1))
  {
    hide Ring, Offered, Returned;
    RingSize(avail, g.offers, g.nTaken);
    RingPop(avail, g.offers, g.nTaken, taken);
    if taken != avail.idx {
      OfferedTake(g.offers, g.nTaken, g.chains);
      ReturnedTake(g.dones, g.ids, g.nSeen, g.chains, g.offers[g.nTaken]);
    }
  }

  lemma RingedDone(avail: Queue, taken: nat, used: Queue, seen: nat, g: Flight, h: nat)
    requires Ringed(avail, taken, used, seen, g)
    requires h in g.chains && g.chains[h].stage.Taken? && forall k :: k in g.chains ==> k < NUM
    ensures |used.ring| == NUM && Ringed(avail, taken, Push(used, h), seen, Completed(g, h))
  {
    hide Ring, Offered, Returned, Push;
    RingSize(used, g.dones, g.nSeen);
    ReturnRoom(g.dones, g.ids, g.nSeen, g.chains, h);
    RingPush(used, g.dones, g.nSeen, h);
    ReturnedDone(g.dones, g.ids, g.nSeen, g.chains, h);
    OfferedStage(g.offers, g.nTaken, g.chains, h, Done(|g.dones|));
  }

  lemma RingedSeen(avail: Queue, taken: nat, used: Queue, seen: nat, g: Flight)
    requires Ringed(avail, taken, used, seen, g)
    ensures seen != used.idx <==> g.nSeen < |g.dones|
    ensures seen == used.idx ==> forall h :: h in g.chains ==> !g.chains[h].stage.Done?
    ensures seen != used.idx ==>
              && |used.ring| == NUM && var h := used.ring[Slot(seen)];
              && h == g.dones[g.nSeen] && h in g.chains && g.chains[h].stage == Done(g.nSeen)
              && Ringed(avail, taken, used, (seen + 1) % 0x1_0000,
                        g.(chains := Staged(g.chains, h, Seen(g.nSeen)), nSeen := g.nSeen + 1))
  {
    hide Ring, Offered;
    RingSize(used, g.dones, g.nSeen);
    RingPop(used, g.dones, g.nSeen, seen);
    if seen != used.idx {
      ReturnedNext(g.dones, g.ids, g.nSeen, g.chains);
      OfferedStage(g.offers, g.nTaken, g.chains, g.dones[g.nSeen], Seen(g.nSeen));
    }
  }

  lemma RingedFinish(avail: Queue, taken: nat, used: Queue, seen: nat, g: Flight, h: nat)
    requires Ringed(avail, taken, used, seen, g) && h in g.chains && g.chains[h].stage.Seen?
    ensures var at := g.chains[h].stage.at;
            at < g.nSeen <= |g.dones| == |g.ids| && g.dones[at] == h && g.ids[at] == g.chains[h].id
    ensures Ringed(avail, taken, used, seen, Finished(g, h))
  {
    hide Ring;
    RingSize(used, g.dones, g.nSeen);
  }

  // ----- the tables

  lemma TabledRecord(desc: seq<Desc>, ops: seq<Op>, info: seq<Info>, busy: map<nat, bool>, data: map<nat, Contents>,
                     sectors: Sectors, free: seq<bool>, g: Flight, h: nat)
    requires Tabled(desc, ops, info, busy, data, sectors, free, g) && h in g.chains
    ensures Recorded(info, busy, h, g.chains[h]) && |info| == NUM
  {
    hide Recorded, Partition, AllFormatted;
  }

  lemma ChainThere(desc: seq<Desc>, ops: seq<Op>, info: seq<Info>, busy: map<nat, bool>, data: map<nat, Contents>,
                   sectors: Sectors, free: seq<bool>, g: Flight, h: nat)
    requires Tabled(desc, ops, info, busy, data, sectors, free, g) && h in g.chains
    ensures var m, t := g.chains[h].mid, g.chains[h].tail;
            && |desc| == |free| == NUM && h < NUM && m < NUM && t < NUM && Three(h, m, t) && !free[h] && !free[m]
               && !free[t]
            && HasNext(desc[h].flags) && desc[h].next == m && HasNext(desc[m].flags) && desc[m].next == t
               && !HasNext(desc[t].flags)
  {
    hide Recorded, Sector, AllThere;
    assert Formatted(desc, ops, h, g.chains[h]) && Owner(g.owner, h, g.chains[h]);
  }

  lemma TabledBelow(desc: seq<Desc>, ops: seq<Op>, info: seq<Info>, busy: map<nat, bool>, data: map<nat, Contents>,
                    sectors: Sectors, free: seq<bool>, g: Flight)
    requires Tabled(desc, ops, info, busy, data, sectors, free, g)
    ensures forall k :: k in g.chains ==> k < NUM
  {
    hide Partition, AllFormatted, AllRecorded;
    InFlight(free, g.owner, g.chains);
  }

  lemma InFlight(free: seq<bool>, owner: map<nat, nat>, chains: Chains)
    requires Partition(free, owner, chains)
    ensures forall k :: k in chains ==> k < NUM
  {
    forall k | k in chains ensures k < NUM {
      assert Owner(owner, k, chains[k]);
    }
  }

  lemma RecordedTake(info: seq<Info>, busy: map<nat, bool>, h: nat, c: Chain)
    requires Recorded(info, busy, h, c) && c.stage.Queued?
    ensures Recorded(info, busy, h, c.(stage := Taken))
  {
  }

  // A chain moves on, and the driver's records of it follow.
  lemma TabledStage(desc: seq<Desc>, ops: seq<Op>, info: seq<Info>, busy: map<nat, bool>, data: map<nat, Contents>,
                    sectors: Sectors, free: seq<bool>, g: Flight, h: nat, s: Stage, info': seq<Info>,
                    busy': map<nat, bool>, data': map<nat, Contents>, sectors': Sectors, g': Flight)
    requires Tabled(desc, ops, info, busy, data, sectors, free, g) && h in g.chains && |info'| == NUM
    requires g'.owner == g.owner && g'.chains == Staged(g.chains, h, s)
    requires Recorded(info', busy', h, g.chains[h].(stage := s))
    requires forall k :: 0 <= k < NUM && k != h ==> info'[k] == info[k]
    requires forall b :: b in busy && b != g.chains[h].buf ==> b in busy' && busy'[b] == busy[b]
    requires data.Keys <= data'.Keys && sectors.Keys <= sectors'.Keys
    ensures Tabled(desc, ops, info', busy', data', sectors', free, g')
  {
    hide Sector, Partition, Exclusive, AllFormatted, AllRecorded, AllThere, Recorded, Staged;
    RecordedStage(info, busy, g.chains, h, s, info', busy');
    FormattedStage(desc, ops, g.chains, h, s);
    ThereStage(data, sectors, g.chains, h, s, data', sectors');
    PartitionStage(free, g.owner, g.chains, h, s);
    ExclusiveStage(g.chains, h, s);
  }

  // The chain h is gone, and its descriptors are free.
  lemma TabledFinish(desc: seq<Desc>, ops: seq<Op>, info: seq<Info>, busy: map<nat, bool>, data: map<nat, Contents>,
                     sectors: Sectors, free: seq<bool>, g: Flight, h: nat, desc': seq<Desc>,
                     info': seq<Info>, free': seq<bool>)
    requires Tabled(desc, ops, info, busy, data, sectors, free, g) && h in g.chains && |desc'| == |info'| == NUM
    requires h < NUM && g.chains[h].mid < NUM && g.chains[h].tail < NUM
    requires free' == free[h := true][g.chains[h].mid := true][g.chains[h].tail := true]
    requires forall k :: 0 <= k < NUM && k != h ==> info'[k] == info[k]
    requires forall k :: 0 <= k < NUM && k != h && k != g.chains[h].mid && k != g.chains[h].tail ==> desc'[k] == desc[k]
    ensures Tabled(desc', ops, info', busy, data, sectors, free', Finished(g, h))
  {
    hide Sector, Partition, AllFormatted, AllRecorded;
    PartitionFinish(free, g, h, free');
    FormattedFinish(desc, ops, free, g, h, desc');
    RecordedFinish(info, busy, g, h, info');
  }

  lemma FormattedFinish(desc: seq<Desc>, ops: seq<Op>, free: seq<bool>, g: Flight, h: nat, desc': seq<Desc>)
    requires Partition(free, g.owner, g.chains) && AllFormatted(desc, ops, g.chains) && h in g.chains
             && |desc| == |desc'| == NUM
    requires forall k :: 0 <= k < NUM && k != h && k != g.chains[h].mid && k != g.chains[h].tail ==> desc'[k] == desc[k]
    ensures AllFormatted(desc', ops, Finished(g, h).chains)
  {
    hide Sector, Partition;
    var g' := Finished(g, h);
    forall k | k in g'.chains ensures Formatted(desc', ops, k, g'.chains[k]) {
      assert Formatted(desc, ops, k, g.chains[k]);
      Apart(free, g, h, k);
    }
  }

  lemma RecordedFinish(info: seq<Info>, busy: map<nat, bool>, g: Flight, h: nat, info': seq<Info>)
    requires AllRecorded(info, busy, g.chains) && h in g.chains && |info| == |info'| == NUM
    requires forall k :: 0 <= k < NUM && k != h ==> info'[k] == info[k]
    ensures AllRecorded(info', busy, Finished(g, h).chains)
  {
    var g' := Finished(g, h);
    forall k | k in g'.chains ensures Recorded(info', busy, k, g'.chains[k]) {
      assert Recorded(info, busy, k, g.chains[k]);
    }
  }

  lemma Apart(free: seq<bool>, g: Flight, h: nat, k: nat)
    requires Partition(free, g.owner, g.chains) && h in g.chains && k in g.chains && k != h
    ensures {h, g.chains[h].mid, g.chains[h].tail} !! {k, g.chains[k].mid, g.chains[k].tail}
  {
    assert Owner(g.owner, h, g.chains[h]) && Owner(g.owner, k, g.chains[k]);
  }

  lemma PartitionFinish(free: seq<bool>, g: Flight, h: nat, free': seq<bool>)
    requires Partition(free, g.owner, g.chains) && h in g.chains && h < NUM && g.chains[h].mid < NUM
             && g.chains[h].tail < NUM
    requires free' == free[h := true][g.chains[h].mid := true][g.chains[h].tail := true]
    ensures Partition(free', Finished(g, h).owner, Finished(g, h).chains)
  {
    var g' := Finished(g, h);
    assert Owner(g.owner, h, g.chains[h]);
    forall k | k in g'.chains ensures Owner(g'.owner, k, g'.chains[k]) {
      assert Owner(g.owner, k, g.chains[k]);
    }
  }

  lemma RecordedStage(info: seq<Info>, busy: map<nat, bool>, chains: Chains, h: nat, s: Stage, info': seq<Info>,
                      busy': map<nat, bool>)
    requires AllRecorded(info, busy, chains) && Exclusive(chains) && h in chains && |info'| == NUM
    requires Recorded(info', busy', h, chains[h].(stage := s))
    requires |info| == NUM && forall k :: 0 <= k < NUM && k != h ==> info'[k] == info[k]
    requires forall b :: b in busy && b != chains[h].buf ==> b in busy' && busy'[b] == busy[b]
    ensures AllRecorded(info', busy', Staged(chains, h, s))
  {
    var chains' := Staged(chains, h, s);
    forall g | g in chains' ensures Recorded(info', busy', g, chains'[g]) {
      assert Recorded(info, busy, g, chains[g]);
    }
  }

  lemma FormattedStage(desc: seq<Desc>, ops: seq<Op>, chains: Chains, h: nat, s: Stage)
    requires AllFormatted(desc, ops, chains) && h in chains
    ensures AllFormatted(desc, ops, Staged(chains, h, s))
  {
    hide Sector;
    var chains' := Staged(chains, h, s);
    forall g | g in chains' ensures Formatted(desc, ops, g, chains'[g]) {
      assert Formatted(desc, ops, g, chains[g]);
    }
  }

  lemma ThereStage(data: map<nat, Contents>, sectors: Sectors, chains: Chains, h: nat, s: Stage,
                   data': map<nat, Contents>, sectors': Sectors)
    requires AllThere(data, sectors, chains) && h in chains && data.Keys <= data'.Keys && sectors.Keys <= sectors'.Keys
    ensures AllThere(data', sectors', Staged(chains, h, s))
  {
    hide Sector;
  }

  lemma ExclusiveStage(chains: Chains, h: nat, s: Stage)
    requires Exclusive(chains) && h in chains
    ensures Exclusive(Staged(chains, h, s))
  {
  }

  lemma PartitionStage(free: seq<bool>, owner: map<nat, nat>, chains: Chains, h: nat, s: Stage)
    requires Partition(free, owner, chains) && h in chains
    ensures Partition(free, owner, Staged(chains, h, s))
  {
  }

  lemma OfferedTake(avail: seq<nat>, lo: nat, chains: Chains)
    requires Offered(avail, lo, chains) && lo < |avail|
    ensures avail[lo] in chains && chains[avail[lo]].stage.Queued?
            && Offered(avail, lo + 1, Staged(chains, avail[lo], Taken))
  {
  }

  lemma OfferedStage(avail: seq<nat>, lo: nat, chains: Chains, h: nat, s: Stage)
    requires Offered(avail, lo, chains) && h in chains && !chains[h].stage.Queued? && !s.Queued?
    ensures Offered(avail, lo, Staged(chains, h, s))
  {
  }

  lemma ReturnedTake(used: seq<nat>, ids: seq<nat>, lo: nat, chains: Chains, h: nat)
    requires Returned(used, ids, lo, chains) && h in chains && chains[h].stage.Queued?
    ensures Returned(used, ids, lo, Staged(chains, h, Taken))
  {
  }

  lemma ReturnedDone(used: seq<nat>, ids: seq<nat>, lo: nat, chains: Chains, h: nat)
    requires Returned(used, ids, lo, chains) && lo <= |used| && h in chains && chains[h].stage.Taken?
    ensures Returned(used + [h], ids + [chains[h].id], lo, Staged(chains, h, Done(|used|)))
  {
  }

  lemma ReturnedNext(used: seq<nat>, ids: seq<nat>, lo: nat, chains: Chains)
    requires Returned(used, ids, lo, chains) && lo < |used|
    ensures used[lo] in chains && chains[used[lo]].stage == Done(lo)
            && Returned(used, ids, lo + 1, Staged(chains, used[lo], Seen(lo)))
  {
  }

  lemma AllocatedIn(desc: seq<Desc>, ops: seq<Op>, info: seq<Info>, busy: map<nat, bool>, data: map<nat, Contents>,
                    sectors: Sectors, free0: seq<bool>, g: Flight, free: seq<bool>, idx: seq<nat>)
    requires Tabled(desc, ops, info, busy, data, sectors, free0, g) && Allocated(free0, free, idx) && |idx| == 3
    ensures idx[0] < NUM && idx[0] !in g.chains && forall h :: h in g.chains ==> h < NUM
  {
    hide Allocated, Partition;
    AllocatedOld(free0, free, idx, g.owner, g.chains);
  }

  // Rewriting free descriptors does not touch the chains.
  lemma DescKept(owner: map<nat, nat>, chains: Chains, free: seq<bool>, desc: seq<Desc>, desc': seq<Desc>, ops: seq<Op>)
    requires Partition(free, owner, chains) && |desc| == |desc'| == NUM
    requires forall k :: 0 <= k < NUM && !free[k] ==> desc'[k] == desc[k]
    requires AllFormatted(desc, ops, chains)
    ensures AllFormatted(desc', ops, chains)
  {
    hide Sector;
    forall h | h in chains ensures Formatted(desc', ops, h, chains[h]) {
      assert Owner(owner, h, chains[h]);
    }
  }

  lemma AllocatedOld(free0: seq<bool>, free: seq<bool>, idx: seq<nat>, owner: map<nat, nat>, chains: Chains)
    requires Partition(free0, owner, chains) && Allocated(free0, free, idx) && |idx| == 3
    ensures idx[0] < NUM && idx[1] < NUM && idx[2] < NUM && Three(idx[0], idx[1], idx[2])
    ensures |free| == NUM && idx[0] !in chains && forall g :: g in chains ==> g < NUM
  {
    forall g | g in chains ensures g < NUM && g != idx[0] {
      assert Owner(owner, g, chains[g]);
    }
  }

  lemma FormattedAdd(owner: map<nat, nat>, chains: Chains, free: seq<bool>, free': seq<bool>, desc: seq<Desc>,
                     ops: seq<Op>, idx: seq<nat>, c: Chain)
    requires Partition(free, owner, chains) && |desc| == |ops| == NUM && |idx| == 3
    requires Allocated(free, free', idx) && c.mid == idx[1] && c.tail == idx[2]
    requires AllFormatted(desc, ops, chains)
    ensures var desc' := desc[idx[0] := Desc(Header(idx[0]), 16, F_NEXT, idx[1])]
                         [idx[1] := Desc(Buffer(c.buf), BSIZE, F_NEXT + (if c.write then 0 else F_WRITE), idx[2])]
                         [idx[2] := Desc(Status(idx[0]), 1, F_WRITE, 0)];
            var ops' := ops[idx[0] := Op(if c.write then T_OUT else T_IN, Sector(c.block))];
            AllFormatted(desc', ops', chains[idx[0] := c])
  {
    hide Sector;
    var i0, i1, i2 := idx[0], idx[1], idx[2];
    var desc' := desc[i0 := Desc(Header(i0), 16, F_NEXT, i1)]
    [i1 := Desc(Buffer(c.buf), BSIZE, F_NEXT + (if c.write then 0 else F_WRITE), i2)]
    [i2 := Desc(Status(i0), 1, F_WRITE, 0)];
    var ops' := ops[i0 := Op(if c.write then T_OUT else T_IN, Sector(c.block))];
    var chains' := chains[i0 := c];
    forall h | h in chains' ensures Formatted(desc', ops', h, chains'[h]) {
      if h != i0 {
        assert Owner(owner, h, chains[h]);
        assert Formatted(desc, ops, h, chains[h]);
      }
    }
  }

  lemma RecordedAdd(chains: Chains, info: seq<Info>, busy: map<nat, bool>, i: nat, c: Chain)
    requires |info| == NUM && i < NUM && c.stage == Queued && forall h :: h in chains ==> chains[h].buf != c.buf
    requires AllRecorded(info, busy, chains)
    ensures AllRecorded(info[i := Info(Some(c.buf), 0xff)], busy[c.buf := true], chains[i := c])
  {
  }

  lemma PartitionAdd(free0: seq<bool>, free: seq<bool>, idx: seq<nat>, owner: map<nat, nat>, chains: Chains, c: Chain)
    requires Partition(free0, owner, chains) && Allocated(free0, free, idx) && |idx| == 3 && c.mid == idx[1]
             && c.tail == idx[2]
    ensures Partition(free, owner[idx[0] := idx[0]][idx[1] := idx[0]][idx[2] := idx[0]], chains[idx[0] := c])
  {
    assert forall k :: k in idx <==> k == idx[0] || k == idx[1] || k == idx[2];
    AllocatedOld(free0, free, idx, owner, chains);
  }

  lemma ThereAt(data: map<nat, Contents>, sectors: Sectors, chains: Chains, h: nat)
    requires AllThere(data, sectors, chains) && h in chains
    ensures chains[h].buf in data && Spans(sectors, Sector(chains[h].block), PER)
  {
    hide Sector, Spans;
  }

  lemma DoneRecord(info: seq<Info>, busy: map<nat, bool>, h: nat, c: Chain, at: nat)
    requires Recorded(info, busy, h, c) && c.stage == Taken
    ensures h < |info| == NUM && Recorded(info[h := Info(info[h].b, 0)], busy, h, c.(stage := Done(at)))
  {
  }

  lemma ThereAdd(data: map<nat, Contents>, sectors: Sectors, chains: Chains, i: nat, c: Chain)
    requires AllThere(data, sectors, chains) && c.buf in data && Spans(sectors, Sector(c.block), PER)
    ensures AllThere(data, sectors, chains[i := c])
  {
    hide Sector;
  }

  lemma ExclusiveAdd(chains: Chains, i: nat, c: Chain)
    requires Exclusive(chains) && forall h :: h in chains ==> chains[h].buf != c.buf
    ensures Exclusive(chains[i := c])
  {
  }

  lemma OfferedAdd(avail: seq<nat>, lo: nat, chains: Chains, i: nat, c: Chain)
    requires Offered(avail, lo, chains) && lo <= |avail| && i !in chains && c.id == |avail| && c.stage == Queued
    ensures Offered(avail + [i], lo, chains[i := c])
  {
  }

  lemma ReturnedAdd(used: seq<nat>, ids: seq<nat>, lo: nat, chains: Chains, i: nat, c: Chain)
    requires Returned(used, ids, lo, chains) && i !in chains && c.stage == Queued
    ensures Returned(used, ids, lo, chains[i := c])
  {
  }

  // While a process sleeps for descriptors there is a request that will free some.
  lemma SleeperHasHope(desc: seq<Desc>, ops: seq<Op>, info: seq<Info>, busy: map<nat, bool>, data: map<nat, Contents>,
                       sectors: Sectors, free: seq<bool>, g: Flight, sleepers: set<nat>, waiting: set<nat>)
    requires Tabled(desc, ops, info, busy, data, sectors, free, g) && Asleep(sleepers, free, waiting, g.chains)
             && sleepers != {}
    ensures g.chains != map[]
  {
    if g.chains == map[] {
      assert {0, 1, 2} <= FreeSet(free);
      SubsetSize({0, 1, 2}, FreeSet(free));
      assert false;
    }
  }

  lemma NoneFree(free: seq<bool>)
    requires forall k :: 0 <= k < |free| ==> !free[k]
    ensures |FreeSet(free)| == 0
  {
    assert FreeSet(free) == {};
  }
}
