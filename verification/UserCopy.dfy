// copyout, copyin and copyinstr of kernel/vm.c: moving bytes between the kernel and the
// address space of a user.
module UserCopy {
  import opened VmSpec
  import opened Vm

  // ----- the bytes of a word and of a page, least significant first

  function ByteAt(w: nat, i: nat): nat { if i == 0 then w % 256 else ByteAt(w / 256, i - 1) }

  function Word(bs: seq<nat>): nat { if bs == [] then 0 else bs[0] + 256 * Word(bs[1..]) }

  predicate AreBytes(bs: seq<nat>) { forall i :: 0 <= i < |bs| ==> bs[i] < 256 }

  lemma {:induction false} WordByte(bs: seq<nat>, i: nat)
    requires AreBytes(bs) && i < |bs|
    ensures ByteAt(Word(bs), i) == bs[i]
    decreases |bs|
  {
    assert Word(bs) / 256 == Word(bs[1..]) && Word(bs) % 256 == bs[0];
    if i > 0 {
      WordByte(bs[1..], i - 1);
    }
  }

  function PageBytes(words: seq<nat>): (bs: seq<nat>)
    requires |words| == 512
    ensures |bs| == PGSIZE
  {
    seq(PGSIZE, o requires 0 <= o < PGSIZE => ByteAt(words[o / 8], o % 8))
  }

  function PageWords(bs: seq<nat>): (words: seq<nat>)
    requires |bs| == PGSIZE
    ensures |words| == 512
  {
    seq(512, k requires 0 <= k < 512 => Word(bs[8 * k..8 * k + 8]))
  }

  lemma PageRoundTrip(bs: seq<nat>)
    requires |bs| == PGSIZE && AreBytes(bs)
    ensures PageBytes(PageWords(bs)) == bs
  {
    forall o | 0 <= o < PGSIZE ensures PageBytes(PageWords(bs))[o] == bs[o] {
      var part := bs[8 * (o / 8)..8 * (o / 8) + 8];
      WordByte(part, o % 8);
      assert part[o % 8] == bs[o];
    }
  }

  lemma {:induction false} ByteSmall(w: nat, i: nat)
    ensures ByteAt(w, i) < 256
  {
    if i > 0 {
      ByteSmall(w / 256, i - 1);
    }
  }

  // bs with src from off on.
  function Over(bs: seq<nat>, off: nat, src: seq<nat>): (r: seq<nat>)
    requires off + |src| <= |bs|
    ensures |r| == |bs| && forall o :: 0 <= o < |bs| ==> r[o] == if off <= o < off + |src| then src[o - off] else bs[o]
  {
    bs[..off] + src + bs[off + |src|..]
  }

  // ----- user memory

  // Only user pages of the table's own are open to the user.
  ghost predicate UserOnly(pt: Table) { forall v :: v in pt.flat && IsUser(pt.flat[v]) ==> Mapped(pt, v) }

  // The tables that proc_pagetable makes and growproc keeps are of this kind.
  lemma ProcessTable(pt: Table, n: nat)
    requires UserTable(pt, n)
    ensures UserOnly(pt)
  {
    hide Mapped, IsUser;
  }

  // A process sees only its own memory: neither the trapframe nor the trampoline.
  lemma OwnMemoryOnly(pt: Table, n: nat, a: nat)
    requires UserTable(pt, n) && Lookup(pt, a) != 0
    ensures a / PGSIZE < n && Lookup(pt, a) in pt.user && pt.user[Lookup(pt, a)] == a / PGSIZE
  {
    hide IsUser, Pte2Pa, Flags;
    assert Mapped(pt, a / PGSIZE);
  }

  // The byte that the user sees at va, if there is one.
  ghost predicate Visible(mem: Mem, pt: Table, va: nat) {
    Lookup(pt, va) != 0 && Lookup(pt, va) in mem && |mem[Lookup(pt, va)]| == 512
  }

  ghost function UserByte(mem: Mem, pt: Table, va: nat): nat
    requires Visible(mem, pt, va)
  {
    PageBytes(mem[Lookup(pt, va)])[va % PGSIZE]
  }

  // What the user sees after src was stored from va on, and nothing else.
  ghost predicate Stored(mem: Mem, mem': Mem, pt: Table, va: nat, src: seq<nat>) {
    forall a: nat :: Visible(mem, pt, a) ==> StoredAt(mem, mem', pt, va, src, a)
  }

  ghost predicate StoredAt(mem: Mem, mem': Mem, pt: Table, va: nat, src: seq<nat>, a: nat)
    requires Visible(mem, pt, a)
  {
    Visible(mem', pt, a) && UserByte(mem', pt, a) == if va <= a < va + |src| then src[a - va] else UserByte(mem, pt, a)
  }

  // Every address of a range is open to the user.
  ghost predicate Open(pt: Table, va: nat, n: nat) { forall a: nat :: va <= a < va + n ==> Lookup(pt, a) != 0 }

  lemma StoredNothing(mem: Mem, pt: Table, va: nat)
    ensures Stored(mem, mem, pt, va, [])
  {
  }

  lemma StoredMore(mem: Mem, mem1: Mem, mem2: Mem, pt: Table, va: nat, src: seq<nat>, more: seq<nat>)
    requires Stored(mem, mem1, pt, va, src) && Stored(mem1, mem2, pt, va + |src|, more)
    ensures Stored(mem, mem2, pt, va, src + more)
  {
    hide Visible, UserByte;
    forall a: nat | Visible(mem, pt, a) ensures StoredAt(mem, mem2, pt, va, src + more, a) {
      assert StoredAt(mem, mem1, pt, va, src, a);
      assert StoredAt(mem1, mem2, pt, va + |src|, more, a);
    }
  }

  // Two addresses that lie in the same page frame lie in the same page.
  lemma SamePage(pt: Table, a: nat, va: nat)
    requires UserOnly(pt) && Lookup(pt, a) == Lookup(pt, va) != 0
    ensures a / PGSIZE == va / PGSIZE && Lookup(pt, va) in pt.user
  {
    hide Pte2Pa, IsUser;
    assert Mapped(pt, a / PGSIZE) && Mapped(pt, va / PGSIZE);
  }

  lemma SameLookup(pt: Table, va: nat, i: nat)
    requires va % PGSIZE + i < PGSIZE
    ensures (va + i) / PGSIZE == va / PGSIZE && (va + i) % PGSIZE == va % PGSIZE + i
    ensures Lookup(pt, va + i) == Lookup(pt, va) == Lookup(pt, PgRoundDown(va)) && PgRoundDown(va) + va % PGSIZE == va
  {
    hide IsUser, Pte2Pa;
    assert MAXVA % PGSIZE == 0;
    assert (va + i) / PGSIZE == va / PGSIZE;
    assert PgRoundDown(va) / PGSIZE == va / PGSIZE;
  }

  lemma PageStored(mem: Mem, mem': Mem, pt: Table, va: nat, src: seq<nat>)
    requires UserOnly(pt) && Visible(mem, pt, va) && va % PGSIZE + |src| <= PGSIZE && AreBytes(src)
    requires var pa := Lookup(pt, va); mem' == mem[pa := PageWords(Over(PageBytes(mem[pa]), va % PGSIZE, src))]
    ensures Stored(mem, mem', pt, va, src)
  {
    var pa := Lookup(pt, va);
    var bs := PageBytes(mem[pa]);
    forall o | 0 <= o < PGSIZE ensures bs[o] < 256 {
      ByteSmall(mem[pa][o / 8], o % 8);
    }
    PageRoundTrip(Over(bs, va % PGSIZE, src));
    forall a: nat | Visible(mem, pt, a) ensures StoredAt(mem, mem', pt, va, src, a) {
      if va <= a < va + |src| {
        SameLookup(pt, va, a - va);
      }
      if Lookup(pt, a) == pa {
        SamePage(pt, a, va);
      }
    }
  }

  // memmove to a user page.
  method StorePage(m: Memory, pa: nat, va: nat, src: seq<nat>, ghost pt: Table)
    requires m.Valid() && Space(m.mem, m.free, pt) && UserOnly(pt) && pa == Lookup(pt, va) != 0
             && va % PGSIZE + |src| <= PGSIZE && AreBytes(src)
    modifies m`mem
    ensures m.Valid() && Space(m.mem, m.free, pt) && Stored(old(m.mem), m.mem, pt, va, src)
    ensures SameBut(old(m.mem), m.mem, pt.user.Keys)
  {
    hide Tree, Flags, Pte2Pa, IsRam, Over, PageWords, PageBytes, Stored;
    SamePage(pt, va, va);
    PageStored(m.mem, m.mem[pa := PageWords(Over(PageBytes(m.mem[pa]), va % PGSIZE, src))], pt, va, src);
    m.mem := m.mem[pa := PageWords(Over(PageBytes(m.mem[pa]), va % PGSIZE, src))];
    SpaceFrame(old(m.mem), m.free, m.mem, m.free, pt, {pa});
    ChainFrame(old(m.mem), m.mem, m.freelist, m.free);
  }

  // copyout.  k is the number of bytes it stored before it found a page that is not the
  // user's, or all.
  method CopyOut(m: Memory, root: nat, dstva: nat, src: seq<nat>, ghost pt: Table) returns (r: int, ghost k: nat)
    requires m.Valid() && Space(m.mem, m.free, pt) && root == pt.root && UserOnly(pt) && AreBytes(src)
    modifies m
    ensures m.Valid() && Space(m.mem, m.free, pt) && m.free == old(m.free)
    ensures r == (if Open(pt, dstva, |src|) then 0 else -1)
    ensures k <= |src| && Stored(old(m.mem), m.mem, pt, dstva, src[..k]) && Open(pt, dstva, k)
    ensures if r == 0 then k == |src| else k < |src| && Lookup(pt, dstva + k) == 0
    ensures SameBut(old(m.mem), m.mem, pt.user.Keys)
  {
    hide Memory.Valid, Space, Lookup, UserOnly, Stored;
    var va, i := dstva, 0;
    k := 0;
    StoredNothing(m.mem, pt, dstva);
    while i < |src|
      invariant i <= |src| && k == i && va == dstva + i && m.Valid() && Space(m.mem, m.free, pt)
                && m.free == old(m.free)
      invariant Stored(old(m.mem), m.mem, pt, dstva, src[..i]) && Open(pt, dstva, i)
      invariant SameBut(old(m.mem), m.mem, pt.user.Keys)
    {
      var va0 := PgRoundDown(va);
      SameLookup(pt, va, 0);
      var pa0 := m.WalkAddr(root, va0, pt);
      if pa0 == 0 {
        assert Lookup(pt, dstva + i) == 0;
        return -1, i;
      }
      var n := PGSIZE - (va - va0);
      if n > |src| - i {
        n := |src| - i;
      }
      ghost var mem1 := m.mem;
      StorePage(m, pa0, va, src[i..i + n], pt);
      StoredMore(old(m.mem), mem1, m.mem, pt, dstva, src[..i], src[i..i + n]);
      assert src[..i] + src[i..i + n] == src[..i + n];
      OpenMore(pt, dstva, i, n);
      va := va + n;
      i := i + n;
      k := i;
    }
    assert src[..|src|] == src;
    r := 0;
  }

  lemma OpenMore(pt: Table, va: nat, i: nat, n: nat)
    requires Open(pt, va, i) && Lookup(pt, va + i) != 0 && (va + i) % PGSIZE + n <= PGSIZE
    ensures Open(pt, va, i + n)
  {
    hide Lookup;
    forall a: nat | va <= a < va + i + n ensures Lookup(pt, a) != 0 {
      if va + i <= a {
        SameLookup(pt, va + i, a - (va + i));
      }
    }
  }

  // The bytes that the user sees from va on.
  ghost predicate Reads(mem: Mem, pt: Table, va: nat, bs: seq<nat>) {
    forall i :: 0 <= i < |bs| ==> ReadsAt(mem, pt, va + i, bs[i])
  }

  ghost predicate ReadsAt(mem: Mem, pt: Table, a: nat, b: nat) { Visible(mem, pt, a) && UserByte(mem, pt, a) == b }

  // memmove from a user page.
  method LoadPage(m: Memory, pa: nat, va: nat, n: nat, ghost pt: Table) returns (bs: seq<nat>)
    requires m.Valid() && Space(m.mem, m.free, pt) && UserOnly(pt) && pa == Lookup(pt, va) != 0
             && va % PGSIZE + n <= PGSIZE
    ensures |bs| == n && Reads(m.mem, pt, va, bs)
  {
    hide Tree, Flags, Pte2Pa, IsRam, PageBytes, Lookup;
    SamePage(pt, va, va);
    bs := PageBytes(m.mem[pa])[va % PGSIZE..va % PGSIZE + n];
    forall i | 0 <= i < n ensures ReadsAt(m.mem, pt, va + i, bs[i]) {
      SameLookup(pt, va, i);
    }
  }

  lemma ReadsMore(mem: Mem, pt: Table, va: nat, bs: seq<nat>, more: seq<nat>)
    requires Reads(mem, pt, va, bs) && Reads(mem, pt, va + |bs|, more)
    ensures Reads(mem, pt, va, bs + more)
  {
    hide ReadsAt;
    forall i | 0 <= i < |bs + more| ensures ReadsAt(mem, pt, va + i, (bs + more)[i]) {
      if |bs| <= i {
        assert ReadsAt(mem, pt, va + |bs| + (i - |bs|), more[i - |bs|]);
      }
    }
  }

  // copyin
  method CopyIn(m: Memory, root: nat, srcva: nat, len: nat, ghost pt: Table) returns (r: int, dst: seq<nat>)
    requires m.Valid() && Space(m.mem, m.free, pt) && root == pt.root && UserOnly(pt)
    modifies m
    ensures unchanged(m)
    ensures r == (if Open(pt, srcva, len) then 0 else -1)
    ensures |dst| <= len && Reads(m.mem, pt, srcva, dst) && (r == 0 ==> |dst| == len)
  {
    hide Memory.Valid, Space, Lookup, UserOnly, ReadsAt;
    var va := srcva;
    dst := [];
    while |dst| < len
      invariant |dst| <= len && va == srcva + |dst| && unchanged(m) && Reads(m.mem, pt, srcva, dst)
                && Open(pt, srcva, |dst|)
    {
      var va0 := PgRoundDown(va);
      SameLookup(pt, va, 0);
      var pa0 := m.WalkAddr(root, va0, pt);
      if pa0 == 0 {
        assert Lookup(pt, srcva + |dst|) == 0;
        return -1, dst;
      }
      var n := PGSIZE - (va - va0);
      if n > len - |dst| {
        n := len - |dst|;
      }
      var bs := LoadPage(m, pa0, va, n, pt);
      ReadsMore(m.mem, pt, srcva, dst, bs);
      OpenMore(pt, srcva, |dst|, n);
      dst := dst + bs;
      va := va + n;
    }
    r := 0;
  }

  predicate NoNul(bs: seq<nat>) { forall i :: 0 <= i < |bs| ==> bs[i] != 0 }

  // The inner loop of copyinstr, over the bytes of a page.
  method TakeString(bs: seq<nat>) returns (n: nat, nul: bool)
    ensures n <= |bs| && NoNul(bs[..n]) && (nul <==> n < |bs|) && (nul ==> bs[n] == 0)
  {
    n := 0;
    while n < |bs|
      invariant n <= |bs| && NoNul(bs[..n])
    {
      if bs[n] == 0 {
        return n, true;
      }
      n := n + 1;
    }
    nul := false;
  }

  // copyinstr: the string of at most max bytes, its NUL included, from srcva on.
  method CopyInStr(m: Memory, root: nat, srcva: nat, max: nat, ghost pt: Table) returns (r: int, dst: seq<nat>)
    requires m.Valid() && Space(m.mem, m.free, pt) && root == pt.root && UserOnly(pt)
    modifies m
    ensures unchanged(m)
    ensures |dst| <= max && NoNul(dst) && Reads(m.mem, pt, srcva, dst) && Open(pt, srcva, |dst|) && (r == 0 || r == -1)
    ensures r == 0 ==> |dst| < max && ReadsAt(m.mem, pt, srcva + |dst|, 0)
    ensures r == -1 ==> |dst| == max || Lookup(pt, srcva + |dst|) == 0
  {
    hide Memory.Valid, Space, Lookup, UserOnly, ReadsAt;
    var va := srcva;
    dst := [];
    while |dst| < max
      invariant |dst| <= max && va == srcva + |dst| && unchanged(m) && Reads(m.mem, pt, srcva, dst)
                && Open(pt, srcva, |dst|) && NoNul(dst)
    {
      var va0 := PgRoundDown(va);
      SameLookup(pt, va, 0);
      var pa0 := m.WalkAddr(root, va0, pt);
      if pa0 == 0 {
        return -1, dst;
      }
      var n := PGSIZE - (va - va0);
      if n > max - |dst| {
        n := max - |dst|;
      }
      var bs := LoadPage(m, pa0, va, n, pt);
      var got, nul := TakeString(bs);
      ReadsMore(m.mem, pt, srcva, dst, bs[..got]);
      OpenMore(pt, srcva, |dst|, got);
      dst := dst + bs[..got];
      if nul {
        assert ReadsAt(m.mem, pt, va + got, bs[got]);
        return 0, dst;
      }
      va := va + got;
    }
    r := -1;
  }

  // What copyout stored, copyin reads back.
  lemma StoredReads(mem: Mem, mem': Mem, pt: Table, va: nat, src: seq<nat>)
    requires Stored(mem, mem', pt, va, src) && forall a: nat :: va <= a < va + |src| ==> Visible(mem, pt, a)
    ensures Reads(mem', pt, va, src)
  {
    hide Visible, UserByte;
    forall i | 0 <= i < |src| ensures ReadsAt(mem', pt, va + i, src[i]) {
      assert StoredAt(mem, mem', pt, va, src, va + i);
    }
  }

  // ----- memory that the process has got or given back

  lemma ZeroBytes(i: nat)
    requires i < 8
    ensures ByteAt(0, i) == 0
  {
  }

  // New memory is open to the user and reads as zeros.
  lemma GrownReads(end: nat, mem: Mem, pt: Table, n: nat, m: nat, perm: nat, pt': Table, a: nat)
    requires 0 < end && Ram(end, mem) && Grown(pt, n, m, Blank(perm), mem, pt') && m <= TRAPFRAME / PGSIZE
    requires perm < 1024 && IsUser(perm) && n <= a / PGSIZE < m
    ensures ReadsAt(mem, pt', a, 0)
  {
    hide Ram, Mapped, IsUser, MakePte, Pte2Pa;
    var v := a / PGSIZE;
    assert Like(mem, pt', v, Blank(perm)(v));
    var pa := Pte2Pa(pt'.flat[v]);
    PageAddress(end, mem, pt'.flat[v]);
    PteRoundTrip(pa, perm);
    ZeroBytes(a % PGSIZE % 8);
  }

  // A child made by uvmcopy sees what its parent sees, address by address.
  lemma CopySees(end: nat, mem0: Mem, src: Table, mem: Mem, pt: Table, n: nat, pt': Table, a: nat)
    requires 0 < end && Ram(end, mem0) && Ram(end, mem) && Sized(src, n) && Backed(mem0, src)
    requires Grown(pt, 0, n, CopyOf(mem0, src), mem, pt') && a / PGSIZE < n <= TRAPFRAME / PGSIZE
    ensures Visible(mem0, src, a) <==> Visible(mem, pt', a)
    ensures Visible(mem0, src, a) ==> UserByte(mem, pt', a) == UserByte(mem0, src, a)
  {
    hide Ram, IsUser, MakePte, Pte2Pa, Flags, PageBytes;
    var v := a / PGSIZE;
    assert Mapped(src, v) && Like(mem, pt', v, CopyOf(mem0, src)(v));
    PageAddress(end, mem, pt'.flat[v]);
    PageAddress(end, mem0, src.flat[v]);
    UserFlag(src.flat[v]);
    PteRoundTrip(Pte2Pa(pt'.flat[v]), Flags(src.flat[v]));
    RamPage(end, mem, Pte2Pa(pt'.flat[v]));
    RamPage(end, mem0, Pte2Pa(src.flat[v]));
  }

  lemma UserFlag(pte: nat)
    ensures IsUser(Flags(pte)) == IsUser(pte) && Flags(pte) < 1024
  {
  }

  lemma RamPage(end: nat, mem: Mem, p: nat)
    requires Ram(end, mem) && p in mem
    ensures |mem[p]| == 512
  {
  }

  lemma PageAddress(end: nat, mem: Mem, pte: nat)
    requires 0 < end && Ram(end, mem) && Pte2Pa(pte) in mem
    ensures Pte2Pa(pte) != 0 && Pte2Pa(pte) % PGSIZE == 0
  {
  }

  // Growing changes nothing else that the user sees, and shrinking shuts exactly what is
  // given back.
  lemma GrownElsewhere(mem: Mem, pt: Table, n: nat, m: nat, img: nat -> Image, pt': Table, a: nat)
    requires Grown(pt, n, m, img, mem, pt') && !(n <= a / PGSIZE < m)
    ensures Lookup(pt', a) == Lookup(pt, a)
  {
    hide IsUser, Pte2Pa;
  }

  lemma DroppedShut(pt: Table, lo: nat, hi: nat, doFree: bool, pt': Table, a: nat)
    requires Dropped(pt, lo, hi, doFree, pt')
    ensures Lookup(pt', a) == if lo <= a / PGSIZE < hi then 0 else Lookup(pt, a)
  {
    hide IsUser, Pte2Pa;
  }

  lemma NewMemory(end: nat, mem: Mem, pt: Table, pt': Table, start: nat, n: nat)
    requires 0 < end && Ram(end, mem) && start % PGSIZE == 0 && Pages(start + n) <= TRAPFRAME / PGSIZE
    requires Grown(pt, Pages(start), Pages(start + n), Blank(PTE_R + PTE_U + PTE_W), mem, pt')
    ensures Open(pt', start, n) && Reads(mem, pt', start, seq(n, _ => 0))
  {
    hide Grown, Ram, Lookup, UserByte, Blank;
    forall a: nat | start <= a < start + n ensures ReadsAt(mem, pt', a, 0) && Lookup(pt', a) != 0 {
      NewPage(start, n, a);
      GrownReads(end, mem, pt, Pages(start), Pages(start + n), PTE_R + PTE_U + PTE_W, pt', a);
    }
  }

  lemma NewPage(start: nat, n: nat, a: nat)
    requires start % PGSIZE == 0 && start <= a < start + n
    ensures Pages(start) <= a / PGSIZE < Pages(start + n)
  {
  }

  lemma ReadsSame(mem: Mem, pt: Table, va: nat, x: seq<nat>, y: seq<nat>)
    requires Reads(mem, pt, va, x) && Reads(mem, pt, va, y) && |x| == |y|
    ensures x == y
  {
    hide Visible, UserByte;
    forall i | 0 <= i < |x| ensures x[i] == y[i] {
      assert ReadsAt(mem, pt, va + i, x[i]) && ReadsAt(mem, pt, va + i, y[i]);
    }
  }

  lemma ReadsVisible(mem: Mem, pt: Table, va: nat, x: seq<nat>, a: nat)
    requires Reads(mem, pt, va, x) && va <= a < va + |x|
    ensures Visible(mem, pt, a)
  {
    hide Visible, UserByte;
    assert ReadsAt(mem, pt, va + (a - va), x[a - va]);
  }

  // A process that grows can use its new memory at once: it finds zeros there, and what it
  // stores it reads back.
  method UseNewMemory(p: Process, n: nat, src: seq<nat>) returns (r: int, zeros: seq<nat>, back: seq<nat>)
    requires p.Valid() && p.sz % PGSIZE == 0 && |src| == n < 0x8000_0000 && 0 < n && AreBytes(src)
    modifies p, p.memory
    ensures p.Valid() && Pages(old(p.sz)) <= Pages(old(p.sz) + n)
    ensures if |old(p.memory.free)| >= Need(old(p.pt), Pages(old(p.sz)), Pages(old(p.sz) + n)) then
              r == 0 && zeros == seq(n, _ => 0) && back == src
            else r == -1
  {
    hide Space, Grown, UserTable, UserOnly, Need, Pages, Moves, Ram, Chain, Reads, Visible, Lookup, Stored, Open,
         SameBut;
    zeros, back := [], [];
    var m, start := p.memory, p.sz;
    r := p.GrowProc(n);
    if r == 0 {
      UserSized(p.pt, Pages(p.sz));
      SizeLimit(m.end, m.mem, m.free, p.pt, p.sz);
      NewMemory(m.end, m.mem, old(p.pt), p.pt, start, n);
      ProcessTable(p.pt, Pages(p.sz));
      r, zeros := CopyIn(m, p.pagetable, start, n, p.pt);
      ReadsSame(m.mem, p.pt, start, zeros, seq(n, _ => 0));
      ghost var mem := m.mem;
      forall a: nat | start <= a < start + n ensures Visible(mem, p.pt, a) {
        ReadsVisible(mem, p.pt, start, zeros, a);
      }
      var _, k := CopyOut(m, p.pagetable, start, src, p.pt);
      assert src[..k] == src;
      StoredReads(mem, m.mem, p.pt, start, src);
      r, back := CopyIn(m, p.pagetable, start, n, p.pt);
      ReadsSame(m.mem, p.pt, start, back, src);
    }
  }
}
