// The page allocator of kernel/kalloc.c and the user page tables of kernel/vm.c.
module Vm {
  import opened VmSpec

  class Memory {
    const end: nat
    var mem: Mem
    var freelist: nat
    ghost var free: seq<nat>

    ghost predicate Valid()
      reads this
    {
      KERNBASE <= end && Ram(end, mem) && Chain(mem, freelist, free)
    }

    // kfree.  It panics unless pa is a page of RAM.
    method KFree(pa: nat)
      requires Valid() && IsRam(end, pa) && pa !in free
      modifies this
      ensures Valid() && free == [pa] + old(free)
      ensures SameBut(old(mem), mem, {pa})
    {
      ghost var mem0 := mem;
      var junk: seq<nat> := seq(512, _ => 0x0101_0101_0101_0101);
      mem := mem[pa := junk];
      mem := Store(mem, pa, 0, freelist);
      ChainFrame(mem0, mem, freelist, free);
      freelist := pa;
      free := [pa] + free;
      assert free[1..] == old(free);
    }

    // kalloc.  Returns 0 when no page is free.
    method KAlloc() returns (pa: nat)
      requires Valid()
      modifies this
      ensures Valid()
      ensures old(free) == [] ==> pa == 0 && unchanged(this)
      ensures old(free) != [] ==>
                && pa == old(free)[0] && pa != 0 && IsRam(end, pa) && free == old(free)[1..]
                && pa !in free
      ensures SameBut(old(mem), mem, {pa})
    {
      pa := freelist;
      if pa != 0 {
        freelist := mem[pa][0];
        free := free[1..];
        var junk: seq<nat> := seq(512, _ => 0x0505_0505_0505_0505);
        mem := mem[pa := junk];
        ChainFrame(old(mem), mem, freelist, free);
      }
    }

    // kinit: every page of RAM becomes free, once.
    constructor (end: nat, mem: Mem)
      requires KERNBASE <= end <= PHYSTOP && Ram(end, mem)
      ensures Valid() && this.end == end && FreeBelow(end, PHYSTOP, free)
    {
      this.end, this.mem, freelist, free := end, mem, 0, [];
      new;
      FreeRange();
    }

    // freerange, from the end of the kernel to the end of RAM.
    method FreeRange()
      requires Valid() && end <= PHYSTOP && free == []
      modifies this
      ensures Valid() && FreeBelow(end, PHYSTOP, free)
    {
      hide IsRam, FreeBelow, Valid;
      var p := PgRoundUp(end);
      FreeStart(end);
      while p + PGSIZE <= PHYSTOP
        invariant Valid() && p % PGSIZE == 0 && end <= p && FreeBelow(end, p, free)
      {
        FreeNext(end, p, free);
        KFree(p);
        p := p + PGSIZE;
      }
      FreeEnd(end, p, free);
    }

    // One round of the loop of walk: from the table at a level to the one below.
    method WalkStep(table: nat, level: nat, va: nat, alloc: bool, ghost pt: Table)
      returns (ok: bool, next: nat, ghost pt': Table)
      requires Valid() && Space(mem, free, pt) && va < MAXVA && 0 < level <= 2
      requires On(level, va) in pt.page && table == pt.page[On(level, va)]
      modifies this
      ensures Valid() && Moves(old(mem), old(free), pt, mem, free, pt') && Extends(pt, pt')
      ensures ok <==> On(level - 1, va) in pt'.page
      ensures ok ==> next == pt'.page[On(level - 1, va)]
      ensures !ok && alloc ==> old(free) == [] && On(level - 1, va) !in pt.page && pt' == pt
      ensures ok && alloc ==> Spent(pt, old(free), {On(level - 1, va)}, 0, pt', free)
      ensures !alloc ==> unchanged(this) && pt' == pt
    {
      hide On, Px, Pte2Pa, MakePte, Moves, Tree, Backed, Chain, Lack;
      MovesSelf(mem, free, pt);
      LackOne(pt, On(level - 1, va));
      pt' := pt;
      Descends(mem, free, pt, level, va);
      var pte := mem[table][Px(level, va)];
      if IsValid(pte) {
        return true, Pte2Pa(pte), pt;
      }
      if !alloc {
        return false, 0, pt;
      }
      next := KAlloc();
      if next == 0 {
        return false, 0, pt;
      }
      SpaceFrame(old(mem), old(free), mem, free, pt, {next});
      AddPage(table, level, va, next, pt);
      pt' := AddTable(pt, On(level - 1, va), next);
      ok := true;
      AddMoves(old(mem), old(free), pt, mem, free, On(level - 1, va), next, table);
    }

    // walk: find the entry for va, as the word `index` of the page `page`.  Tables that
    // are missing on the way are added if alloc holds and pages are free.
    method Walk(root: nat, va: nat, alloc: bool, ghost pt: Table)
      returns (ok: bool, page: nat, index: nat, ghost pt': Table)
      requires Valid() && Space(mem, free, pt) && root == pt.root && va < MAXVA
      modifies this
      ensures Valid() && Moves(old(mem), old(free), pt, mem, free, pt') && Extends(pt, pt')
      ensures ok <==> On(0, va) in pt'.page
      ensures ok ==> page == pt'.page[On(0, va)] && index == va / PGSIZE % 512
      ensures alloc ==> (ok <==> |old(free)| >= Lack(pt, Path(va / PGSIZE)))
      ensures ok && alloc ==> Spent(pt, old(free), Path(va / PGSIZE), 0, pt', free)
      ensures !alloc ==> unchanged(this) && pt' == pt
    {
      hide On, Px, Space, Moves, Tree, Valid, Path, Spent, Lack, Above;
      OnEnds(va);
      OnPath(va);
      MovesSelf(mem, free, pt);
      SpentNothing(pt, free);
      AboveTop(va);
      Rooted(mem, free, pt);
      var level := 2;
      page, index, pt' := root, 0, pt;
      while level > 0
        invariant 0 <= level <= 2 && Valid() && Moves(old(mem), old(free), pt, mem, free, pt') && Extends(pt, pt')
        invariant Space(mem, free, pt') && On(level, va) in pt'.page && page == pt'.page[On(level, va)]
        invariant alloc ==> Spent(pt, old(free), Above(level, va), 0, pt', free)
        invariant !alloc ==> unchanged(this) && pt' == pt
      {
        ghost var mem1, free1, pt1 := mem, free, pt';
        ok, page, pt' := WalkStep(page, level, va, alloc, pt1);
        if alloc {
          AboveNext(pt, old(free), level, va, ok, pt1, free1, pt', free);
        }
        MovesTrans(old(mem), old(free), pt, mem1, free1, pt1, mem, free, pt');
        MovesSpace(old(mem), old(free), pt, mem, free, pt');
        if !ok {
          Closed(mem, free, pt', level, va);
          return;
        }
        level := level - 1;
      }
      if alloc {
        NeedMet(pt, old(free), Above(0, va), 0, pt', free);
      }
      ok, index := true, Px(0, va);
    }

    // walk installs the new page pa.
    method AddPage(table: nat, level: nat, va: nat, pa: nat, ghost pt: Table)
      requires Valid() && Space(mem, free, pt) && va < MAXVA && 0 < level <= 2
      requires On(level, va) in pt.page && table == pt.page[On(level, va)] && On(level - 1, va) !in pt.page
      requires IsRam(end, pa) && pa !in free && pa !in pt.own && pa !in pt.user
      modifies this`mem
      ensures Valid() && Space(mem, free, AddTable(pt, On(level - 1, va), pa))
      ensures SameBut(old(mem), mem, {pa, table}) && table in pt.own
    {
      hide On, Px, MakePte, Space, Chain;
      Descends(mem, free, pt, level, va);
      mem := mem[pa := Zeros()];
      mem := Store(mem, table, Px(level, va), MakePte(pa, 0));
      SpaceAdd(old(mem), mem, free, pt, level, va, pa);
      ChainFrame(old(mem), mem, freelist, free);
    }

    // walkaddr
    method WalkAddr(root: nat, va: nat, ghost pt: Table) returns (pa: nat)
      requires Valid() && Space(mem, free, pt) && root == pt.root
      modifies this
      ensures unchanged(this)
      ensures pa == Lookup(pt, va)
    {
      hide On, Moves, Right, Inverse, Extends, Pte2Pa, IsUser, Parent;
      if va >= MAXVA {
        return 0;
      }
      OnEnds(va);
      var ok, page, index, _ := Walk(root, va, false, pt);
      if !ok {
        return 0;
      }
      Bottom(mem, pt, va);
      var pte := mem[page][index];
      if !IsValid(pte) || !IsUser(pte) {
        return 0;
      }
      return Pte2Pa(pte);
    }

    // One round of the loop of mappages.  It panics if va is mapped already.
    method MapPage(root: nat, va: nat, pa: nat, perm: nat, ghost pt: Table) returns (ok: bool, ghost pt': Table)
      requires Valid() && Space(mem, free, pt) && root == pt.root && va < MAXVA && perm < 1024
               && va / PGSIZE !in pt.flat
      modifies this
      ensures Valid() && Moves(old(mem), old(free), pt, mem, free, pt')
      ensures pt'.user == pt.user && pt'.flat == if ok then pt.flat[va / PGSIZE := MakePte(pa, perm)] else pt.flat
      ensures ok <==> |old(free)| >= Lack(pt, Path(va / PGSIZE))
      ensures ok ==> Spent(pt, old(free), Path(va / PGSIZE), 0, pt', free)
    {
      hide On, Moves, Space, MakePte, IsValid, Path, Lack;
      var page, index;
      ok, page, index, pt' := Walk(root, va, true, pt);
      if !ok {
        return;
      }
      ghost var mem1, pt1 := mem, pt';
      MovesSpace(old(mem), old(free), pt, mem, free, pt1);
      MakeValid(pa, perm);
      SpaceMap(mem, free, pt1, va, MakePte(pa, perm));
      StoreEntry(page, index, MakePte(pa, perm));
      pt' := Translate(pt1, va / PGSIZE, MakePte(pa, perm));
      MovesTrans(old(mem), old(free), pt, mem1, free, pt1, mem, free, pt');
    }

    // A store to a word of a page that is not free.
    method StoreEntry(page: nat, index: nat, pte: nat)
      requires Valid() && page !in free && page in mem && index < 512
      modifies this`mem
      ensures Valid() && |old(mem)[page]| == 512 && mem == Store(old(mem), page, index, pte)
    {
      hide IsRam;
      mem := Store(mem, page, index, pte);
      ChainFrame(old(mem), mem, freelist, free);
    }

    // mappages.  It panics if the size is 0, and if a page is out of range or mapped
    // already.  `k` is the number of pages mapped: when it returns -1, those before the
    // failure stay mapped.
    method MapPages(root: nat, va: nat, size: nat, pa: nat, perm: nat, ghost pt: Table)
      returns (r: int, ghost k: nat, ghost pt': Table)
      requires Valid() && Space(mem, free, pt) && root == pt.root && 0 < size && va + size - 1 < MAXVA && perm < 1024
      requires forall v :: va / PGSIZE <= v <= (va + size - 1) / PGSIZE ==> v !in pt.flat
      modifies this
      ensures Valid() && Moves(old(mem), old(free), pt, mem, free, pt')
      ensures pt'.user == pt.user && pt'.flat == MapRange(pt.flat, va / PGSIZE, k, pa, perm)
      ensures var v, n := va / PGSIZE, (va + size - 1) / PGSIZE - va / PGSIZE + 1;
              if |old(free)| >= Lack(pt, Paths(v, v + n)) then r == 0 && k == n
                  && Spent(pt, old(free), Paths(v, v + n), 0, pt', free)
              else r == -1 && k < n
    {
      hide Moves, Space, MakePte, Valid, Path, Paths, Spent, Lack;
      var a, last := PgRoundDown(va), PgRoundDown(va + size - 1);
      ghost var v, n := va / PGSIZE, (va + size - 1) / PGSIZE - va / PGSIZE + 1;
      var p := pa;
      MovesSelf(mem, free, pt);
      SpentNothing(pt, free);
      PathsNext(v, v);
      k, pt' := 0, pt;
      assert last == (v + n - 1) * PGSIZE <= va + size - 1;
      while true
        invariant 0 <= k < n && a == (v + k) * PGSIZE && p == pa + k * PGSIZE && pt'.root == root
        invariant Valid() && Space(mem, free, pt') && Moves(old(mem), old(free), pt, mem, free, pt')
        invariant pt'.user == pt.user && pt'.flat == MapRange(pt.flat, v, k, pa, perm)
        invariant Spent(pt, old(free), Paths(v, v + k), 0, pt', free)
        decreases n - k
      {
        ghost var mem1, free1, pt1 := mem, free, pt';
        MapRangeAt(pt.flat, v, k, pa, perm, v + k);
        var ok;
        ok, pt' := MapPage(root, a, p, perm, pt1);
        MovesTrans(old(mem), old(free), pt, mem1, free1, pt1, mem, free, pt');
        MovesSpace(old(mem), old(free), pt, mem, free, pt');
        if !ok {
          NeedShort(pt, old(free), v, v + k, 0, pt1, free1, v + n);
          return -1, k, pt';
        }
        PathsNext(v, v + k);
        SpentTrans(pt, old(free), Paths(v, v + k), 0, pt1, free1, Path(v + k), 0, pt', free);
        k := k + 1;
        if a == last {
          break;
        }
        a := a + PGSIZE;
        p := p + PGSIZE;
      }
      NeedMet(pt, old(free), Paths(v, v + n), 0, pt', free);
      r := 0;
    }

    // One round of the loop of uvmunmap.  It panics unless va is mapped by a leaf.
    // Only pages of the user's are freed.
    method UnmapPage(root: nat, va: nat, doFree: bool, ghost pt: Table) returns (ghost pt': Table)
      requires Valid() && Space(mem, free, pt) && root == pt.root && va < MAXVA
      requires va / PGSIZE in pt.flat && Flags(pt.flat[va / PGSIZE]) != PTE_V && (Mapped(pt, va / PGSIZE) <==> doFree)
      modifies this
      ensures Valid() && Moves(old(mem), old(free), pt, mem, free, pt')
      ensures pt' == Drop(pt, va / PGSIZE, doFree)
      ensures free == if doFree then [Pte2Pa(pt.flat[va / PGSIZE])] + old(free) else old(free)
    {
      hide On, Moves, Tree, Flags, Pte2Pa, IsValid;
      SpaceUnmap(mem, free, pt, va, mem, doFree);
      var ok, page, index, _ := Walk(root, va, false, pt);
      Bottom(mem, pt, va);
      var pte := mem[page][index];
      if doFree {
        KFree(Pte2Pa(pte));
      }
      SpaceUnmap(old(mem), old(free), pt, va, mem, doFree);
      StoreEntry(page, index, 0);
      pt' := Drop(pt, va / PGSIZE, doFree);
    }

    // uvmunmap
    method UvmUnmap(root: nat, va: nat, npages: nat, doFree: bool, ghost pt: Table) returns (ghost pt': Table)
      requires Valid() && Space(mem, free, pt) && root == pt.root && va % PGSIZE == 0 && va + npages * PGSIZE <= MAXVA
      requires Droppable(pt, va / PGSIZE, va / PGSIZE + npages, doFree)
      modifies this
      ensures Valid() && Moves(old(mem), old(free), pt, mem, free, pt')
      ensures Dropped(pt, va / PGSIZE, va / PGSIZE + npages, doFree, pt')
      ensures |free| == |old(free)| + if doFree then npages else 0
    {
      hide Moves, Tree, Valid, Flags, Pte2Pa, Mapped, Droppable, Dropped, Drop, Apart;
      var a := va;
      ghost var lo, k := va / PGSIZE, 0;
      MovesSelf(mem, free, pt);
      DropNothing(pt, lo, doFree);
      pt' := pt;
      while a < va + npages * PGSIZE
        invariant k <= npages && a == va + k * PGSIZE
        invariant Valid() && Space(mem, free, pt') && Moves(old(mem), old(free), pt, mem, free, pt')
        invariant Dropped(pt, lo, lo + k, doFree, pt') && pt'.root == root
        invariant |free| == |old(free)| + if doFree then k else 0
      {
        ghost var mem1, free1, pt1 := mem, free, pt';
        assert a / PGSIZE == lo + k;
        DropNext(mem, pt, lo, lo + k, lo + npages, doFree, pt1);
        pt' := UnmapPage(root, a, doFree, pt1);
        DroppedUser(pt, lo, lo + k, doFree, pt1);
        MovesTrans(old(mem), old(free), pt, mem1, free1, pt1, mem, free, pt');
        MovesSpace(old(mem), old(free), pt, mem, free, pt');
        k := k + 1;
        a := a + PGSIZE;
      }
    }

    // A round of the loops of uvmalloc and uvmcopy: allocate a page, fill it and map it
    // at va.  If the tables cannot be allocated the page is freed again.
    method NewPage(root: nat, va: nat, words: seq<nat>, perm: nat, ghost pt: Table)
      returns (ok: bool, ghost pa: nat, ghost pt': Table)
      requires Valid() && Space(mem, free, pt) && root == pt.root && |words| == 512 && 1 < perm < 1024
      requires va % PGSIZE == 0 && va < TRAPFRAME && va / PGSIZE !in pt.flat
      modifies this
      ensures Valid() && Moves(old(mem), old(free), pt, mem, free, pt')
      ensures ok ==>
                && pa % PGSIZE == 0 && pa in mem && mem[pa] == words && pa !in pt.user
                && pt'.user == pt.user[pa := va / PGSIZE]
      ensures pt'.flat == if ok then pt.flat[va / PGSIZE := MakePte(pa, perm)] else pt.flat
      ensures !ok ==> pt'.user == pt.user
      ensures ok <==> |old(free)| >= 1 + Lack(pt, Path(va / PGSIZE))
      ensures ok ==> Spent(pt, old(free), Path(va / PGSIZE), 1, pt', free)
    {
      hide Moves, Space, Valid, MakePte, IsRam, Flags, Taken, Holds, SameBut, Path, Paths, Lack, Spent;
      var page := TakePage(words, pt);
      pa := page;
      if page == 0 {
        MovesSelf(mem, free, pt);
        return false, 0, pt;
      }
      ghost var mem1, free1 := mem, free;
      assert (va + PGSIZE - 1) / PGSIZE == va / PGSIZE;
      PathsNext(va / PGSIZE, va / PGSIZE);
      var r;
      ghost var k;
      r, k, pt' := MapPages(root, va, PGSIZE, page, perm, pt);
      ghost var mem2, free2, pt2 := mem, free, pt';
      MapOne(pt.flat, va / PGSIZE, page, perm);
      TakenFacts(end, old(mem), old(free), pt, mem1, free1, pa, mem2, free2, pt2);
      ok := r == 0;
      if ok {
        pt' := pt2.(user := pt2.user[page := va / PGSIZE]);
        PteRoundTrip(page, perm);
        FlagsMore(page, perm);
        NewMoves(old(mem), old(free), pt, mem1, free1, pa, mem2, free2, pt2, va / PGSIZE);
        SpentOneMore(pt, old(free), free1, Path(va / PGSIZE), pt2, free2, pt');
      } else {
        KFree(page);
        ReturnMoves(old(mem), old(free), pt, mem1, free1, pa, mem2, free2, pt2, mem);
      }
    }

    // Allocate a page and fill it.
    method TakePage(words: seq<nat>, ghost pt: Table) returns (page: nat)
      requires Valid() && Space(mem, free, pt) && |words| == 512
      modifies this
      ensures Valid()
      ensures page == 0 ==> unchanged(this) && free == []
      ensures page != 0 ==> IsRam(end, page) && Space(mem, free, pt) && old(free) == [page] + free && page !in free
      ensures page != 0 ==> page in mem && mem[page] == words && SameBut(old(mem), mem, {page})
    {
      hide Tree, Backed, IsRam;
      page := KAlloc();
      if page != 0 {
        ghost var mem0 := mem;
        mem := mem[page := words];
        ChainFrame(mem0, mem, freelist, free);
        SpaceFrame(old(mem), old(free), mem, free, pt, {page});
      }
    }

    // uvmdealloc
    method UvmDealloc(root: nat, oldsz: nat, newsz: nat, ghost pt: Table) returns (r: nat, ghost pt': Table)
      requires Valid() && Space(mem, free, pt) && root == pt.root && Sized(pt, Pages(oldsz))
      modifies this
      ensures Valid() && Moves(old(mem), old(free), pt, mem, free, pt')
      ensures r == if newsz >= oldsz then oldsz else newsz
      ensures Dropped(pt, Pages(r), Pages(oldsz), true, pt') && Sized(pt', Pages(r))
    {
      hide Moves, Tree, Ram, Chain, Flags, Pte2Pa, Mapped, Droppable, Dropped, Sized, Apart;
      if newsz >= oldsz {
        MovesSelf(mem, free, pt);
        DropNothing(pt, Pages(oldsz), true);
        return oldsz, pt;
      }
      RoundUp(oldsz);
      RoundUp(newsz);
      PagesMono(newsz, oldsz);
      r, pt' := newsz, pt;
      if PgRoundUp(newsz) < PgRoundUp(oldsz) {
        SizedDroppable(end, mem, pt, Pages(newsz), Pages(oldsz));
        var npages := (PgRoundUp(oldsz) - PgRoundUp(newsz)) / PGSIZE;
        pt' := UvmUnmap(root, PgRoundUp(newsz), npages, true, pt);
      } else {
        MovesSelf(mem, free, pt);
        DropNothing(pt, Pages(oldsz), true);
      }
      DroppedSized(old(mem), pt, Pages(newsz), Pages(oldsz), pt');
    }

    // uvmalloc.  When memory runs out it takes back every page it gave, and returns 0.
    method UvmAlloc(root: nat, oldsz: nat, newsz: nat, xperm: nat, ghost pt: Table) returns (r: nat, ghost pt': Table)
      requires Valid() && Space(mem, free, pt) && root == pt.root && Sized(pt, Pages(oldsz))
               && xperm in {0, PTE_W, PTE_X, PTE_W + PTE_X}
      modifies this
      ensures Valid() && Moves(old(mem), old(free), pt, mem, free, pt')
      ensures newsz < oldsz ==> r == oldsz && unchanged(this) && pt' == pt
      ensures oldsz <= newsz ==>
                && Pages(oldsz) <= Pages(newsz)
                && if |old(free)| >= Need(pt, Pages(oldsz), Pages(newsz)) then
                     && r == newsz && Sized(pt', Pages(newsz))
                     && Grown(pt, Pages(oldsz), Pages(newsz), Blank(PTE_R + PTE_U + xperm), mem, pt')
                     && Spent(pt, old(free), Paths(Pages(oldsz), Pages(newsz)), Pages(newsz) - Pages(oldsz), pt', free)
                   else r == 0 && pt'.flat == pt.flat && pt'.user == pt.user
    {
      hide Moves, Tree, Ram, Chain, Flags, Pte2Pa, Mapped, Dropped, Sized, Apart, Grown, Growth, Backed, Pages, Path,
           Paths, Lack;
      pt' := pt;
      MovesSelf(mem, free, pt);
      if newsz < oldsz {
        return oldsz, pt;
      }
      PagesMono(oldsz, newsz);
      var perm := PTE_R + PTE_U + xperm;
      ghost var img := Blank(perm);
      var start := PgRoundUp(oldsz);
      RoundUp(oldsz);
      ghost var n, m := Pages(oldsz), Pages(oldsz);
      GrowthStart(mem, free, pt, n, img);
      var a := start;
      while a < newsz
        invariant n <= m && a == m * PGSIZE && start == n * PGSIZE && pt'.root == root && (n < m ==> a < newsz + PGSIZE)
        invariant Valid() && Space(mem, free, pt') && Growth(old(mem), old(free), pt, n, m, img, mem, free, pt')
                  && Sized(pt', m)
      {
        ghost var mem1, free1, pt1 := mem, free, pt';
        var ok;
        ghost var pa;
        SizedNext(end, mem, free, pt1, m);
        assert a / PGSIZE == m;
        PagesStep(newsz, m);
        ok, pa, pt' := NewPage(root, a, Zeros(), perm, pt1);
        if !ok {
          GrowthFails(old(mem), old(free), pt, n, m, img, mem1, free1, pt1, mem, free, pt', Pages(newsz));
          pt' := TakeBack(root, a, start, old(mem), old(free), pt, n, m, img, mem1, free1, pt1, pt');
          return 0, pt';
        }
        GrowthNext(old(mem), old(free), pt, n, m, img, mem1, free1, pt1, mem, free, pt', pa);
        GrowthSpace(old(mem), old(free), pt, n, m + 1, img, mem, free, pt');
        SizedGrow(pt1, m, pt', pa, perm);
        a := a + PGSIZE;
        m := m + 1;
      }
      PagesRound(oldsz, newsz, m);
      GrowthSpace(old(mem), old(free), pt, n, m, img, mem, free, pt');
      GrowthEnds(old(mem), old(free), pt, n, m, img, mem, free, pt');
      r := newsz;
    }

    // The failure path of uvmalloc, when page m could not be added.
    method TakeBack(root: nat, a: nat, start: nat, ghost mem0: Mem, ghost free0: seq<nat>, ghost pt: Table,
                    ghost n: nat, ghost m: nat,
                    ghost img: nat -> Image, ghost mem1: Mem, ghost free1: seq<nat>, ghost pt1: Table, ghost pt2: Table)
      returns (ghost pt': Table)
      requires Valid() && Space(mem0, free0, pt) && Growth(mem0, free0, pt, n, m, img, mem1, free1, pt1)
               && Sized(pt1, m)
      requires Moves(mem1, free1, pt1, mem, free, pt2) && Moves(mem0, free0, pt, mem, free, pt2) && Ram(end, mem0)
      requires pt2.flat == pt1.flat && pt2.user == pt1.user && root == pt2.root && a == m * PGSIZE
               && start == n * PGSIZE
      requires Sized(pt, n) && a < TRAPFRAME
      modifies this
      ensures Valid() && Moves(mem0, free0, pt, mem, free, pt') && pt'.flat == pt.flat && pt'.user == pt.user
    {
      hide Moves, Tree, Ram, Chain, Flags, Pte2Pa, Mapped, Dropped, Sized, Apart, Grown, Growth, Backed, Pages;
      ghost var mem2, free2 := mem, free;
      Unmapped(end, mem0, free0, pt, n);
      GrowthSpace(mem0, free0, pt, n, m, img, mem1, free1, pt1);
      MovesSpace(mem1, free1, pt1, mem, free, pt2);
      SizedSame(pt1, pt2, m);
      WholePages(n, m);
      var r;
      r, pt' := UvmDealloc(root, a, start, pt2);
      GrownDropped(pt, n, m, img, mem1, pt1, pt2, pt');
      MovesTrans(mem0, free0, pt, mem2, free2, pt2, mem, free, pt');
    }

    // A round of the loop of uvmcopy.
    method CopyPage(parent: nat, child: nat, va: nat, ghost src: Table, ghost pt: Table)
      returns (ok: bool, ghost pa: nat, ghost pt': Table)
      requires Valid() && Space(mem, free, src) && Space(mem, free, pt) && parent == src.root && child == pt.root
      requires va % PGSIZE == 0 && va < TRAPFRAME && va / PGSIZE in src.flat && va / PGSIZE !in pt.flat
      requires 1 < Flags(src.flat[va / PGSIZE]) < 1024
      requires Pte2Pa(src.flat[va / PGSIZE]) in mem
      modifies this
      ensures Valid() && Moves(old(mem), old(free), pt, mem, free, pt')
      ensures ok ==> pa % PGSIZE == 0 && pa in mem && mem[pa] == old(mem)[Pte2Pa(src.flat[va / PGSIZE])]
      ensures ok ==> pa !in pt.user && pt'.user == pt.user[pa := va / PGSIZE]
      ensures pt'.flat == if ok then pt.flat[va / PGSIZE := MakePte(pa, Flags(src.flat[va / PGSIZE]))] else pt.flat
      ensures !ok ==> pt'.user == pt.user
      ensures ok <==> |old(free)| >= 1 + Lack(pt, Path(va / PGSIZE))
      ensures ok ==> Spent(pt, old(free), Path(va / PGSIZE), 1, pt', free)
    {
      hide Moves, Right, Inverse, Parent, Chain, Flags, Pte2Pa, MakePte, On, Path, Spent, Lack;
      OnEnds(va);
      var page, index;
      ok, page, index, pt' := Walk(parent, va, false, src);
      Bottom(mem, src, va);
      var pte := mem[page][index];
      ok, pa, pt' := NewPage(child, va, mem[Pte2Pa(pte)], Flags(pte), pt);
    }

    // uvmcopy: give the table pt, of root `child`, copies of the pages below sz of the
    // table src, of root `parent`.  It panics unless those are mapped in src and not in
    // pt.  When memory runs out it takes back every page it gave, and returns -1.
    method UvmCopy(parent: nat, child: nat, sz: nat, ghost src: Table, ghost pt: Table)
      returns (r: int, ghost pt': Table)
      requires Valid() && Space(mem, free, src) && Space(mem, free, pt) && Foreign(pt, src) && parent == src.root
               && child == pt.root
      requires Sized(src, Pages(sz)) && forall v :: 0 <= v < Pages(sz) ==> v !in pt.flat
      modifies this
      ensures Valid() && Moves(old(mem), old(free), pt, mem, free, pt') && Space(mem, free, src) && Foreign(pt', src)
      ensures forall p :: p in src.user ==> p in old(mem) && p in mem && mem[p] == old(mem)[p]
      ensures if |old(free)| >= Need(pt, 0, Pages(sz)) then
                r == 0 && Grown(pt, 0, Pages(sz), CopyOf(old(mem), src), mem, pt')
              else r == -1 && pt'.flat == pt.flat && pt'.user == pt.user
    {
      hide Moves, Tree, Ram, Chain, Flags, Pte2Pa, Mapped, Dropped, Sized, Apart, Grown, Growth, Backed, Pages,
           CopyOf, On, Path, Paths, Lack, Spent;
      ghost var img, n := CopyOf(mem, src), Pages(sz);
      GrowthStart(mem, free, pt, 0, img);
      MovesSelf(mem, free, pt);
      PagesUp(sz);
      pt' := pt;
      var i := 0;
      ghost var k := 0;
      while i < sz
        invariant i == k * PGSIZE && pt'.root == child && k <= n
        invariant Valid() && Space(mem, free, pt') && Growth(old(mem), old(free), pt, 0, k, img, mem, free, pt')
      {
        ghost var mem1, free1, pt1 := mem, free, pt';
        CopyReady(end, old(mem), old(free), pt, src, n, k, img, mem1, free1, pt1);
        PagesStep(sz, k);
        var ok;
        ghost var pa;
        ok, pa, pt' := CopyPage(parent, child, i, src, pt1);
        if !ok {
          GrowthFails(old(mem), old(free), pt, 0, k, img, mem1, free1, pt1, mem, free, pt', n);
          pt' := DropCopies(child, i, old(mem), old(free), pt, k, img, mem1, free1, pt1, pt');
          SpaceOther(old(mem), old(free), pt, mem, free, pt', src);
          return -1, pt';
        }
        GrowthNext(old(mem), old(free), pt, 0, k, img, mem1, free1, pt1, mem, free, pt', pa);
        GrowthSpace(old(mem), old(free), pt, 0, k + 1, img, mem, free, pt');
        i := i + PGSIZE;
        k := k + 1;
      }
      PagesEnd(sz, k);
      GrowthSpace(old(mem), old(free), pt, 0, k, img, mem, free, pt');
      GrowthEnds(old(mem), old(free), pt, 0, k, img, mem, free, pt');
      SpaceOther(old(mem), old(free), pt, mem, free, pt', src);
      r := 0;
    }

    // The failure path of uvmcopy, when page k could not be copied.
    method DropCopies(child: nat, i: nat, ghost mem0: Mem, ghost free0: seq<nat>, ghost pt: Table, ghost k: nat,
                      ghost img: nat -> Image, ghost mem1: Mem, ghost free1: seq<nat>, ghost pt1: Table,
                          ghost pt2: Table)
      returns (ghost pt': Table)
      requires Valid() && Space(mem0, free0, pt) && Growth(mem0, free0, pt, 0, k, img, mem1, free1, pt1)
               && i == k * PGSIZE
      requires Moves(mem1, free1, pt1, mem, free, pt2) && Moves(mem0, free0, pt, mem, free, pt2)
      requires pt2.flat == pt1.flat && pt2.user == pt1.user && child == pt2.root && i <= MAXVA
      requires forall v :: 0 <= v < k ==> v !in pt.flat
      modifies this
      ensures Valid() && Moves(mem0, free0, pt, mem, free, pt') && pt'.flat == pt.flat && pt'.user == pt.user
    {
      hide Moves, Space, Ram, Chain, Dropped, Droppable, Grown, Growth, Backed;
      ghost var mem2, free2 := mem, free;
      MovesBacked(mem1, free1, pt1, mem, free, pt2);
      GrowthSpace(mem0, free0, pt, 0, k, img, mem1, free1, pt1);
      MovesSpace(mem1, free1, pt1, mem, free, pt2);
      GrownDroppable(pt, k, img, mem1, pt1, mem2, pt2);
      assert i / PGSIZE == k;
      pt' := UvmUnmap(child, 0, i / PGSIZE, true, pt2);
      assert Dropped(pt2, 0, k, true, pt');
      GrownUndone(mem0, free0, pt, k, img, mem1, pt1, pt2, pt');
      MovesTrans(mem0, free0, pt, mem2, free2, pt2, mem, free, pt');
    }

    // freewalk, on the page of node n of pt.  It panics if a leaf is left.
    method FreeWalk(table: nat, ghost pt: Table, ghost n: Node)
      requires Valid() && Inverse(pt) && Shaped(pt) && n in pt.page && table == pt.page[n] && pt.flat == map[]
      requires Intact(mem, pt, n) && forall p :: p in Sub(pt, n) ==> p !in free
      modifies this
      ensures Valid() && Released(old(free), free, Sub(pt, n)) && SameBut(old(mem), mem, Sub(pt, n))
      decreases n.level
    {
      hide Inverse, Shaped, Intact, Freeing, SameBut, Sub, NoAccess, Pte2Pa, Chain, IsRam;
      FreeingStart(mem, free, pt, n);
      for i := 0 to 512
        invariant Valid() && Freeing(old(mem), old(free), pt, n, i, mem, free)
      {
        ghost var mem1, free1 := mem, free;
        FreeingEntry(old(mem), old(free), pt, n, i, mem, free);
        FreeingTable(old(mem), old(free), pt, n, i, mem, free);
        var pte := mem[table][i];
        if IsValid(pte) && NoAccess(pte) {
          FreeingKid(old(mem), old(free), pt, n, i, mem, free);
          FreeWalk(Pte2Pa(pte), pt, Kid(n, i));
          FreeingNext(old(mem), old(free), pt, n, i, mem1, free1, mem, free);
          StoreEntry(table, i, 0);
        } else {
          FreeingSkip(old(mem), old(free), pt, n, i, mem, free);
        }
      }
      FreeingTable(old(mem), old(free), pt, n, 512, mem, free);
      ghost var mem1, free1 := mem, free;
      KFree(table);
      FreeingEnd(old(mem), old(free), pt, n, mem1, free1, mem, free);
    }

    // uvmfree.  It panics unless the pages below sz are all that is mapped.
    method UvmFree(root: nat, sz: nat, ghost pt: Table)
      requires Valid() && Space(mem, free, pt) && root == pt.root
      requires Sized(pt, Pages(sz)) && forall v :: v in pt.flat ==> v < Pages(sz)
      modifies this
      ensures Valid() && GivenBack(old(mem), old(free), pt, mem, free)
    {
      hide Moves, Tree, Ram, Chain, Flags, Pte2Pa, Mapped, Droppable, Dropped, Sized, Apart, GivenBack, Released,
           SameBut, Sub, Intact;
      ghost var pt1 := pt;
      MovesSelf(mem, free, pt);
      DropNothing(pt, 0, true);
      if sz > 0 {
        RoundUp(sz);
        SizedDroppable(end, mem, pt, 0, Pages(sz));
        pt1 := UvmUnmap(root, 0, PgRoundUp(sz) / PGSIZE, true, pt);
      }
      AllDropped(old(mem), pt, Pages(sz), pt1);
      MovesSpace(old(mem), old(free), pt, mem, free, pt1);
      RootReady(mem, free, pt1);
      ghost var mem1, free1 := mem, free;
      FreeWalk(root, pt1, ROOT);
      TablesBack(old(mem), old(free), pt, mem1, free1, pt1, mem, free);
    }

    // proc_freepagetable: every user page and every table page becomes free; the pages
    // of the trapframe and the trampoline do not.
    method ProcFreePagetable(root: nat, sz: nat, ghost pt: Table)
      requires Valid() && Space(mem, free, pt) && root == pt.root && UserTable(pt, Pages(sz))
      modifies this
      ensures Valid() && GivenBack(old(mem), old(free), pt, mem, free)
    {
      hide Moves, Tree, Ram, Chain, Flags, Pte2Pa, Mapped, Droppable, Dropped, Sized, Apart, GivenBack, Pages;
      SizedDroppable(end, mem, pt, 0, Pages(sz));
      TopDroppable(mem, free, pt, TRAMPOLINE / PGSIZE);
      ghost var pt1 := UvmUnmap(root, TRAMPOLINE, 1, false, pt);
      ghost var mem1, free1 := mem, free;
      MovesSpace(old(mem), old(free), pt, mem, free, pt1);
      TopKept(pt, Pages(sz), pt1);
      TopDroppable(mem, free, pt1, TRAPFRAME / PGSIZE);
      ghost var pt2 := UvmUnmap(root, TRAPFRAME, 1, false, pt1);
      ghost var mem2, free2 := mem, free;
      MovesSpace(mem1, free1, pt1, mem, free, pt2);
      TopsDropped(pt, Pages(sz), pt1, pt2);
      UvmFree(root, sz, pt2);
      BackAfter(mem1, free1, pt1, mem2, free2, pt2, mem, free);
      BackAfter(old(mem), old(free), pt, mem1, free1, pt1, mem, free);
    }

    // uvmcreate.  Returns 0 when no page is free.
    method UvmCreate() returns (root: nat)
      requires Valid()
      modifies this
      ensures Valid()
      ensures root == 0 ==> unchanged(this) && free == []
      ensures root != 0 ==> Space(mem, free, EmptyTable(root)) && Born(old(mem), old(free), mem, free, EmptyTable(root))
      ensures root != 0 ==> |old(free)| == |free| + 1
    {
      hide Space, Born;
      root := KAlloc();
      if root != 0 {
        ghost var mem0 := mem;
        mem := mem[root := Zeros()];
        ChainFrame(mem0, mem, freelist, free);
        assert old(free) == [root] + free;
        EmptyBorn(old(mem), old(free), mem, free, root);
      }
    }

    // proc_pagetable, for a process whose trapframe page is given.  Returns 0 when
    // memory runs out, and then no page is lost.
    method ProcPagetable(trampoline: nat, trapframe: nat) returns (root: nat, ghost pt: Table)
      requires Valid()
      modifies this
      ensures Valid()
      ensures root == 0 <==> |old(free)| < 3
      ensures root == 0 ==> Restored(old(mem), old(free), mem, free)
      ensures root != 0 ==>
                && root == pt.root && Space(mem, free, pt) && Born(old(mem), old(free), mem, free, pt)
                && UserTable(pt, 0) && pt.user == map[]
                && pt.flat == map[TRAMPOLINE / PGSIZE := MakePte(trampoline, PTE_R + PTE_X),
                                  TRAPFRAME / PGSIZE := MakePte(trapframe, PTE_R + PTE_W)]
    {
      hide Space, Born, Restored, Moves, Valid, MakePte, UserTable, Droppable, Dropped, GivenBack, Sized, Flags, Path,
           Paths, Lack;
      root := UvmCreate();
      pt := EmptyTable(root);
      if root == 0 {
        assert Restored(mem, free, mem, free) by { RestoredSelf(mem, free); }
        return;
      }
      var r;
      ghost var k;
      TopPaths(root);
      PathsNext(TRAMPOLINE / PGSIZE, TRAMPOLINE / PGSIZE);
      PathsNext(TRAPFRAME / PGSIZE, TRAPFRAME / PGSIZE);
      ghost var mem0, free0, pt0 := mem, free, pt;
      r, k, pt := MapPages(root, TRAMPOLINE, PGSIZE, trampoline, PTE_R + PTE_X, pt0);
      MapOne(pt0.flat, TRAMPOLINE / PGSIZE, trampoline, PTE_R + PTE_X);
      ghost var mem1, free1, pt1 := mem, free, pt;
      if r == 0 {
        LackNone(pt1, Path(TRAMPOLINE / PGSIZE));
      }
      MovesSpace(mem0, free0, pt0, mem1, free1, pt1);
      BornMoves(old(mem), old(free), mem0, free0, pt0, mem1, free1, pt1);
      if r < 0 {
        NoPages(pt1);
        UvmFree(root, 0, pt1);
        BornBack(old(mem), old(free), mem1, free1, pt1, mem, free);
        return 0, pt1;
      }
      r, k, pt := MapPages(root, TRAPFRAME, PGSIZE, trapframe, PTE_R + PTE_W, pt1);
      MapOne(pt1.flat, TRAPFRAME / PGSIZE, trapframe, PTE_R + PTE_W);
      ghost var mem2, free2, pt2 := mem, free, pt;
      MovesSpace(mem1, free1, pt1, mem2, free2, pt2);
      BornMoves(old(mem), old(free), mem1, free1, pt1, mem2, free2, pt2);
      if r < 0 {
        // The table pages for the trapframe are those for the trampoline.
        assert false;
      }
      FreshUserTable(pt, trampoline, trapframe);
    }
  }

  // The memory of a process.
  class Process {
    const memory: Memory
    var pagetable: nat
    var sz: nat
    ghost var pt: Table

    // The mapped user pages are exactly those below PGROUNDUP(sz).
    ghost predicate Valid()
      reads this, memory
    {
      memory.Valid() && Space(memory.mem, memory.free, pt) && pagetable == pt.root && UserTable(pt, Pages(sz))
    }

    // A process with the table that proc_pagetable made, and no user memory.
    constructor (memory: Memory, root: nat, ghost pt: Table)
      requires memory.Valid() && Space(memory.mem, memory.free, pt) && root == pt.root && UserTable(pt, 0)
      ensures Valid() && this.memory == memory && this.pt == pt && sz == 0
    {
      this.memory, pagetable, sz, this.pt := memory, root, 0, pt;
    }

    // growproc.  The new size is computed in 64 bits, so that shrinking below 0 wraps
    // around and is then ignored.
    method GrowProc(n: int) returns (r: int)
      requires Valid() && -0x8000_0000 <= n < 0x8000_0000
      modifies this, memory
      ensures Valid() && Moves(old(memory.mem), old(memory.free), old(pt), memory.mem, memory.free, pt)
      ensures r == -1 ==> n > 0 && sz == old(sz) && pt.flat == old(pt).flat && pt.user == old(pt).user
      ensures n > 0 ==> Pages(old(sz)) <= Pages(old(sz) + n)
      ensures n > 0 ==> (r == -1 <==> |old(memory.free)| < Need(old(pt), Pages(old(sz)), Pages(old(sz) + n)))
      ensures r != -1 ==> r == 0 && sz == if old(sz) + n >= 0 then old(sz) + n else old(sz)
      ensures r == 0 && n > 0
              ==> Grown(old(pt), Pages(old(sz)), Pages(sz), Blank(PTE_R + PTE_U + PTE_W), memory.mem, pt)
      ensures n <= 0 ==> Dropped(old(pt), Pages(sz), Pages(old(sz)), true, pt)
    {
      hide Moves, Space, Sized, Mapped, Pages, Grown, Dropped, Flags, UserTable, Ram, Chain, Need, Spent;
      MovesSelf(memory.mem, memory.free, pt);
      UserSized(pt, Pages(sz));
      SizeLimit(memory.end, memory.mem, memory.free, pt, sz);
      ghost var pt0, n0 := pt, Pages(sz);
      var size := sz;
      if n > 0 {
        size, pt := memory.UvmAlloc(pagetable, sz, (sz + n) % 0x1_0000_0000_0000_0000, PTE_W, pt);
        MovesSpace(old(memory.mem), old(memory.free), pt0, memory.mem, memory.free, pt);
        if size == 0 {
          UserTableSame(pt0, n0, pt);
          return -1;
        }
        PagesMono(sz, size);
        SizeLimit(memory.end, memory.mem, memory.free, pt, size);
        UserTableGrown(pt0, n0, Pages(size), Blank(PTE_R + PTE_U + PTE_W), memory.mem, pt);
      } else if n < 0 {
        size, pt := memory.UvmDealloc(pagetable, sz, (sz + n) % 0x1_0000_0000_0000_0000, pt);
        MovesSpace(old(memory.mem), old(memory.free), pt0, memory.mem, memory.free, pt);
        PagesMono(size, sz);
        UserTableDropped(pt0, Pages(size), n0, pt);
      } else {
        DropNothing(pt, Pages(sz), true);
      }
      sz := size;
      r := 0;
    }
  }
}
