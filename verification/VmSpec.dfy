// Sv39 page tables as kernel/vm.c keeps them: three levels of pages of 512 entries.
// A table is described by a tree of nodes, and refines a flat map from virtual page
// numbers to entries.
module VmSpec {
  import opened Common

  const PGSIZE := 4096
  const MAXVA := 0x40_0000_0000
  const TRAMPOLINE := MAXVA - PGSIZE
  const TRAPFRAME := TRAMPOLINE - PGSIZE
  const PHYSTOP := 0x8800_0000
  const KERNBASE := 0x8000_0000

  const PTE_V := 1
  const PTE_R := 2
  const PTE_W := 4
  const PTE_X := 8
  const PTE_U := 16

  // Physical memory: the 512 words of each page, by the address of the page.
  type Mem = map<nat, seq<nat>>

  function Store(mem: Mem, p: nat, k: nat, w: nat): Mem
    requires p in mem && k < |mem[p]|
  {
    var words: seq<nat> := mem[p][k := w];
    mem[p := words]
  }

  function PgRoundUp(a: nat): nat { (a + PGSIZE - 1) / PGSIZE * PGSIZE }
  function PgRoundDown(a: nat): nat { a / PGSIZE * PGSIZE }

  // ----- entries

  function Pa2Pte(pa: nat): nat { pa / PGSIZE * 1024 }
  function Pte2Pa(pte: nat): nat { pte / 1024 * PGSIZE }
  function Flags(pte: nat): nat { pte % 1024 }
  predicate IsValid(pte: nat) { pte % 2 == 1 }
  predicate IsUser(pte: nat) { pte / 16 % 2 == 1 }
  // Neither readable, writable nor executable: an entry that points to a table.
  predicate NoAccess(pte: nat) { pte / 2 % 8 == 0 }

  // PA2PTE(pa) | perm | PTE_V
  function MakePte(pa: nat, perm: nat): nat {
    Pa2Pte(pa) + if perm % 2 == 1 then perm else perm + 1
  }

  lemma PteRoundTrip(pa: nat, perm: nat)
    requires pa % PGSIZE == 0 && perm < 1024
    ensures var e := MakePte(pa, perm);
            && Pte2Pa(e) == pa && IsValid(e) && Flags(e) == (if perm % 2 == 1 then perm else perm + 1)
            && (NoAccess(e) <==> NoAccess(perm)) && (IsUser(e) <==> IsUser(perm))
  {
    var f := if perm % 2 == 1 then perm else perm + 1;
    Fields(pa / PGSIZE, f);
    assert f / 2 == perm / 2;
    assert f / 16 == f / 2 / 8 && perm / 16 == perm / 2 / 8;
  }

  lemma Fields(q: nat, f: nat)
    requires f < 1024
    ensures var e := q * 1024 + f;
            e / 1024 == q && e % 1024 == f && e % 2 == f % 2 && e / 2 % 8 == f / 2 % 8 && e / 16 % 2 == f / 16 % 2
  {
    var e := q * 1024 + f;
    assert e / 2 == q * 64 * 8 + f / 2;
    assert e / 16 == q * 32 * 2 + f / 16;
  }

  lemma MakeValid(pa: nat, perm: nat)
    requires perm < 1024
    ensures IsValid(MakePte(pa, perm))
  {
    Fields(pa / PGSIZE, if perm % 2 == 1 then perm else perm + 1);
  }

  // ----- the tree

  // The table page at a level whose addresses begin with the given prefix: at level l
  // the prefix is the virtual page number without its last 9 * (l + 1) bits.
  datatype Node = Node(level: nat, prefix: nat)

  const ROOT := Node(2, 0)

  // A page table: its pages with their nodes, both ways round, its translations by
  // virtual page number, and the user pages that it owns with their page numbers.
  datatype Table = Table(root: nat, own: map<nat, Node>, page: map<Node, nat>, flat: map<nat, nat>, user: map<nat, nat>)

  predicate IsNode(n: Node) {
    (n.level == 2 && n.prefix == 0) || (n.level == 1 && n.prefix < 512) || (n.level == 0 && n.prefix < 512 * 512)
  }

  function Kid(n: Node, k: nat): Node
    requires n.level > 0
  {
    Node(n.level - 1, n.prefix * 512 + k)
  }

  function Parent(n: Node): Node { Node(n.level + 1, n.prefix / 512) }

  // Word k of the page of node n.
  function WordAt(pt: Table, n: Node, k: nat): nat {
    if n.level > 0 then if Kid(n, k) in pt.page then MakePte(pt.page[Kid(n, k)], 0) else 0
    else if n.prefix * 512 + k in pt.flat then pt.flat[n.prefix * 512 + k] else 0
  }

  ghost predicate Right(mem: Mem, pt: Table, n: Node)
    requires n in pt.page
  {
    pt.page[n] in mem && |mem[pt.page[n]]| == 512 && forall k :: 0 <= k < 512 ==> mem[pt.page[n]][k] == WordAt(pt, n, k)
  }

  ghost predicate Inverse(pt: Table) {
    && (forall p :: p in pt.own ==> pt.own[p] in pt.page && pt.page[pt.own[p]] == p)
    && (forall n :: n in pt.page ==> pt.page[n] in pt.own && pt.own[pt.page[n]] == n)
  }

  ghost predicate Shaped(pt: Table) {
    && ROOT in pt.page && pt.page[ROOT] == pt.root
    && (forall n :: n in pt.page ==> IsNode(n) && pt.page[n] % PGSIZE == 0)
    && (forall n :: n in pt.page && n.level < 2 ==> Parent(n) in pt.page)
    && (forall v :: v in pt.flat ==> IsValid(pt.flat[v]) && Node(0, v / 512) in pt.page)
  }

  // The memory holds the page table pt.
  ghost predicate Tree(mem: Mem, pt: Table) {
    Inverse(pt) && Shaped(pt) && forall n :: n in pt.page ==> Right(mem, pt, n)
  }

  lemma TreeFrame(mem: Mem, mem': Mem, pt: Table)
    requires Tree(mem, pt)
    requires forall p :: p in pt.own ==> p in mem' && (p in mem ==> mem'[p] == mem[p])
    ensures Tree(mem', pt)
  {
    forall n | n in pt.page ensures Right(mem', pt, n) {
      assert Right(mem, pt, n);
    }
  }

  function AddTable(pt: Table, n: Node, pa: nat): Table {
    pt.(own := pt.own[pa := n], page := pt.page[n := pa])
  }

  function Zeros(): (r: seq<nat>)
    ensures |r| == 512 && forall k :: 0 <= k < 512 ==> r[k] == 0
  {
    seq(512, _ => 0)
  }

  // A new, empty table page for kid k of node n.
  lemma TreeAdd(mem: Mem, mem': Mem, pt: Table, n: Node, k: nat, pa: nat)
    requires Tree(mem, pt) && n in pt.page && n.level > 0 && k < 512
    requires Kid(n, k) !in pt.page && pa !in pt.own && pa % PGSIZE == 0
    requires var p := pt.page[n]; p in mem && |mem[p]| == 512 && mem' == Store(mem[pa := Zeros()], p, k, MakePte(pa, 0))
    ensures Tree(mem', AddTable(pt, Kid(n, k), pa))
  {
    hide Inverse, Shaped, Right;
    ShapedAdd(pt, n, k, pa);
    InverseAdd(pt, n, k, pa);
    forall m | m in AddTable(pt, Kid(n, k), pa).page ensures Right(mem', AddTable(pt, Kid(n, k), pa), m) {
      RightAdd(mem, mem', pt, n, k, pa, m);
    }
  }

  lemma RightAdd(mem: Mem, mem': Mem, pt: Table, n: Node, k: nat, pa: nat, m: Node)
    requires Tree(mem, pt) && n in pt.page && n.level > 0 && k < 512
    requires Kid(n, k) !in pt.page && pa !in pt.own
    requires var p := pt.page[n]; p in mem && |mem[p]| == 512 && mem' == Store(mem[pa := Zeros()], p, k, MakePte(pa, 0))
    requires m in pt.page || m == Kid(n, k)
    ensures Right(mem', AddTable(pt, Kid(n, k), pa), m)
  {
    hide WordAt, MakePte, Shaped;
    if m == Kid(n, k) {
      EmptyKid(pt, n, k, pa);
    } else {
      assert Right(mem, pt, m);
      OtherNode(pt, n, k, pa, m);
    }
  }

  lemma InverseAdd(pt: Table, n: Node, k: nat, pa: nat)
    requires Inverse(pt) && n.level > 0 && Kid(n, k) !in pt.page && pa !in pt.own
    ensures Inverse(AddTable(pt, Kid(n, k), pa))
  {
  }

  lemma ShapedAdd(pt: Table, n: Node, k: nat, pa: nat)
    requires Shaped(pt) && n in pt.page && n.level > 0 && k < 512 && Kid(n, k) !in pt.page && pa % PGSIZE == 0
    ensures Shaped(AddTable(pt, Kid(n, k), pa))
  {
    assert Parent(Kid(n, k)) == n;
    assert IsNode(n);
  }

  // The new page is empty: nothing is mapped below a node that is not in the tree.
  lemma EmptyKid(pt: Table, n: Node, k: nat, pa: nat)
    requires Shaped(pt) && n in pt.page && n.level > 0 && k < 512 && Kid(n, k) !in pt.page
    ensures forall j :: 0 <= j < 512 ==> WordAt(AddTable(pt, Kid(n, k), pa), Kid(n, k), j) == 0
  {
    hide MakePte;
    var c := Kid(n, k);
    forall j | 0 <= j < 512 ensures WordAt(AddTable(pt, c, pa), c, j) == 0 {
      if c.level > 0 {
        assert Parent(Kid(c, j)) == c;
      } else {
        assert (c.prefix * 512 + j) / 512 == c.prefix;
      }
    }
  }

  // The other pages keep their words, but for the entry that points to the new one.
  lemma OtherNode(pt: Table, n: Node, k: nat, pa: nat, m: Node)
    requires n.level > 0 && k < 512
    ensures forall j :: 0 <= j < 512 ==>
              WordAt(AddTable(pt, Kid(n, k), pa), m, j) == if m == n && j == k then MakePte(pa, 0) else WordAt(pt, m, j)
  {
    hide MakePte;
    forall j | 0 <= j < 512
      ensures WordAt(AddTable(pt, Kid(n, k), pa), m, j) == if m == n && j == k then MakePte(pa, 0) else WordAt(pt, m, j)
    {
      if m.level > 0 && Kid(m, j) == Kid(n, k) {
        assert m.prefix * 512 + j == n.prefix * 512 + k;
        assert m.prefix == n.prefix && j == k;
      }
    }
  }

  // Changing the translation of v changes one word.
  lemma LeafWord(pt: Table, pt': Table, v: nat, m: Node)
    requires pt'.page == pt.page
    requires forall u: nat :: u != v ==>
               (u in pt.flat <==> u in pt'.flat) && (u in pt.flat ==> pt.flat[u] == pt'.flat[u])
    ensures forall j :: 0 <= j < 512 && (m != Node(0, v / 512) || j != v % 512) ==>
              WordAt(pt', m, j) == WordAt(pt, m, j)
    ensures WordAt(pt', Node(0, v / 512), v % 512) == if v in pt'.flat then pt'.flat[v] else 0
  {
    hide MakePte;
    forall j | 0 <= j < 512 && (m != Node(0, v / 512) || j != v % 512) ensures WordAt(pt', m, j) == WordAt(pt, m, j) {
      if m.level == 0 && m.prefix * 512 + j == v {
        assert false;
      }
    }
  }

  lemma RightLeaf(mem: Mem, pt: Table, pt': Table, v: nat, w: nat, m: Node)
    requires Tree(mem, pt) && Node(0, v / 512) in pt.page && m in pt.page && pt'.page == pt.page
    requires forall u: nat :: u != v ==>
               (u in pt.flat <==> u in pt'.flat) && (u in pt.flat ==> pt.flat[u] == pt'.flat[u])
    requires w == if v in pt'.flat then pt'.flat[v] else 0
    ensures var p := pt.page[Node(0, v / 512)]; p in mem && |mem[p]| == 512 && Right(Store(mem, p, v % 512, w), pt', m)
  {
    hide WordAt, Shaped;
    assert Right(mem, pt, m);
    assert Right(mem, pt, Node(0, v / 512));
    LeafWord(pt, pt', v, m);
  }

  // Storing w changes the translation of v alone.
  lemma Retranslate(mem: Mem, pt: Table, pt': Table, v: nat, w: nat)
    requires Tree(mem, pt) && Node(0, v / 512) in pt.page && Shaped(pt')
    requires pt' == pt.(flat := pt'.flat) && w == if v in pt'.flat then pt'.flat[v] else 0
    requires forall u: nat :: u != v ==>
               (u in pt.flat <==> u in pt'.flat) && (u in pt.flat ==> pt.flat[u] == pt'.flat[u])
    ensures var p := pt.page[Node(0, v / 512)]; p in mem && |mem[p]| == 512 && Tree(Store(mem, p, v % 512, w), pt')
  {
    hide Right, Shaped, Store;
    RightLeaf(mem, pt, pt', v, w, Node(0, v / 512));
    forall m | m in pt.page ensures Right(Store(mem, pt.page[Node(0, v / 512)], v % 512, w), pt', m) {
      RightLeaf(mem, pt, pt', v, w, m);
    }
  }

  function Translate(pt: Table, v: nat, pte: nat): Table { pt.(flat := pt.flat[v := pte]) }

  // Writing an entry of the lowest level maps one page.
  lemma TreeMap(mem: Mem, pt: Table, v: nat, pte: nat)
    requires Tree(mem, pt) && Node(0, v / 512) in pt.page && IsValid(pte)
    ensures var p := pt.page[Node(0, v / 512)];
            p in mem && |mem[p]| == 512 && Tree(Store(mem, p, v % 512, pte), Translate(pt, v, pte))
  {
    hide Inverse, Right, Parent;
    assert Shaped(Translate(pt, v, pte));
    Retranslate(mem, pt, Translate(pt, v, pte), v, pte);
  }

  function Untranslate(pt: Table, v: nat): Table { pt.(flat := pt.flat - {v}) }

  // Clearing an entry of the lowest level unmaps one page.
  lemma TreeUnmap(mem: Mem, pt: Table, v: nat)
    requires Tree(mem, pt) && Node(0, v / 512) in pt.page
    ensures var p := pt.page[Node(0, v / 512)];
            p in mem && |mem[p]| == 512 && Tree(Store(mem, p, v % 512, 0), Untranslate(pt, v))
  {
    hide Inverse, Right, Parent;
    assert Shaped(Untranslate(pt, v));
    Retranslate(mem, pt, Untranslate(pt, v), v, 0);
  }

  // ----- walking down

  // PX(level, va)
  function Px(level: nat, va: nat): nat
    requires level <= 2
  {
    va / (if level == 0 then 0x1000 else if level == 1 then 0x20_0000 else 0x4000_0000) % 512
  }

  // The node at a level on the way to va.
  function On(level: nat, va: nat): Node
    requires level <= 2
  {
    Node(level, va / (if level == 0 then 0x20_0000 else if level == 1 then 0x4000_0000 else 0x80_0000_0000))
  }

  lemma OnKid(level: nat, va: nat)
    requires 0 < level <= 2 && va < MAXVA
    ensures Px(level, va) < 512 && Kid(On(level, va), Px(level, va)) == On(level - 1, va)
  {
    if level == 2 {
      assert va / 0x80_0000_0000 == 0;
      assert va / 0x4000_0000 < 512;
    } else {
      assert va / 0x20_0000 / 512 == va / 0x4000_0000;
    }
  }

  lemma OnEnds(va: nat)
    requires va < MAXVA
    ensures On(2, va) == ROOT
    ensures On(0, va) == Node(0, va / PGSIZE / 512) && Px(0, va) == va / PGSIZE % 512
  {
  }

  // What one step of the walk reads.
  lemma Descend(mem: Mem, pt: Table, level: nat, va: nat)
    requires Tree(mem, pt) && 0 < level <= 2 && va < MAXVA && On(level, va) in pt.page
    ensures var p, k, c := pt.page[On(level, va)], Px(level, va), On(level - 1, va);
            && k < 512 && p in mem && |mem[p]| == 512
            && (if c in pt.page then IsValid(mem[p][k]) && Pte2Pa(mem[p][k]) == pt.page[c] else mem[p][k] == 0)
  {
    hide On, Px, MakePte, Pte2Pa, Parent;
    OnKid(level, va);
    assert Right(mem, pt, On(level, va));
    var c := On(level - 1, va);
    if c in pt.page {
      assert pt.page[c] % PGSIZE == 0;
      PteRoundTrip(pt.page[c], 0);
    }
  }

  // What the walk finds at the bottom.
  lemma Bottom(mem: Mem, pt: Table, va: nat)
    requires Tree(mem, pt) && va < MAXVA && On(0, va) in pt.page
    ensures var p, v := pt.page[On(0, va)], va / PGSIZE;
            p in mem && |mem[p]| == 512 && mem[p][v % 512] == if v in pt.flat then pt.flat[v] else 0
  {
    hide Inverse, Shaped, MakePte;
    OnEnds(va);
    var n := Node(0, va / PGSIZE / 512);
    assert Right(mem, pt, n);
    assert n.prefix * 512 + va / PGSIZE % 512 == va / PGSIZE;
  }

  // ----- how many pages an address range needs

  // The table pages on the way to virtual page v, below the root.
  function Path(v: nat): set<Node> {
    {Node(1, v / 512 / 512), Node(0, v / 512)}
  }

  // The table pages for the virtual pages lo .. hi.
  function Paths(lo: nat, hi: nat): set<Node>
    decreases hi
  {
    if hi <= lo then {} else Paths(lo, hi - 1) + Path(hi - 1)
  }

  // How many of the nodes s have no table page in pt.
  function Lack(pt: Table, s: set<Node>): nat {
    |s - pt.page.Keys|
  }

  // The pages it takes to map new memory at the virtual pages lo .. hi.
  function Need(pt: Table, lo: nat, hi: nat): nat
    requires lo <= hi
  {
    hi - lo + Lack(pt, Paths(lo, hi))
  }

  // pt' has table pages for the nodes s in addition, taken from the free list along
  // with `data` others.
  ghost predicate Spent(pt: Table, free: seq<nat>, s: set<Node>, data: nat, pt': Table, free': seq<nat>) {
    pt'.page.Keys == pt.page.Keys + s && |free| == |free'| + data + Lack(pt, s)
  }

  lemma LackMore(pt: Table, s: set<Node>, pt1: Table, t: set<Node>)
    requires pt1.page.Keys == pt.page.Keys + s
    ensures Lack(pt, s + t) == Lack(pt, s) + Lack(pt1, t)
  {
    assert s + t - pt.page.Keys == (s - pt.page.Keys) + (t - pt1.page.Keys);
    assert (s - pt.page.Keys) !! (t - pt1.page.Keys);
  }

  lemma LackLess(pt: Table, s: set<Node>, t: set<Node>)
    requires s <= t
    ensures Lack(pt, s) <= Lack(pt, t)
  {
    SubsetSize(s - pt.page.Keys, t - pt.page.Keys);
  }

  lemma LackNone(pt: Table, s: set<Node>)
    requires s <= pt.page.Keys
    ensures Lack(pt, s) == 0
  {
    assert s - pt.page.Keys == {};
  }

  lemma LackOne(pt: Table, n: Node)
    ensures Lack(pt, {n}) == if n in pt.page then 0 else 1
  {
    assert {n} - pt.page.Keys == if n in pt.page then {} else {n};
  }

  // Spending on s and then on t.
  lemma SpentTrans(pt: Table, free: seq<nat>, s: set<Node>, k: nat, pt1: Table, free1: seq<nat>, t: set<Node>, m: nat,
                   pt2: Table, free2: seq<nat>)
    requires Spent(pt, free, s, k, pt1, free1) && Spent(pt1, free1, t, m, pt2, free2)
    ensures Spent(pt, free, s + t, k + m, pt2, free2)
  {
    hide Lack;
    LackMore(pt, s, pt1, t);
  }

  // What is left after s does not suffice for t.
  lemma SpentShort(pt: Table, free: seq<nat>, s: set<Node>, k: nat, pt1: Table, free1: seq<nat>, t: set<Node>, m: nat)
    requires Spent(pt, free, s, k, pt1, free1) && |free1| < m + Lack(pt1, t)
    ensures |free| < k + m + Lack(pt, s + t)
  {
    hide Lack;
    LackMore(pt, s, pt1, t);
  }

  lemma SpentNothing(pt: Table, free: seq<nat>)
    ensures Spent(pt, free, {}, 0, pt, free)
  {
    LackNone(pt, {});
  }

  lemma {:induction false} PathsGrow(lo: nat, m: nat, hi: nat)
    requires m <= hi
    ensures Paths(lo, m) <= Paths(lo, hi)
    decreases hi
  {
    hide Path;
    if m < hi {
      PathsGrow(lo, m, hi - 1);
    }
  }

  lemma PathsNext(lo: nat, m: nat)
    requires lo <= m
    ensures Paths(lo, m + 1) == Paths(lo, m) + Path(m) && Paths(lo, lo) == {}
    ensures lo == m ==> Paths(lo, m + 1) == Path(m)
  {
    hide Path;
  }

  // The pages from n on are mapped as far as m, and m is one too many.
  lemma NeedShort(pt: Table, free: seq<nat>, n: nat, m: nat, data: nat, pt1: Table, free1: seq<nat>, hi: nat)
    requires n <= m < hi && Spent(pt, free, Paths(n, m), (m - n) * data, pt1, free1)
             && |free1| < data + Lack(pt1, Path(m)) && data <= 1
    ensures |free| < (hi - n) * data + Lack(pt, Paths(n, hi))
  {
    hide Spent, Path, Lack, Paths;
    PathsNext(n, m);
    SpentShort(pt, free, Paths(n, m), (m - n) * data, pt1, free1, Path(m), data);
    PathsGrow(n, m + 1, hi);
    LackLess(pt, Paths(n, m + 1), Paths(n, hi));
  }

  lemma NeedMet(pt: Table, free: seq<nat>, s: set<Node>, data: nat, pt1: Table, free1: seq<nat>)
    requires Spent(pt, free, s, data, pt1, free1)
    ensures |free| >= data + Lack(pt, s)
  {
    hide Lack;
  }

  // The nodes that walk has passed when it has come down to a level.
  function Above(level: nat, va: nat): set<Node> {
    if level == 0 then {On(1, va), On(0, va)} else if level == 1 then {On(1, va)} else {}
  }

  lemma AboveTop(va: nat)
    ensures Above(2, va) == {}
  {
  }

  // A page of memory taken before the table pages.
  lemma SpentOneMore(pt: Table, free: seq<nat>, free1: seq<nat>, s: set<Node>, pt2: Table, free2: seq<nat>, pt': Table)
    requires Spent(pt, free1, s, 0, pt2, free2) && |free| == |free1| + 1 && pt'.page == pt2.page
    ensures Spent(pt, free, s, 1, pt', free2)
  {
    hide Lack;
  }

  // One step of walk, that may have found the free list empty.
  lemma AboveNext(pt: Table, free: seq<nat>, level: nat, va: nat, ok: bool, pt1: Table, free1: seq<nat>, pt2: Table,
                  free2: seq<nat>)
    requires 0 < level <= 2 && Spent(pt, free, Above(level, va), 0, pt1, free1)
    requires if ok then Spent(pt1, free1, {On(level - 1, va)}, 0, pt2, free2)
             else free1 == [] && On(level - 1, va) !in pt1.page
    ensures ok ==> Spent(pt, free, Above(level - 1, va), 0, pt2, free2)
    ensures !ok ==> |free| < Lack(pt, Above(0, va))
  {
    hide On, Lack, Spent;
    var step := {On(level - 1, va)};
    assert Above(level - 1, va) == Above(level, va) + step;
    if ok {
      SpentTrans(pt, free, Above(level, va), 0, pt1, free1, step, 0, pt2, free2);
    } else {
      LackOne(pt1, On(level - 1, va));
      SpentShort(pt, free, Above(level, va), 0, pt1, free1, step, 0);
      LackLess(pt, Above(level, va) + step, Above(0, va));
    }
  }

  lemma OnPath(va: nat)
    requires va < MAXVA
    ensures Path(va / PGSIZE) == Above(0, va)
  {
    assert va / PGSIZE / 512 == va / 0x20_0000;
    assert va / 0x20_0000 / 512 == va / 0x4000_0000;
  }

  // The trampoline and the trapframe share their table pages.
  lemma TopPaths(root: nat)
    ensures Path(TRAPFRAME / PGSIZE) == Path(TRAMPOLINE / PGSIZE)
    ensures Lack(EmptyTable(root), Path(TRAMPOLINE / PGSIZE)) == 2
  {
    var p := Path(TRAMPOLINE / PGSIZE);
    assert p == {Node(1, 255), Node(0, 131071)};
    assert p - {ROOT} == p;
  }

  // ----- the free list and who holds which page

  // Starting from head, the first words of the free pages link them in this order.
  ghost predicate Chain(mem: Mem, head: nat, free: seq<nat>)
    decreases |free|
  {
    if free == [] then head == 0
    else
      && head == free[0] != 0 && head !in free[1..] && head in mem && |mem[head]| == 512
      && Chain(mem, mem[head][0], free[1..])
  }

  lemma {:induction false} ChainFrame(mem: Mem, mem': Mem, head: nat, free: seq<nat>)
    requires Chain(mem, head, free) && forall p :: p in free && p in mem ==> p in mem' && mem'[p] == mem[p]
    ensures Chain(mem', head, free)
    decreases |free|
  {
    if free != [] {
      ChainFrame(mem, mem', mem[head][0], free[1..]);
    }
  }

  lemma {:induction false} ChainIn(mem: Mem, head: nat, free: seq<nat>)
    requires Chain(mem, head, free)
    ensures forall p :: p in free ==> p in mem && p != 0 && |mem[p]| == 512
    decreases |free|
  {
    if free != [] {
      ChainIn(mem, mem[head][0], free[1..]);
    }
  }

  // The pages of RAM that the allocator manages.
  predicate IsRam(end: nat, p: nat) { p % PGSIZE == 0 && end <= p < PHYSTOP }

  ghost predicate Ram(end: nat, mem: Mem) {
    (forall p :: p in mem <==> IsRam(end, p)) && forall p :: p in mem ==> |mem[p]| == 512
  }

  // The free pages are those of RAM below p.
  ghost predicate FreeBelow(end: nat, p: nat, free: seq<nat>) {
    forall q: nat :: q in free <==> IsRam(end, q) && q < p
  }

  lemma FreeStart(end: nat)
    ensures end <= PgRoundUp(end) && PgRoundUp(end) % PGSIZE == 0 && FreeBelow(end, PgRoundUp(end), [])
  {
  }

  lemma FreeNext(end: nat, p: nat, free: seq<nat>)
    requires FreeBelow(end, p, free) && p % PGSIZE == 0 && end <= p && p + PGSIZE <= PHYSTOP
    ensures IsRam(end, p) && p !in free && FreeBelow(end, p + PGSIZE, [p] + free)
  {
    forall q: nat ensures q in [p] + free <==> IsRam(end, q) && q < p + PGSIZE {
    }
  }

  lemma FreeEnd(end: nat, p: nat, free: seq<nat>)
    requires FreeBelow(end, p, free) && p % PGSIZE == 0 && p + PGSIZE > PHYSTOP
    ensures FreeBelow(end, PHYSTOP, free)
  {
    assert PHYSTOP % PGSIZE == 0;
  }

  // The user pages of pt are mapped at their page numbers, below the trapframe.
  ghost predicate Backed(mem: Mem, pt: Table) {
    forall p :: p in pt.user ==>
      && p in mem && pt.user[p] < TRAPFRAME / PGSIZE
      && pt.user[p] in pt.flat && Pte2Pa(pt.flat[pt.user[p]]) == p && Flags(pt.flat[pt.user[p]]) != PTE_V
  }

  // No page is held twice.
  ghost predicate Apart(free: seq<nat>, pt: Table) {
    && (forall p :: p in pt.own ==> p !in free && p !in pt.user)
    && (forall p :: p in pt.user ==> p !in free)
  }

  // The memory holds the page table pt; its pages, its user pages and the free pages
  // are apart.
  ghost predicate Space(mem: Mem, free: seq<nat>, pt: Table) {
    Tree(mem, pt) && Backed(mem, pt) && Apart(free, pt)
  }

  // The same pages, with the same words outside xs.
  ghost predicate SameBut(mem: Mem, mem': Mem, xs: set<nat>) {
    (forall p :: p in mem <==> p in mem') && forall p :: p in mem && p !in xs ==> mem'[p] == mem[p]
  }

  lemma SpaceFrame(mem: Mem, free: seq<nat>, mem': Mem, free': seq<nat>, pt: Table, xs: set<nat>)
    requires Space(mem, free, pt) && SameBut(mem, mem', xs) && xs !! pt.own.Keys
    requires forall p :: p in free' ==> p in free
    ensures Space(mem', free', pt)
  {
    hide Right;
    forall p | p in pt.own ensures p in mem {
      OwnIn(mem, pt, p);
    }
    TreeFrame(mem, mem', pt);
  }

  lemma OwnIn(mem: Mem, pt: Table, p: nat)
    requires Tree(mem, pt) && p in pt.own
    ensures p in mem && |mem[p]| == 512
  {
    assert Right(mem, pt, pt.own[p]);
  }

  lemma Descends(mem: Mem, free: seq<nat>, pt: Table, level: nat, va: nat)
    requires Space(mem, free, pt) && 0 < level <= 2 && va < MAXVA && On(level, va) in pt.page
    ensures var p, k, c := pt.page[On(level, va)], Px(level, va), On(level - 1, va);
            && k < 512 && p in mem && |mem[p]| == 512 && p in pt.own && p !in free && p !in pt.user
            && (if c in pt.page then IsValid(mem[p][k]) && Pte2Pa(mem[p][k]) == pt.page[c] else mem[p][k] == 0)
  {
    hide On, Px, IsValid, Pte2Pa;
    Descend(mem, pt, level, va);
  }

  // walk installs the page pa for the next level.
  lemma SpaceAdd(mem: Mem, mem': Mem, free: seq<nat>, pt: Table, level: nat, va: nat, pa: nat)
    requires Space(mem, free, pt) && va < MAXVA && 0 < level <= 2
    requires On(level, va) in pt.page && On(level - 1, va) !in pt.page
    requires pa % PGSIZE == 0 && pa !in free && pa !in pt.own && pa !in pt.user
    requires var p := pt.page[On(level, va)];
             p in mem && |mem[p]| == 512 && Px(level, va) < 512
                 && mem' == Store(mem[pa := Zeros()], p, Px(level, va), MakePte(pa, 0))
    ensures Space(mem', free, AddTable(pt, On(level - 1, va), pa))
  {
    hide On, Px, MakePte, Pte2Pa, Flags, Right, Shaped;
    OnKid(level, va);
    TreeAdd(mem, mem', pt, On(level, va), Px(level, va), pa);
  }

  ghost predicate Holds(free: seq<nat>, pt: Table, p: nat) { p in free || p in pt.own || p in pt.user }

  // The free list and the page table together hold the same pages as before.
  ghost predicate Conserved(free: seq<nat>, pt: Table, free': seq<nat>, pt': Table) {
    forall p :: Holds(free, pt, p) <==> Holds(free', pt', p)
  }

  // pt' is pt with table pages added: every translation is as before.
  ghost predicate Extends(pt: Table, pt': Table) {
    && pt' == pt.(own := pt'.own, page := pt'.page)
    && (forall p :: p in pt.own ==> p in pt'.own)
    && (forall n :: n in pt.page ==> n in pt'.page && pt'.page[n] == pt.page[n])
  }

  // An operation on pt took the memory mem with its free list to mem' and free', and pt
  // to pt'.  The pages held are the same, pages held by others are untouched, and so
  // are the user pages that pt keeps.
  ghost predicate Moves(mem: Mem, free: seq<nat>, pt: Table, mem': Mem, free': seq<nat>, pt': Table) {
    && Space(mem', free', pt') && pt'.root == pt.root
    && Conserved(free, pt, free', pt')
    && (forall p :: p in mem <==> p in mem')
    && (forall p :: p in mem && !Holds(free, pt, p) ==> mem'[p] == mem[p])
    && (forall p :: p in mem && p in pt.user && p in pt'.user ==> mem'[p] == mem[p])
  }

  lemma MovesSelf(mem: Mem, free: seq<nat>, pt: Table)
    requires Space(mem, free, pt)
    ensures Moves(mem, free, pt, mem, free, pt)
  {
  }

  lemma MovesTrans(mem: Mem, free: seq<nat>, pt: Table, mem': Mem, free': seq<nat>, pt': Table, mem'': Mem,
                   free'': seq<nat>, pt'': Table)
    requires Moves(mem, free, pt, mem', free', pt') && Moves(mem', free', pt', mem'', free'', pt'')
    requires forall p :: p in pt.user && p in pt''.user ==> p in pt'.user
    ensures Moves(mem, free, pt, mem'', free'', pt'')
  {
    hide Space, Holds;
  }

  // A page table that shares nothing with pt.
  ghost predicate Foreign(pt: Table, other: Table) {
    forall p :: p in other.own || p in other.user ==> p !in pt.own && p !in pt.user
  }

  // What happens to pt leaves every other page table alone.
  lemma SpaceOther(mem: Mem, free: seq<nat>, pt: Table, mem': Mem, free': seq<nat>, pt': Table, other: Table)
    requires Moves(mem, free, pt, mem', free', pt') && Space(mem, free, other) && Foreign(pt, other)
    ensures Space(mem', free', other) && Foreign(pt', other)
    ensures forall p :: p in other.user ==> p in mem && p in mem' && mem'[p] == mem[p]
  {
    hide Right, Inverse, Shaped;
    forall p | p in other.own || p in other.user ensures !Holds(free, pt, p) && !Holds(free', pt', p) {
    }
    forall p | p in other.own ensures p in mem {
      OwnIn(mem, other, p);
    }
    TreeFrame(mem, mem', other);
  }

  lemma MovesSpace(mem: Mem, free: seq<nat>, pt: Table, mem': Mem, free': seq<nat>, pt': Table)
    requires Moves(mem, free, pt, mem', free', pt')
    ensures Space(mem', free', pt') && pt'.root == pt.root
  {
  }

  lemma Rooted(mem: Mem, free: seq<nat>, pt: Table)
    requires Space(mem, free, pt)
    ensures ROOT in pt.page && pt.page[ROOT] == pt.root
  {
  }

  // Without the table above there is none below.
  lemma Closed(mem: Mem, free: seq<nat>, pt: Table, level: nat, va: nat)
    requires Space(mem, free, pt) && 0 < level <= 2 && va < MAXVA
    requires On(level - 1, va) !in pt.page
    ensures On(0, va) !in pt.page
  {
    if level == 2 {
      OnKid(1, va);
      assert Parent(On(0, va)) == On(1, va);
    }
  }

  lemma AddMoves(mem: Mem, free: seq<nat>, pt: Table, mem': Mem, free': seq<nat>, n: Node, pa: nat, table: nat)
    requires free != [] && free' == free[1..] && pa == free[0] && table in pt.own
    requires Space(mem, free, pt) && Space(mem', free', AddTable(pt, n, pa)) && n !in pt.page && pa !in pt.own
    requires SameBut(mem, mem', {pa, table})
    ensures Moves(mem, free, pt, mem', free', AddTable(pt, n, pa)) && Extends(pt, AddTable(pt, n, pa))
  {
    hide Tree, Backed;
    assert free == [pa] + free';
  }

  // ----- mapping and unmapping

  // What walkaddr answers for a user address.
  function Lookup(pt: Table, va: nat): nat {
    if va < MAXVA && va / PGSIZE in pt.flat && IsUser(pt.flat[va / PGSIZE]) then Pte2Pa(pt.flat[va / PGSIZE]) else 0
  }

  // flat with n pages from page number v on mapped to the pages from pa on.
  function MapRange(flat: map<nat, nat>, v: nat, n: nat, pa: nat, perm: nat): map<nat, nat> {
    if n == 0 then flat else MapRange(flat, v, n - 1, pa, perm)[v + n - 1 := MakePte(pa + (n - 1) * PGSIZE, perm)]
  }

  // Exactly the requested translations are added.
  lemma {:induction false} MapRangeAt(flat: map<nat, nat>, v: nat, n: nat, pa: nat, perm: nat, u: nat)
    ensures u in MapRange(flat, v, n, pa, perm) <==> u in flat || v <= u < v + n
    ensures v <= u < v + n ==> MapRange(flat, v, n, pa, perm)[u] == MakePte(pa + (u - v) * PGSIZE, perm)
    ensures u in flat && !(v <= u < v + n) ==> MapRange(flat, v, n, pa, perm)[u] == flat[u]
  {
    if n > 0 {
      MapRangeAt(flat, v, n - 1, pa, perm, u);
    }
  }

  lemma TreeUser(mem: Mem, pt: Table, user: map<nat, nat>)
    requires Tree(mem, pt)
    ensures Tree(mem, pt.(user := user))
  {
    hide Parent, IsValid, IsNode, MakePte;
    var pt' := pt.(user := user);
    forall n | n in pt'.page ensures Right(mem, pt', n) {
      assert Right(mem, pt, n);
      assert forall k :: WordAt(pt', n, k) == WordAt(pt, n, k);
    }
  }

  lemma SpaceMap(mem: Mem, free: seq<nat>, pt: Table, va: nat, pte: nat)
    requires Space(mem, free, pt) && va < MAXVA && On(0, va) in pt.page && va / PGSIZE !in pt.flat && IsValid(pte)
    ensures var p, v := pt.page[On(0, va)], va / PGSIZE;
            && p in mem && |mem[p]| == 512 && p !in free
            && Moves(mem, free, pt, Store(mem, p, v % 512, pte), free, Translate(pt, v, pte))
  {
    hide On, Right, Inverse, Shaped, IsValid, Flags, Pte2Pa;
    OnEnds(va);
    TreeMap(mem, pt, va / PGSIZE, pte);
    InTable(mem, pt, On(0, va));
  }

  lemma InTable(mem: Mem, pt: Table, n: Node)
    requires Tree(mem, pt) && n in pt.page
    ensures pt.page[n] in pt.own && pt.page[n] in mem && |mem[pt.page[n]]| == 512
  {
    assert Right(mem, pt, n);
  }

  // v is a page of the user's.
  predicate Mapped(pt: Table, v: nat) {
    v in pt.flat && Pte2Pa(pt.flat[v]) in pt.user && pt.user[Pte2Pa(pt.flat[v])] == v
  }

  // pt without the page v, and without owning it if it is freed.
  function Drop(pt: Table, v: nat, doFree: bool): Table
    requires v in pt.flat
  {
    pt.(flat := pt.flat - {v}, user := if doFree then pt.user - {Pte2Pa(pt.flat[v])} else pt.user)
  }

  // uvmunmap removes v; mem' is the memory after the page was freed or not.
  lemma SpaceUnmap(mem: Mem, free: seq<nat>, pt: Table, va: nat, mem': Mem, doFree: bool)
    requires Space(mem, free, pt) && va < MAXVA && va / PGSIZE in pt.flat && (Mapped(pt, va / PGSIZE) <==> doFree)
    requires SameBut(mem, mem', if doFree then {Pte2Pa(pt.flat[va / PGSIZE])} else {})
    ensures On(0, va) in pt.page
    ensures var p, v := pt.page[On(0, va)], va / PGSIZE;
            var free' := if doFree then [Pte2Pa(pt.flat[v])] + free else free;
            && p in mem' && |mem'[p]| == 512 && p !in free'
            && Moves(mem, free, pt, Store(mem', p, v % 512, 0), free', Drop(pt, v, doFree))
  {
    hide On, Right, Flags, Pte2Pa, Parent;
    OnEnds(va);
    var v := va / PGSIZE;
    forall q | q in pt.own ensures q in mem {
      OwnIn(mem, pt, q);
    }
    TreeFrame(mem, mem', pt);
    InTable(mem', pt, On(0, va));
    TreeUnmap(mem', pt, v);
    TreeUser(Store(mem', pt.page[On(0, va)], v % 512, 0), Untranslate(pt, v), Drop(pt, v, doFree).user);
    DropMoves(mem, free, pt, v, mem', pt.page[On(0, va)], doFree);
  }

  lemma DropMoves(mem: Mem, free: seq<nat>, pt: Table, v: nat, mem': Mem, p: nat, doFree: bool)
    requires Space(mem, free, pt) && v in pt.flat && (Mapped(pt, v) <==> doFree)
    requires SameBut(mem, mem', if doFree then {Pte2Pa(pt.flat[v])} else {})
    requires p in pt.own && p in mem' && |mem'[p]| == 512
    requires Tree(Store(mem', p, v % 512, 0), Drop(pt, v, doFree))
    ensures Moves(mem, free, pt, Store(mem', p, v % 512, 0), if doFree then [Pte2Pa(pt.flat[v])] + free
                  else free, Drop(pt, v, doFree))
  {
    hide Tree, Flags, Pte2Pa;
  }

  // What uvmunmap demands of the pages from lo to hi.
  ghost predicate Droppable(pt: Table, lo: nat, hi: nat, doFree: bool) {
    forall v :: lo <= v < hi ==> v in pt.flat && Flags(pt.flat[v]) != PTE_V && (Mapped(pt, v) <==> doFree)
  }

  // pt' is pt without the pages from lo to hi.
  ghost predicate Dropped(pt: Table, lo: nat, hi: nat, doFree: bool, pt': Table) {
    && pt' == pt.(flat := pt'.flat, user := pt'.user)
    && (forall v :: v in pt'.flat <==> v in pt.flat && !(lo <= v < hi))
    && (forall v :: v in pt'.flat ==> pt'.flat[v] == pt.flat[v])
    && (forall p :: p in pt'.user <==> p in pt.user && !(doFree && lo <= pt.user[p] < hi))
    && (forall p :: p in pt'.user ==> pt'.user[p] == pt.user[p])
  }

  lemma DropNothing(pt: Table, lo: nat, doFree: bool)
    ensures Dropped(pt, lo, lo, doFree, pt)
  {
  }

  lemma DroppedUser(pt: Table, lo: nat, hi: nat, doFree: bool, pt': Table)
    requires Dropped(pt, lo, hi, doFree, pt')
    ensures pt'.root == pt.root && pt'.own == pt.own && forall p :: p in pt'.user ==> p in pt.user
  {
  }

  lemma DropNext(mem: Mem, pt: Table, lo: nat, v: nat, hi: nat, doFree: bool, pt': Table)
    requires Droppable(pt, lo, hi, doFree) && Dropped(pt, lo, v, doFree, pt') && lo <= v < hi && Backed(mem, pt')
    ensures v in pt'.flat && Flags(pt'.flat[v]) != PTE_V && (Mapped(pt', v) <==> doFree)
    ensures Dropped(pt, lo, v + 1, doFree, Drop(pt', v, doFree)) && Drop(pt', v, doFree).user.Keys <= pt'.user.Keys
  {
    hide Flags, Pte2Pa;
    assert v in pt.flat && (Mapped(pt, v) <==> doFree);
  }

  lemma MapOne(flat: map<nat, nat>, v: nat, pa: nat, perm: nat)
    ensures MapRange(flat, v, 0, pa, perm) == flat
    ensures MapRange(flat, v, 1, pa, perm) == flat[v := MakePte(pa, perm)]
  {
    hide MakePte;
  }

  // ----- new user pages

  // pa was taken from the free list and filled, and then the tables grew.
  ghost predicate Taken(mem: Mem, free: seq<nat>, pt: Table, mem1: Mem, free1: seq<nat>, pa: nat, mem2: Mem,
                        free2: seq<nat>, pt2: Table) {
    && Space(mem, free, pt) && free == [pa] + free1 && pa !in free1 && pa in mem && SameBut(mem, mem1, {pa})
    && Moves(mem1, free1, pt, mem2, free2, pt2) && pt2.user == pt.user
  }

  lemma FlagsMore(pa: nat, perm: nat)
    requires pa % PGSIZE == 0 && 1 < perm < 1024
    ensures Flags(MakePte(pa, perm)) != PTE_V
  {
    PteRoundTrip(pa, perm);
  }

  lemma TakenFacts(end: nat, mem: Mem, free: seq<nat>, pt: Table, mem1: Mem, free1: seq<nat>, pa: nat, mem2: Mem,
                   free2: seq<nat>, pt2: Table)
    requires Space(mem, free, pt) && free == [pa] + free1 && pa !in free1 && pa in mem1 && SameBut(mem, mem1, {pa})
             && IsRam(end, pa)
    requires Moves(mem1, free1, pt, mem2, free2, pt2) && pt2.user == pt.user
    ensures Taken(mem, free, pt, mem1, free1, pa, mem2, free2, pt2) && pa % PGSIZE == 0
    ensures pa in mem2 && mem2[pa] == mem1[pa] && pa !in free2 && pa !in pt.user
  {
    hide Tree, Backed, Moves;
    NewUnheld(mem, free, pt, mem1, free1, pa, mem2, free2, pt2);
  }

  // Nobody holds the page yet.
  lemma NewUnheld(mem: Mem, free: seq<nat>, pt: Table, mem1: Mem, free1: seq<nat>, pa: nat, mem2: Mem,
                  free2: seq<nat>, pt2: Table)
    requires Taken(mem, free, pt, mem1, free1, pa, mem2, free2, pt2)
    ensures pa in mem1 && pa in mem2 && mem2[pa] == mem1[pa]
    ensures !Holds(free1, pt, pa) && !Holds(free2, pt2, pa)
  {
    hide Tree, Backed;
  }

  lemma NewMoves(mem: Mem, free: seq<nat>, pt: Table, mem1: Mem, free1: seq<nat>, pa: nat, mem2: Mem, free2: seq<nat>,
                 pt2: Table, v: nat)
    requires Taken(mem, free, pt, mem1, free1, pa, mem2, free2, pt2)
    requires v < TRAPFRAME / PGSIZE && v in pt2.flat && Pte2Pa(pt2.flat[v]) == pa && Flags(pt2.flat[v]) != PTE_V
    ensures Moves(mem, free, pt, mem2, free2, pt2.(user := pt2.user[pa := v]))
  {
    hide Tree, Flags, Pte2Pa;
    NewUnheld(mem, free, pt, mem1, free1, pa, mem2, free2, pt2);
    TreeUser(mem2, pt2, pt2.user[pa := v]);
    var pt' := pt2.(user := pt2.user[pa := v]);
    forall p ensures Holds(free, pt, p) <==> Holds(free2, pt', p) {
      assert Holds(free1, pt, p) <==> Holds(free2, pt2, p);
    }
  }

  lemma ReturnMoves(mem: Mem, free: seq<nat>, pt: Table, mem1: Mem, free1: seq<nat>, pa: nat, mem2: Mem,
                    free2: seq<nat>, pt2: Table, mem3: Mem)
    requires Taken(mem, free, pt, mem1, free1, pa, mem2, free2, pt2) && SameBut(mem2, mem3, {pa})
    ensures Moves(mem, free, pt, mem3, [pa] + free2, pt2)
  {
    hide Right, Flags, Pte2Pa, Shaped, Inverse;
    NewUnheld(mem, free, pt, mem1, free1, pa, mem2, free2, pt2);
    forall p | p in pt2.own ensures p in mem2 {
      OwnIn(mem2, pt2, p);
    }
    TreeFrame(mem2, mem3, pt2);
    forall p ensures Holds(free, pt, p) <==> Holds([pa] + free2, pt2, p) {
      assert Holds(free1, pt, p) <==> Holds(free2, pt2, p);
    }
  }

  // ----- the size of a user address space

  // The number of pages of sz bytes.
  function Pages(sz: nat): (n: nat)
    ensures sz <= n * PGSIZE < sz + PGSIZE
  {
    (sz + PGSIZE - 1) / PGSIZE
  }

  lemma RoundUp(sz: nat)
    ensures PgRoundUp(sz) == Pages(sz) * PGSIZE && PgRoundUp(sz) / PGSIZE == Pages(sz) && PgRoundUp(sz) % PGSIZE == 0
  {
  }

  lemma PagesMono(a: nat, b: nat)
    requires a <= b
    ensures Pages(a) <= Pages(b)
  {
  }

  // The pages below n are the user's, and there are no others below the trapframe.
  ghost predicate Sized(pt: Table, n: nat) {
    && (forall v :: 0 <= v < n ==> Mapped(pt, v))
    && (forall v :: v in pt.flat && v < TRAPFRAME / PGSIZE ==> v < n)
  }

  function FramesOf(pt: Table, n: nat): set<nat> { set v: nat | v < n && Mapped(pt, v) :: pt.flat[v] / 1024 }

  lemma {:induction false} FramesSize(pt: Table, n: nat)
    requires forall v :: 0 <= v < n ==> Mapped(pt, v)
    ensures |FramesOf(pt, n)| == n
  {
    if n > 0 {
      FramesSize(pt, n - 1);
      assert Mapped(pt, n - 1);
      var e := pt.flat[n - 1] / 1024;
      assert e !in FramesOf(pt, n - 1);
      assert FramesOf(pt, n) == FramesOf(pt, n - 1) + {e};
    }
  }

  // RAM runs out before user memory could reach the trapframe.
  lemma SizedBound(end: nat, mem: Mem, pt: Table, n: nat)
    requires Ram(end, mem) && Backed(mem, pt) && forall v :: 0 <= v < n ==> Mapped(pt, v)
    ensures n <= PHYSTOP / PGSIZE
  {
    FramesSize(pt, n);
    forall e | e in FramesOf(pt, n) ensures e < PHYSTOP / PGSIZE {
      var v: nat :| v < n && Mapped(pt, v) && e == pt.flat[v] / 1024;
      assert IsRam(end, Pte2Pa(pt.flat[v]));
    }
    BelowSize(FramesOf(pt, n), PHYSTOP / PGSIZE);
  }

  lemma SizedDroppable(end: nat, mem: Mem, pt: Table, lo: nat, hi: nat)
    requires Ram(end, mem) && Backed(mem, pt) && Sized(pt, hi) && lo <= hi
    ensures Droppable(pt, lo, hi, true) && hi <= PHYSTOP / PGSIZE
  {
    hide Flags, Pte2Pa, IsRam;
    SizedBound(end, mem, pt, hi);
    forall v | lo <= v < hi ensures v in pt.flat && Flags(pt.flat[v]) != PTE_V && Mapped(pt, v) {
      assert Mapped(pt, v);
    }
  }

  lemma DroppedSized(mem: Mem, pt: Table, lo: nat, hi: nat, pt': Table)
    requires Backed(mem, pt) && Sized(pt, hi) && lo <= hi && Dropped(pt, lo, hi, true, pt')
    ensures Sized(pt', lo)
  {
    hide Flags, Pte2Pa;
    forall v: nat | v < lo ensures Mapped(pt', v) {
      assert Mapped(pt, v);
    }
  }

  // ----- growing

  // What a new page holds, and its permissions.
  datatype Image = Image(words: seq<nat>, perm: nat)

  function Blank(perm: nat): nat -> Image { v => Image(Zeros(), perm) }

  // Page v of pt is backed by a user page that is like the image.
  ghost predicate Like(mem: Mem, pt: Table, v: nat, i: Image) {
    && Mapped(pt, v)
    && var pa := Pte2Pa(pt.flat[v]);
       pa in mem && mem[pa] == i.words && pt.flat[v] == MakePte(pa, i.perm)
  }

  // pt' is pt with new user pages from n to m, like their images; all else is as it was.
  ghost predicate Grown(pt: Table, n: nat, m: nat, img: nat -> Image, mem': Mem, pt': Table) {
    && (forall v :: v in pt'.flat <==> v in pt.flat || n <= v < m)
    && (forall v :: v in pt.flat && !(n <= v < m) ==> pt'.flat[v] == pt.flat[v])
    && (forall v :: n <= v < m ==> Like(mem', pt', v, img(v)))
    && (forall p :: p in pt.user ==> p in pt'.user && pt'.user[p] == pt.user[p])
    && (forall p :: p in pt'.user && p !in pt.user ==> n <= pt'.user[p] < m)
  }

  lemma GrownNothing(pt: Table, n: nat, img: nat -> Image, mem: Mem)
    ensures Grown(pt, n, n, img, mem, pt)
  {
  }

  lemma GrownUser(pt: Table, n: nat, m: nat, img: nat -> Image, mem: Mem, pt': Table)
    requires Grown(pt, n, m, img, mem, pt')
    ensures forall p :: p in pt.user ==> p in pt'.user
  {
  }

  lemma GrownNext(pt: Table, n: nat, m: nat,
                  img: nat -> Image, mem: Mem, free: seq<nat>, pt1: Table, mem': Mem, free': seq<nat>, pt2: Table,
                      pa: nat)
    requires Grown(pt, n, m, img, mem, pt1) && n <= m && m !in pt1.flat && Backed(mem, pt1)
    requires Moves(mem, free, pt1, mem', free', pt2)
    requires pt2.flat == pt1.flat[m := MakePte(pa, img(m).perm)] && pt2.user == pt1.user[pa := m] && pa !in pt1.user
    requires pa in mem' && mem'[pa] == img(m).words && pa % PGSIZE == 0 && img(m).perm < 1024
    ensures Grown(pt, n, m + 1, img, mem', pt2)
  {
    hide Space, Flags, MakePte, Pte2Pa, Like;
    forall v | n <= v < m + 1 ensures Like(mem', pt2, v, img(v)) {
      if v < m {
        LikeKept(mem, free, pt1, mem', free', pt2, m, pa, v, img(v));
      } else {
        LikeNew(mem', pt2, m, pa, img(m));
      }
    }
  }

  lemma LikeNew(mem: Mem, pt: Table, m: nat, pa: nat, i: Image)
    requires m in pt.flat && pt.flat[m] == MakePte(pa, i.perm) && pa in pt.user && pt.user[pa] == m
    requires pa in mem && mem[pa] == i.words && pa % PGSIZE == 0 && i.perm < 1024
    ensures Like(mem, pt, m, i)
  {
    hide MakePte, Pte2Pa;
    PteRoundTrip(pa, i.perm);
  }

  lemma LikeKept(mem: Mem, free: seq<nat>, pt1: Table, mem': Mem, free': seq<nat>, pt2: Table, m: nat, pa: nat,
                 v: nat, i: Image)
    requires Moves(mem, free, pt1, mem', free', pt2) && Like(mem, pt1, v, i) && v != m
    requires m !in pt1.flat && pa !in pt1.user && pt2.user == pt1.user[pa := m]
    requires v in pt2.flat && pt2.flat[v] == pt1.flat[v]
    ensures Like(mem', pt2, v, i)
  {
    hide Space, Holds, Conserved, MakePte, Pte2Pa;
  }

  // Taking the new pages away again restores what was mapped.
  lemma GrownDropped(pt: Table, n: nat, m: nat, img: nat -> Image, mem: Mem, pt1: Table, pt2: Table, pt3: Table)
    requires Grown(pt, n, m, img, mem, pt1) && pt2.flat == pt1.flat && pt2.user == pt1.user
    requires Dropped(pt2, n, m, true, pt3)
    requires forall v :: n <= v < m ==> v !in pt.flat
    requires forall p :: p in pt.user ==> pt.user[p] in pt.flat
    ensures pt3.flat == pt.flat && pt3.user == pt.user
  {
    hide Like;
  }

  // There is room for page m.
  lemma SizedNext(end: nat, mem: Mem, free: seq<nat>, pt: Table, m: nat)
    requires Ram(end, mem) && Space(mem, free, pt) && Sized(pt, m)
    ensures m * PGSIZE < TRAPFRAME && m !in pt.flat && Backed(mem, pt)
  {
    hide Tree, Flags, Pte2Pa, IsRam, Mapped;
    SizedBound(end, mem, pt, m);
  }

  // Nothing is mapped from page n up to the trapframe.
  lemma Unmapped(end: nat, mem: Mem, free: seq<nat>, pt: Table, n: nat)
    requires Ram(end, mem) && Space(mem, free, pt) && Sized(pt, n)
    ensures forall v :: n <= v < TRAPFRAME / PGSIZE ==> v !in pt.flat
    ensures forall p :: p in pt.user ==> pt.user[p] in pt.flat
  {
    hide Tree, Flags, Pte2Pa, IsRam, Mapped;
  }

  lemma SizedSame(pt: Table, pt': Table, m: nat)
    requires Sized(pt, m) && pt'.flat == pt.flat && pt'.user == pt.user
    ensures Sized(pt', m)
  {
    hide Pte2Pa;
    forall v: nat | v < m ensures Mapped(pt', v) {
      assert Mapped(pt, v);
    }
  }

  lemma SizedGrow(pt: Table, m: nat, pt': Table, pa: nat, perm: nat)
    requires Sized(pt, m) && pa % PGSIZE == 0 && perm < 1024 && pa !in pt.user
    requires pt'.flat == pt.flat[m := MakePte(pa, perm)] && pt'.user == pt.user[pa := m]
    ensures Sized(pt', m + 1)
  {
    hide Pte2Pa, MakePte;
    PteRoundTrip(pa, perm);
    forall v: nat | v < m + 1 ensures Mapped(pt', v) {
      if v < m {
        assert Mapped(pt, v);
      }
    }
  }

  lemma WholePages(n: nat, m: nat)
    requires n <= m
    ensures Pages(n * PGSIZE) == n && Pages(m * PGSIZE) == m && n * PGSIZE <= m * PGSIZE
  {
  }

  // The loop of uvmalloc ends at the right page.
  lemma PagesRound(oldsz: nat, newsz: nat, m: nat)
    requires oldsz <= newsz <= m * PGSIZE && Pages(oldsz) <= m && (Pages(oldsz) < m ==> m * PGSIZE < newsz + PGSIZE)
    ensures Pages(newsz) == m
  {
    if Pages(oldsz) == m {
      PagesMono(oldsz, newsz);
      WholePages(m, m);
      PagesMono(newsz, m * PGSIZE);
    }
  }

  // ----- copying

  // The images that make a copy of the pages of pt.
  ghost function CopyOf(mem: Mem, pt: Table): nat -> Image {
    v => if v in pt.flat && Pte2Pa(pt.flat[v]) in mem then Image(mem[Pte2Pa(pt.flat[v])], Flags(pt.flat[v]))
        else Image([], 0)
  }

  lemma CopySource(end: nat, mem: Mem, free: seq<nat>, src: Table, n: nat, k: nat)
    requires Ram(end, mem) && Space(mem, free, src) && Sized(src, n) && k < n
    ensures k * PGSIZE < TRAPFRAME && k in src.flat && Mapped(src, k) && Node(0, k / 512) in src.page
            && On(0, k * PGSIZE) in src.page
    ensures Pte2Pa(src.flat[k]) in src.user && Flags(src.flat[k]) > 1 && Flags(src.flat[k]) < 1024
    ensures Pte2Pa(src.flat[k]) in mem && |mem[Pte2Pa(src.flat[k])]| == 512
  {
    hide Tree, Pte2Pa, On, IsRam, Flags, IsValid;
    SizedBound(end, mem, src, n);
    OnEnds(k * PGSIZE);
    assert Mapped(src, k);
    LeafNode(mem, src, k);
    OddFlags(src.flat[k]);
  }

  lemma LeafNode(mem: Mem, pt: Table, v: nat)
    requires Tree(mem, pt) && v in pt.flat
    ensures Node(0, v / 512) in pt.page && IsValid(pt.flat[v])
  {
    hide Right, Inverse, Parent, IsNode;
  }

  lemma OddFlags(pte: nat)
    requires IsValid(pte) && Flags(pte) != PTE_V
    ensures 1 < Flags(pte) < 1024
  {
    Fields(pte / 1024, pte % 1024);
  }

  lemma CopyRound(mem0: Mem, src: Table, k: nat, mem: Mem)
    requires k in src.flat && Pte2Pa(src.flat[k]) in mem0 && Pte2Pa(src.flat[k]) in mem
    requires mem[Pte2Pa(src.flat[k])] == mem0[Pte2Pa(src.flat[k])]
    ensures CopyOf(mem0, src)(k) == Image(mem[Pte2Pa(src.flat[k])], Flags(src.flat[k]))
  {
  }

  lemma GrownAbsent(pt: Table, n: nat, m: nat, img: nat -> Image, mem: Mem, pt': Table, v: nat)
    requires Grown(pt, n, m, img, mem, pt') && v >= m && v !in pt.flat
    ensures v !in pt'.flat
  {
  }

  lemma GrownDroppable(pt: Table, k: nat, img: nat -> Image, mem1: Mem, pt1: Table, mem2: Mem, pt2: Table)
    requires Grown(pt, 0, k, img, mem1, pt1) && pt2.flat == pt1.flat && pt2.user == pt1.user && Backed(mem2, pt2)
    ensures Droppable(pt2, 0, k, true)
  {
    hide Flags, Pte2Pa, MakePte;
    forall v | 0 <= v < k ensures v in pt2.flat && Flags(pt2.flat[v]) != PTE_V && Mapped(pt2, v) {
      assert Like(mem1, pt1, v, img(v));
    }
  }

  lemma GrownUndone(mem: Mem, free: seq<nat>, pt: Table, k: nat,
                    img: nat -> Image, mem1: Mem, pt1: Table, pt2: Table, pt3: Table)
    requires Space(mem, free, pt) && Grown(pt, 0, k, img, mem1, pt1) && pt2.flat == pt1.flat && pt2.user == pt1.user
    requires Dropped(pt2, 0, k, true, pt3) && forall v :: 0 <= v < k ==> v !in pt.flat
    ensures pt3.flat == pt.flat && pt3.user == pt.user
  {
    hide Like, Tree, Flags, Pte2Pa;
    GrownDropped(pt, 0, k, img, mem1, pt1, pt2, pt3);
  }

  // The pages n .. m have been added to pt, which is now pt'.
  ghost predicate Growth(mem: Mem, free: seq<nat>, pt: Table, n: nat, m: nat,
                         img: nat -> Image, mem': Mem, free': seq<nat>, pt': Table) {
    && n <= m && Moves(mem, free, pt, mem', free', pt') && Grown(pt, n, m, img, mem', pt')
    && Spent(pt, free, Paths(n, m), m - n, pt', free')
  }

  lemma GrowthStart(mem: Mem, free: seq<nat>, pt: Table, n: nat, img: nat -> Image)
    requires Space(mem, free, pt)
    ensures Growth(mem, free, pt, n, n, img, mem, free, pt)
  {
    hide Space, Spent, Grown;
    MovesSelf(mem, free, pt);
    SpentNothing(pt, free);
    PathsNext(n, n);
    GrownNothing(pt, n, img, mem);
  }

  lemma GrowthNext(mem: Mem, free: seq<nat>, pt: Table, n: nat, m: nat,
                   img: nat -> Image, mem1: Mem, free1: seq<nat>, pt1: Table, mem2: Mem, free2: seq<nat>, pt2: Table,
                       pa: nat)
    requires Growth(mem, free, pt, n, m, img, mem1, free1, pt1) && Moves(mem1, free1, pt1, mem2, free2, pt2)
             && m !in pt1.flat
    requires pt2.flat == pt1.flat[m := MakePte(pa, img(m).perm)] && pt2.user == pt1.user[pa := m] && pa !in pt1.user
    requires pa in mem2 && mem2[pa] == img(m).words && pa % PGSIZE == 0 && img(m).perm < 1024
    requires Spent(pt1, free1, Path(m), 1, pt2, free2)
    ensures Growth(mem, free, pt, n, m + 1, img, mem2, free2, pt2)
  {
    hide Moves, Space, Spent, Grown, Path, Paths, MakePte;
    MovesBacked(mem, free, pt, mem1, free1, pt1);
    GrownUser(pt, n, m, img, mem1, pt1);
    MovesTrans(mem, free, pt, mem1, free1, pt1, mem2, free2, pt2);
    GrownNext(pt, n, m, img, mem1, free1, pt1, mem2, free2, pt2, pa);
    PathsNext(n, m);
    SpentTrans(pt, free, Paths(n, m), m - n, pt1, free1, Path(m), 1, pt2, free2);
  }

  lemma MovesBacked(mem: Mem, free: seq<nat>, pt: Table, mem': Mem, free': seq<nat>, pt': Table)
    requires Moves(mem, free, pt, mem', free', pt')
    ensures Backed(mem', pt')
  {
    hide Tree, Conserved;
  }

  // Page k of src can be copied next.
  lemma CopyReady(end: nat, mem: Mem, free: seq<nat>, pt: Table, src: Table, n: nat, k: nat, img: nat -> Image,
                  mem1: Mem, free1: seq<nat>, pt1: Table)
    requires Ram(end, mem) && Space(mem, free, src) && Space(mem, free, pt) && Foreign(pt, src) && Sized(src, n)
             && k < n
    requires k !in pt.flat && img == CopyOf(mem, src) && Growth(mem, free, pt, 0, k, img, mem1, free1, pt1)
    ensures Space(mem1, free1, src) && k !in pt1.flat && k * PGSIZE < TRAPFRAME && k in src.flat
    ensures 1 < Flags(src.flat[k]) < 1024 && Pte2Pa(src.flat[k]) in mem1
    ensures img(k) == Image(mem1[Pte2Pa(src.flat[k])], Flags(src.flat[k]))
  {
    hide Space, Ram, Moves, Spent, Sized, Grown, Flags, Pte2Pa, CopyOf, Mapped, On, Foreign;
    SpaceOther(mem, free, pt, mem1, free1, pt1, src);
    CopySource(end, mem, free, src, n, k);
    CopyRound(mem, src, k, mem1);
    GrownAbsent(pt, 0, k, img, mem1, pt1, k);
  }

  // Page m could not be added.
  lemma GrowthFails(mem: Mem, free: seq<nat>, pt: Table, n: nat, m: nat,
                    img: nat -> Image, mem1: Mem, free1: seq<nat>, pt1: Table, mem2: Mem, free2: seq<nat>,
                        pt2: Table, hi: nat)
    requires Growth(mem, free, pt, n, m, img, mem1, free1, pt1) && Moves(mem1, free1, pt1, mem2, free2, pt2) && m < hi
    requires |free1| < 1 + Lack(pt1, Path(m)) && pt2.user == pt1.user
    ensures Moves(mem, free, pt, mem2, free2, pt2) && |free| < Need(pt, n, hi) && pt2.root == pt.root
  {
    hide Moves, Space, Spent, Grown, Path, Paths, Lack;
    MovesSpace(mem, free, pt, mem1, free1, pt1);
    MovesSpace(mem1, free1, pt1, mem2, free2, pt2);
    GrownUser(pt, n, m, img, mem1, pt1);
    MovesTrans(mem, free, pt, mem1, free1, pt1, mem2, free2, pt2);
    NeedShort(pt, free, n, m, 1, pt1, free1, hi);
  }

  lemma GrowthEnds(mem: Mem, free: seq<nat>, pt: Table, n: nat, m: nat,
                   img: nat -> Image, mem': Mem, free': seq<nat>, pt': Table)
    requires Growth(mem, free, pt, n, m, img, mem', free', pt')
    ensures |free| >= Need(pt, n, m) && Moves(mem, free, pt, mem', free', pt')
  {
    hide Moves, Grown, Paths, Lack;
    NeedMet(pt, free, Paths(n, m), m - n, pt', free');
  }

  lemma GrowthSpace(mem: Mem, free: seq<nat>, pt: Table, n: nat, m: nat,
                    img: nat -> Image, mem': Mem, free': seq<nat>, pt': Table)
    requires Growth(mem, free, pt, n, m, img, mem', free', pt')
    ensures Space(mem', free', pt') && pt'.root == pt.root && Grown(pt, n, m, img, mem', pt') && n <= m
    ensures Spent(pt, free, Paths(n, m), m - n, pt', free') && forall p :: p in pt.user ==> p in pt'.user
  {
    hide Grown, Spent, Space;
    GrownUser(pt, n, m, img, mem', pt');
  }

  lemma PagesUp(sz: nat)
    ensures sz <= Pages(sz) * PGSIZE
  {
  }

  lemma PagesStep(sz: nat, k: nat)
    requires k * PGSIZE < sz
    ensures k < Pages(sz)
  {
  }

  lemma PagesEnd(sz: nat, k: nat)
    requires sz <= k * PGSIZE && k <= Pages(sz)
    ensures k == Pages(sz)
  {
  }

  // ----- freeing the tables

  // The node d levels above m.
  function Up(m: Node, d: nat): (n: Node)
    ensures n.level == m.level + d
  {
    if d == 0 then m else Parent(Up(m, d - 1))
  }

  // m is n or lies below it.
  predicate Under(n: Node, m: Node) { m.level <= n.level && Up(m, n.level - m.level) == n }

  // m lies below one of the first i kids of n.
  predicate Below(n: Node, i: nat, m: Node) {
    m.level < n.level && var c := Up(m, n.level - 1 - m.level); Parent(c) == n && c.prefix % 512 < i
  }

  // The pages of the subtree of n, and of those of its first i kids.
  function Sub(pt: Table, n: Node): set<nat> { set p | p in pt.own && Under(n, pt.own[p]) }
  function SubBelow(pt: Table, n: Node, i: nat): set<nat> { set p | p in pt.own && Below(n, i, pt.own[p]) }

  lemma KidBelow(n: Node, i: nat, m: Node)
    requires n.level > 0 && i < 512
    ensures Below(n, i + 1, m) <==> Below(n, i, m) || Under(Kid(n, i), m)
    ensures !(Below(n, i, m) && Under(Kid(n, i), m))
  {
    var k := Kid(n, i);
    assert k.prefix % 512 == i && Parent(k) == n;
    if m.level < n.level {
      var c := Up(m, n.level - 1 - m.level);
      if Parent(c) == n && c.prefix % 512 == i {
        assert c.prefix == c.prefix / 512 * 512 + c.prefix % 512;
        assert c == k;
      }
    }
  }

  lemma AllBelow(n: Node, m: Node)
    ensures Under(n, m) <==> m == n || Below(n, 512, m)
    ensures !Below(n, 512, n) && !Below(n, 0, m)
  {
    if m.level < n.level {
      assert Up(m, n.level - m.level) == Parent(Up(m, n.level - 1 - m.level));
    }
  }

  lemma SubKid(pt: Table, n: Node, i: nat)
    requires n.level > 0 && i < 512
    ensures SubBelow(pt, n, i + 1) == SubBelow(pt, n, i) + Sub(pt, Kid(n, i))
            && SubBelow(pt, n, i) !! Sub(pt, Kid(n, i))
  {
    hide Below, Under;
    forall p | p in pt.own ensures Below(n, i + 1, pt.own[p])
        <==> Below(n, i, pt.own[p]) || Under(Kid(n, i), pt.own[p]) {
      KidBelow(n, i, pt.own[p]);
    }
    forall p | p in pt.own ensures !(Below(n, i, pt.own[p]) && Under(Kid(n, i), pt.own[p])) {
      KidBelow(n, i, pt.own[p]);
    }
  }

  lemma SubAll(pt: Table, n: Node)
    requires Inverse(pt) && n in pt.page
    ensures Sub(pt, n) == SubBelow(pt, n, 512) + {pt.page[n]} && pt.page[n] !in SubBelow(pt, n, 512)
            && SubBelow(pt, n, 0) == {}
  {
    hide Below, Under;
    AllBelow(n, n);
    forall p | p in pt.own
      ensures (Under(n, pt.own[p]) <==> p == pt.page[n] || Below(n, 512, pt.own[p])) && !Below(n, 0, pt.own[p])
    {
      AllBelow(n, pt.own[p]);
    }
  }

  lemma {:induction false} UpIn(pt: Table, m: Node, d: nat)
    requires Shaped(pt) && m in pt.page && m.level + d <= 2
    ensures Up(m, d) in pt.page
  {
    if d > 0 {
      UpIn(pt, m, d - 1);
    }
  }

  // Nothing lies below a node that is not there.
  lemma SubMissing(pt: Table, n: Node)
    requires Inverse(pt) && Shaped(pt) && n !in pt.page && n.level <= 2
    ensures Sub(pt, n) == {}
  {
    hide Shaped;
    forall p | p in pt.own ensures !Under(n, pt.own[p]) {
      var m := pt.own[p];
      if Under(n, m) {
        UpIn(pt, m, n.level - m.level);
      }
    }
  }

  // The subtree of n is intact.
  ghost predicate Intact(mem: Mem, pt: Table, n: Node) {
    forall m :: m in pt.page && Under(n, m) ==> Right(mem, pt, m)
  }

  // The pages in xs were freed.
  ghost predicate Released(free: seq<nat>, free': seq<nat>, xs: set<nat>) {
    forall p :: p in free' <==> p in free || p in xs
  }

  // freewalk has done the first i kids of n: what its loop has changed so far.
  ghost predicate Freeing(mem0: Mem, free0: seq<nat>, pt: Table, n: Node, i: nat, mem: Mem, free: seq<nat>)
    requires n in pt.page
  {
    && Released(free0, free, SubBelow(pt, n, i))
    && SameBut(mem0, mem, SubBelow(pt, n, i) + {pt.page[n]})
    && pt.page[n] in mem && |mem[pt.page[n]]| == 512
    && forall k :: i <= k < 512 ==> mem[pt.page[n]][k] == WordAt(pt, n, k)
  }

  lemma FreeingStart(mem: Mem, free: seq<nat>, pt: Table, n: Node)
    requires Inverse(pt) && n in pt.page && Intact(mem, pt, n)
    ensures Freeing(mem, free, pt, n, 0, mem, free)
  {
    hide WordAt, Below;
    SubAll(pt, n);
    AllBelow(n, n);
    assert Right(mem, pt, n);
  }

  // What freewalk reads in entry i, when no leaf is left.
  lemma FreeingEntry(mem0: Mem, free0: seq<nat>, pt: Table, n: Node, i: nat, mem: Mem, free: seq<nat>)
    requires n in pt.page && Freeing(mem0, free0, pt, n, i, mem, free) && i < 512 && Shaped(pt) && pt.flat == map[]
    ensures var w := mem[pt.page[n]][i];
            if n.level > 0 && Kid(n, i) in pt.page then IsValid(w) && NoAccess(w) && Pte2Pa(w) == pt.page[Kid(n, i)]
                else w == 0
  {
    hide SubBelow, MakePte, Pte2Pa, NoAccess, IsValid, Parent;
    assert mem[pt.page[n]][i] == WordAt(pt, n, i);
    if n.level > 0 && Kid(n, i) in pt.page {
      PteRoundTrip(pt.page[Kid(n, i)], 0);
      assert NoAccess(0) by { AccessNone(); }
    }
  }

  lemma AccessNone()
    ensures NoAccess(0)
  {
  }

  // The subtree of kid i is still intact, and not free.
  lemma FreeingKid(mem0: Mem, free0: seq<nat>, pt: Table, n: Node, i: nat, mem: Mem, free: seq<nat>)
    requires Inverse(pt) && n in pt.page && Freeing(mem0, free0, pt, n, i, mem, free) && i < 512 && n.level > 0
    requires Intact(mem0, pt, n) && forall p :: p in Sub(pt, n) ==> p !in free0
    ensures Intact(mem, pt, Kid(n, i)) && forall p :: p in Sub(pt, Kid(n, i)) ==> p !in free
    ensures pt.page[n] !in free && pt.page[n] !in Sub(pt, Kid(n, i))
  {
    hide WordAt, Below, Under;
    SubKid(pt, n, i);
    KidInside(pt, n, i);
    forall m | m in pt.page && Under(Kid(n, i), m) ensures Right(mem, pt, m) {
      KidUnder(n, i, m);
      assert Right(mem0, pt, m);
      assert pt.page[m] in Sub(pt, Kid(n, i));
    }
  }

  lemma KidUnder(n: Node, i: nat, m: Node)
    requires n.level > 0 && i < 512 && Under(Kid(n, i), m)
    ensures Under(n, m) && m != n
  {
    assert Parent(Kid(n, i)) == n;
  }

  lemma KidInside(pt: Table, n: Node, i: nat)
    requires Inverse(pt) && n in pt.page && n.level > 0 && i < 512
    ensures Sub(pt, Kid(n, i)) <= Sub(pt, n) && pt.page[n] !in Sub(pt, Kid(n, i)) && pt.page[n] in Sub(pt, n)
    ensures SubBelow(pt, n, i) <= Sub(pt, n) && pt.page[n] !in SubBelow(pt, n, i)
  {
    hide Under;
    forall p | p in Sub(pt, Kid(n, i)) ensures p in Sub(pt, n) && p != pt.page[n] {
      KidUnder(n, i, pt.own[p]);
    }
    forall p | p in SubBelow(pt, n, i) ensures Below(n, 512, pt.own[p]) {
    }
    SubAll(pt, n);
  }

  // Entry i is done: either the subtree of its kid was freed and the entry cleared, ...
  lemma FreeingNext(mem0: Mem, free0: seq<nat>, pt: Table, n: Node, i: nat, mem: Mem, free: seq<nat>, mem': Mem,
                    free': seq<nat>)
    requires Inverse(pt) && n in pt.page && Freeing(mem0, free0, pt, n, i, mem, free) && i < 512 && n.level > 0
    requires Released(free, free', Sub(pt, Kid(n, i))) && SameBut(mem, mem', Sub(pt, Kid(n, i)))
    ensures pt.page[n] in mem' && |mem'[pt.page[n]]| == 512
    ensures Freeing(mem0, free0, pt, n, i + 1, Store(mem', pt.page[n], i, 0), free')
  {
    hide WordAt, Sub, SubBelow;
    SubKid(pt, n, i);
    KidInside(pt, n, i);
  }

  // ... or there is no kid.
  lemma FreeingSkip(mem0: Mem, free0: seq<nat>, pt: Table, n: Node, i: nat, mem: Mem, free: seq<nat>)
    requires Inverse(pt) && Shaped(pt) && n in pt.page && Freeing(mem0, free0, pt, n, i, mem, free) && i < 512
    requires n.level == 0 || Kid(n, i) !in pt.page
    ensures Freeing(mem0, free0, pt, n, i + 1, mem, free)
  {
    hide WordAt, Parent, Up, Sub;
    assert IsNode(n);
    if n.level > 0 {
      SubKid(pt, n, i);
      SubMissing(pt, Kid(n, i));
    } else {
      assert SubBelow(pt, n, i + 1) == SubBelow(pt, n, i);
    }
  }

  lemma FreeingEnd(mem0: Mem, free0: seq<nat>, pt: Table, n: Node, mem: Mem, free: seq<nat>, mem': Mem, free': seq<nat>)
    requires Inverse(pt) && n in pt.page && Freeing(mem0, free0, pt, n, 512, mem, free)
    requires SameBut(mem, mem', {pt.page[n]}) && free' == [pt.page[n]] + free
    ensures Released(free0, free', Sub(pt, n)) && SameBut(mem0, mem', Sub(pt, n))
  {
    hide Sub, SubBelow, WordAt;
    SubAll(pt, n);
  }

  lemma FreeingTable(mem0: Mem, free0: seq<nat>, pt: Table, n: Node, i: nat, mem: Mem, free: seq<nat>)
    requires Inverse(pt) && n in pt.page && Freeing(mem0, free0, pt, n, i, mem, free) && i <= 512
    requires forall p :: p in Sub(pt, n) ==> p !in free0
    ensures pt.page[n] !in free && pt.page[n] in mem
  {
    hide Sub, SubBelow, WordAt;
    SubAll(pt, n);
    BelowMono(pt, n, i);
  }

  lemma BelowMono(pt: Table, n: Node, i: nat)
    requires i <= 512
    ensures SubBelow(pt, n, i) <= SubBelow(pt, n, 512)
  {
    hide Up;
  }

  // All pages of a table lie below its root.
  lemma SubRoot(pt: Table)
    requires Inverse(pt) && Shaped(pt)
    ensures Sub(pt, ROOT) == pt.own.Keys
  {
    hide Parent, Up;
    forall p | p in pt.own ensures Under(ROOT, pt.own[p]) {
      var m := pt.own[p];
      assert m in pt.page && IsNode(m);
      UpIn(pt, m, 2 - m.level);
      assert IsNode(Up(m, 2 - m.level));
    }
  }

  lemma TreeIntact(mem: Mem, pt: Table)
    requires Tree(mem, pt)
    ensures Intact(mem, pt, ROOT)
  {
    hide Right, Under;
  }

  // ----- a whole address space

  // Everything that pt held is free now, and nothing else changed.
  ghost predicate GivenBack(mem: Mem, free: seq<nat>, pt: Table, mem': Mem, free': seq<nat>) {
    && (forall p :: p in free' <==> Holds(free, pt, p))
    && (forall p :: p in mem <==> p in mem')
    && (forall p :: p in mem && !Holds(free, pt, p) ==> mem'[p] == mem[p])
  }

  lemma AllDropped(mem: Mem, pt: Table, n: nat, pt': Table)
    requires Backed(mem, pt) && Dropped(pt, 0, n, true, pt') && forall v :: v in pt.flat ==> v < n
    ensures pt'.flat == map[] && pt'.user == map[]
  {
    hide Flags, Pte2Pa;
  }

  lemma TablesBack(mem: Mem, free: seq<nat>, pt: Table, mem1: Mem, free1: seq<nat>, pt1: Table, mem2: Mem,
                   free2: seq<nat>)
    requires Moves(mem, free, pt, mem1, free1, pt1) && pt1.user == map[]
    requires Released(free1, free2, Sub(pt1, ROOT)) && SameBut(mem1, mem2, Sub(pt1, ROOT))
    ensures GivenBack(mem, free, pt, mem2, free2)
  {
    hide Sub, Right, Backed;
    SubRoot(pt1);
    forall p ensures p in free2 <==> Holds(free, pt, p) {
      assert Holds(free, pt, p) <==> Holds(free1, pt1, p);
    }
  }

  lemma BackAfter(mem: Mem, free: seq<nat>, pt: Table, mem1: Mem, free1: seq<nat>, pt1: Table, mem2: Mem,
                  free2: seq<nat>)
    requires Moves(mem, free, pt, mem1, free1, pt1) && GivenBack(mem1, free1, pt1, mem2, free2)
    ensures GivenBack(mem, free, pt, mem2, free2)
  {
    hide Space, Holds;
  }

  lemma RootReady(mem: Mem, free: seq<nat>, pt: Table)
    requires Space(mem, free, pt)
    ensures Inverse(pt) && Shaped(pt) && ROOT in pt.page && pt.page[ROOT] == pt.root
    ensures Intact(mem, pt, ROOT) && forall p :: p in Sub(pt, ROOT) ==> p !in free
  {
    hide Right, Backed;
    TreeIntact(mem, pt);
    SubRoot(pt);
  }

  // A leaf that the user has no access to.
  predicate Hidden(pte: nat) { Flags(pte) != PTE_V && !IsUser(pte) }

  // A process's table: its user pages below n, the trapframe and the trampoline.
  ghost predicate UserTable(pt: Table, n: nat) {
    && Sized(pt, n)
    && (forall v :: v in pt.flat ==> v < n || v == TRAPFRAME / PGSIZE || v == TRAMPOLINE / PGSIZE)
    && TRAPFRAME / PGSIZE in pt.flat && Hidden(pt.flat[TRAPFRAME / PGSIZE])
    && TRAMPOLINE / PGSIZE in pt.flat && Hidden(pt.flat[TRAMPOLINE / PGSIZE])
  }

  lemma TopDroppable(mem: Mem, free: seq<nat>, pt: Table, v: nat)
    requires Space(mem, free, pt) && v in pt.flat && Flags(pt.flat[v]) != PTE_V && TRAPFRAME / PGSIZE <= v
    ensures Droppable(pt, v, v + 1, false)
  {
    hide Tree, Flags, Pte2Pa;
  }

  lemma TopsDropped(pt: Table, n: nat, pt1: Table, pt2: Table)
    requires UserTable(pt, n) && Dropped(pt, TRAMPOLINE / PGSIZE, TRAMPOLINE / PGSIZE + 1, false, pt1)
    requires Dropped(pt1, TRAPFRAME / PGSIZE, TRAPFRAME / PGSIZE + 1, false, pt2) && n <= TRAPFRAME / PGSIZE
    ensures Sized(pt2, n) && forall v :: v in pt2.flat ==> v < n
  {
    hide Flags, Pte2Pa;
    forall v: nat | v < n ensures Mapped(pt2, v) {
      assert Mapped(pt, v);
    }
  }

  lemma TopKept(pt: Table, n: nat, pt1: Table)
    requires UserTable(pt, n) && Dropped(pt, TRAMPOLINE / PGSIZE, TRAMPOLINE / PGSIZE + 1, false, pt1)
    ensures TRAPFRAME / PGSIZE in pt1.flat && Flags(pt1.flat[TRAPFRAME / PGSIZE]) != PTE_V
    ensures pt1.root == pt.root && pt1.user == pt.user
  {
    hide Flags, Pte2Pa;
  }

  function EmptyTable(root: nat): Table { Table(root, map[root := ROOT], map[ROOT := root], map[], map[]) }

  // pt was made of pages that were free.
  ghost predicate Born(mem: Mem, free: seq<nat>, mem': Mem, free': seq<nat>, pt: Table) {
    && (forall p :: p in free <==> Holds(free', pt, p))
    && (forall p :: p in mem <==> p in mem')
    && (forall p :: p in mem && p !in free ==> mem'[p] == mem[p])
  }

  // The same pages are free as before, and nothing else changed.
  ghost predicate Restored(mem: Mem, free: seq<nat>, mem': Mem, free': seq<nat>) {
    && (forall p :: p in free <==> p in free')
    && (forall p :: p in mem <==> p in mem')
    && (forall p :: p in mem && p !in free ==> mem'[p] == mem[p])
  }

  lemma RestoredSelf(mem: Mem, free: seq<nat>)
    ensures Restored(mem, free, mem, free)
  {
  }

  lemma EmptyBorn(mem: Mem, free: seq<nat>, mem': Mem, free': seq<nat>, root: nat)
    requires free == [root] + free' && root !in free' && root % PGSIZE == 0 && root in mem' && mem'[root] == Zeros()
             && SameBut(mem, mem', {root})
    ensures Born(mem, free, mem', free', EmptyTable(root)) && Space(mem', free', EmptyTable(root))
  {
    var pt := EmptyTable(root);
    hide Parent;
    assert forall k :: WordAt(pt, ROOT, k) == 0;
    assert Right(mem', pt, ROOT);
  }

  lemma BornMoves(mem: Mem, free: seq<nat>, mem1: Mem, free1: seq<nat>, pt1: Table, mem2: Mem, free2: seq<nat>,
                  pt2: Table)
    requires Born(mem, free, mem1, free1, pt1) && Moves(mem1, free1, pt1, mem2, free2, pt2)
    ensures Born(mem, free, mem2, free2, pt2)
  {
    hide Holds, Space;
  }

  lemma BornBack(mem: Mem, free: seq<nat>, mem1: Mem, free1: seq<nat>, pt: Table, mem2: Mem, free2: seq<nat>)
    requires Born(mem, free, mem1, free1, pt) && GivenBack(mem1, free1, pt, mem2, free2)
    ensures Restored(mem, free, mem2, free2)
  {
    hide Holds;
  }

  lemma NoPages(pt: Table)
    requires pt.flat == map[]
    ensures Sized(pt, 0) && Pages(0) == 0
  {
  }

  // The table of a new process.
  lemma FreshUserTable(pt: Table, trampoline: nat, trapframe: nat)
    requires pt.flat == map[TRAMPOLINE / PGSIZE := MakePte(trampoline, PTE_R + PTE_X),
                            TRAPFRAME / PGSIZE := MakePte(trapframe, PTE_R + PTE_W)]
    ensures UserTable(pt, 0)
  {
    hide MakePte, Hidden, Mapped;
    PageFlags(trampoline, PTE_R + PTE_X);
    PageFlags(trapframe, PTE_R + PTE_W);
  }

  lemma PageFlags(pa: nat, perm: nat)
    requires 1 < perm < 16
    ensures Hidden(MakePte(pa, perm))
  {
    var f := if perm % 2 == 1 then perm else perm + 1;
    Fields(pa / PGSIZE, f);
    assert f / 16 == 0;
  }

  // The tops of the address space survive growing and shrinking.
  lemma UserTableGrown(pt: Table, n: nat, m: nat, img: nat -> Image, mem: Mem, pt': Table)
    requires UserTable(pt, n) && Grown(pt, n, m, img, mem, pt') && Sized(pt', m) && n <= m <= TRAPFRAME / PGSIZE
    ensures UserTable(pt', m)
  {
    hide Like, Flags, Mapped;
  }

  lemma UserTableDropped(pt: Table, m: nat, n: nat, pt': Table)
    requires UserTable(pt, n) && Dropped(pt, m, n, true, pt') && Sized(pt', m) && m <= n <= TRAPFRAME / PGSIZE
    ensures UserTable(pt', m)
  {
    hide Flags, Mapped;
  }

  lemma UserTableSame(pt: Table, n: nat, pt': Table)
    requires UserTable(pt, n) && pt'.flat == pt.flat && pt'.user == pt.user
    ensures UserTable(pt', n)
  {
    hide Flags, Mapped;
    SizedSame(pt, pt', n);
  }

  lemma SizeLimit(end: nat, mem: Mem, free: seq<nat>, pt: Table, sz: nat)
    requires Ram(end, mem) && Space(mem, free, pt) && Sized(pt, Pages(sz))
    ensures sz <= PHYSTOP && Pages(sz) <= TRAPFRAME / PGSIZE
  {
    hide Tree, Flags, Pte2Pa, Mapped;
    SizedBound(end, mem, pt, Pages(sz));
  }

  lemma UserSized(pt: Table, n: nat)
    requires UserTable(pt, n)
    ensures Sized(pt, n)
  {
  }
}
