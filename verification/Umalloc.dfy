// The memory allocator of user/umalloc.c.  Addresses count headers (units of 16 bytes).
module Umalloc {
  import opened Common

  // A block of memory, header included, and whether it is free.
  datatype Block = Block(size: nat, free: bool)

  // The free list from base on, the blocks by address, and the units obtained from the
  // system.
  datatype Store = Store(list: seq<nat>, blk: map<nat, Block>, units: set<nat>)

  // The units of block b are among them.
  ghost predicate Whole(s: Store, b: nat)
    requires b in s.blk
  {
    s.blk[b].size > 0 && forall u :: b <= u < b + s.blk[b].size ==> u in s.units
  }

  // Unit u lies in block b.
  predicate In(s: Store, u: nat, b: nat) { b in s.blk && b <= u < b + s.blk[b].size }

  ghost predicate Inside(s: Store, u: nat) { exists b :: In(s, u, b) }

  ghost predicate Ordered(s: Store, a: nat, b: nat) {
    a in s.blk && b in s.blk && a < b ==> a + s.blk[a].size <= b
  }

  // The blocks tile the units: each unit is in exactly one block.
  ghost predicate Tiled(s: Store) {
    && (forall b :: b in s.blk ==> Whole(s, b)) && (forall u :: u in s.units ==> Inside(s, u))
    && (forall a, b :: Ordered(s, a, b))
  }

  predicate Sorted(list: seq<nat>) { forall i, j :: 0 <= i < j < |list| ==> list[i] < list[j] }

  // After base the list holds the free blocks.
  ghost predicate Listed(base: nat, s: Store) {
    && |s.list| > 0 && s.list[0] == base && Sorted(s.list)
    && (forall b :: b in s.blk ==> base < b)
    && (forall b :: b in s.list <==> b == base || (b in s.blk && s.blk[b].free))
  }

  // Free blocks that touch, a before b.
  predicate Touch(s: Store, a: nat, b: nat) {
    a in s.blk && s.blk[a].free && b in s.blk && s.blk[b].free && a + s.blk[a].size == b
  }

  ghost predicate Coalesced(s: Store) { forall a, b :: !Touch(s, a, b) }

  ghost predicate Good(base: nat, s: Store) { Tiled(s) && Listed(base, s) }

  // Blocks do not overlap.
  lemma Disjoint(s: Store, a: nat, b: nat)
    requires Tiled(s) && a in s.blk && b in s.blk && a < b
    ensures a + s.blk[a].size <= b
  {
    assert Ordered(s, a, b);
  }

  // ----- freeing

  // list[k] is where bp goes after.
  predicate Slot(list: seq<nat>, k: nat, bp: nat) {
    k < |list| && list[k] < bp && (k + 1 < |list| ==> bp < list[k + 1])
  }

  function Insert(s: Store, k: nat, bp: nat): (r: Store)
    requires k < |s.list| && bp in s.blk
    ensures |r.list| == |s.list| + 1 && r.list[k] == s.list[k] && r.list[k + 1] == bp
  {
    Store(s.list[..k + 1] + [bp] + s.list[k + 1..], s.blk[bp := Block(s.blk[bp].size, true)], s.units)
  }

  lemma InsertGood(base: nat, s: Store, k: nat, bp: nat)
    requires Good(base, s) && Slot(s.list, k, bp) && bp in s.blk && !s.blk[bp].free
    ensures Good(base, Insert(s, k, bp))
    ensures Coalesced(s) ==> forall a, b :: Touch(Insert(s, k, bp), a, b) ==> a == bp || b == bp
  {
    var s' := Insert(s, k, bp);
    InsertListed(base, s, k, bp);
    RetagTiled(s, s');
    forall a, b | Coalesced(s) && Touch(s', a, b) ensures a == bp || b == bp {
      assert !Touch(s, a, b);
    }
  }

  lemma InsertListed(base: nat, s: Store, k: nat, bp: nat)
    requires Listed(base, s) && Slot(s.list, k, bp) && bp in s.blk && !s.blk[bp].free
    ensures Listed(base, Insert(s, k, bp))
  {
    InsertSorted(s.list, k, bp);
    assert s.list == s.list[..k + 1] + s.list[k + 1..];
  }

  lemma InsertSorted(list: seq<nat>, k: nat, bp: nat)
    requires Sorted(list) && Slot(list, k, bp)
    ensures Sorted(list[..k + 1] + [bp] + list[k + 1..])
  {
    var l := list[..k + 1] + [bp] + list[k + 1..];
    forall i, j | 0 <= i < j < |l| ensures l[i] < l[j] {
      assert i <= k ==> l[i] == list[i] && list[i] <= list[k];
      assert j > k + 1 ==> l[j] == list[j - 1] && list[k + 1] <= list[j - 1];
      assert i > k + 1 ==> l[i] == list[i - 1];
    }
  }

  // The block after list[i] joins it.
  function Merge(s: Store, i: nat): Store
    requires i + 1 < |s.list| && s.list[i] in s.blk && s.list[i + 1] in s.blk
  {
    var a, b := s.list[i], s.list[i + 1];
    var joined := s.blk[a].size + s.blk[b].size;
    Store(s.list[..i + 1] + s.list[i + 2..], (s.blk - {b})[a := Block(joined, true)], s.units)
  }

  lemma MergeGood(base: nat, s: Store, i: nat)
    requires Good(base, s) && 0 < i && i + 1 < |s.list| && Touch(s, s.list[i], s.list[i + 1])
    ensures Good(base, Merge(s, i)) && Merge(s, i).units == s.units
  {
    MergeTiled(s, i);
    MergeListed(base, s, i);
  }

  lemma MergeTiled(s: Store, i: nat)
    requires Tiled(s) && i + 1 < |s.list| && Touch(s, s.list[i], s.list[i + 1])
    ensures Tiled(Merge(s, i))
  {
    var a, b, s' := s.list[i], s.list[i + 1], Merge(s, i);
    assert Whole(s, a) && Whole(s, b);
    forall c | c in s'.blk ensures Whole(s', c) {
      if c != a {
        assert Whole(s, c);
      }
    }
    forall u | u in s'.units ensures Inside(s', u) {
      assert Inside(s, u);
      var c :| In(s, u, c);
      assert In(s', u, if c == b then a else c);
    }
    forall c: nat, d: nat ensures Ordered(s', c, d) {
      assert Ordered(s, c, d) && Ordered(s, c, b) && Ordered(s, b, d) && Ordered(s, a, d) && Ordered(s, c, a);
    }
  }

  lemma MergeListed(base: nat, s: Store, i: nat)
    requires Listed(base, s) && 0 < i && i + 1 < |s.list| && Touch(s, s.list[i], s.list[i + 1])
    ensures Listed(base, Merge(s, i))
  {
    var l := s.list[..i + 1] + s.list[i + 2..];
    assert s.list == s.list[..i + 1] + [s.list[i + 1]] + s.list[i + 2..];
    RemoveSorted(s.list, i + 1);
  }

  lemma RemoveSorted(list: seq<nat>, i: nat)
    requires Sorted(list) && i < |list|
    ensures Sorted(list[..i] + list[i + 1..]) && list[i] !in list[..i] + list[i + 1..]
  {
    var l := list[..i] + list[i + 1..];
    assert forall j :: 0 <= j < |l| ==> l[j] == if j < i then list[j] else list[j + 1];
  }

  // Joining what touches around a block that was inserted at i leaves nothing touching.
  lemma MergeCoalesces(base: nat, s: Store, i: nat)
    requires Good(base, s) && 0 < i && i + 1 < |s.list| && Touch(s, s.list[i], s.list[i + 1])
    ensures forall a, b :: Touch(Merge(s, i), a, b) ==>
              if a == s.list[i] then Touch(s, s.list[i + 1], b) else Touch(s, a, b)
  {
  }

  // Free blocks that touch are neighbours in the list.
  lemma TouchNext(base: nat, s: Store, i: nat, b: nat)
    requires Good(base, s) && i < |s.list| && Touch(s, s.list[i], b)
    ensures i + 1 < |s.list| && s.list[i + 1] == b
  {
    var a := s.list[i];
    assert Whole(s, a);
    var j :| 0 <= j < |s.list| && s.list[j] == b;
    assert i < j;
    if i + 1 < j {
      var c := s.list[i + 1];
      assert a < c < b && c in s.list;
      Disjoint(s, a, c);
      assert false;
    }
  }

  // ----- the linked list

  predicate LinkAt(ptr: map<nat, nat>, list: seq<nat>, i: nat)
    requires i < |list|
  {
    list[i] in ptr && ptr[list[i]] == if i + 1 < |list| then list[i + 1] else list[0]
  }

  // The pointers link the list into a circle.
  ghost predicate Linked(ptr: map<nat, nat>, list: seq<nat>) { forall i :: 0 <= i < |list| ==> LinkAt(ptr, list, i) }

  lemma LinkInsert(ptr: map<nat, nat>, list: seq<nat>, k: nat, bp: nat)
    requires Linked(ptr, list) && Sorted(list) && k < |list| && bp !in list
    ensures list[k] in ptr && Linked(ptr[bp := ptr[list[k]]][list[k] := bp], list[..k + 1] + [bp] + list[k + 1..])
  {
    assert LinkAt(ptr, list, k);
    var ptr', l := ptr[bp := ptr[list[k]]][list[k] := bp], list[..k + 1] + [bp] + list[k + 1..];
    forall i | 0 <= i < |l| ensures LinkAt(ptr', l, i) {
      if i < k {
        assert LinkAt(ptr, list, i);
      } else if i > k + 1 {
        assert LinkAt(ptr, list, i - 1);
      }
    }
  }

  lemma LinkRemove(ptr: map<nat, nat>, list: seq<nat>, i: nat)
    requires Linked(ptr, list) && Sorted(list) && i + 1 < |list|
    ensures list[i + 1] in ptr && Linked(ptr[list[i] := ptr[list[i + 1]]], list[..i + 1] + list[i + 2..])
  {
    assert LinkAt(ptr, list, i + 1);
    var ptr', l := ptr[list[i] := ptr[list[i + 1]]], list[..i + 1] + list[i + 2..];
    forall j | 0 <= j < |l| ensures LinkAt(ptr', l, j) {
      if j < i {
        assert LinkAt(ptr, list, j);
      } else if j > i {
        assert LinkAt(ptr, list, j + 1);
      }
    }
  }

  // The headers in memory.
  ghost predicate Headers(size: map<nat, nat>, base: nat, blk: map<nat, Block>) {
    base in size && size[base] == 0 && forall b :: b in blk ==> b in size && size[b] == blk[b].size
  }

  // ----- finding the place of a block

  lemma {:induction false} SlotExists(list: seq<nat>, bp: nat) returns (k: nat)
    requires |list| > 0 && Sorted(list) && list[0] < bp && bp !in list
    ensures Slot(list, k, bp)
  {
    k := 0;
    while k + 1 < |list| && list[k + 1] < bp
      invariant k < |list| && list[k] < bp
    {
      k := k + 1;
    }
  }

  // ----- what free and malloc do to the blocks

  predicate InUse(s: Store, b: nat) { b in s.blk && !s.blk[b].free }

  // The blocks that the program holds, with their sizes.
  function Used(s: Store): set<(nat, nat)> { set b | b in s.blk && InUse(s, b) :: (b, s.blk[b].size) }

  // free, when bp goes after list[k]: it joins what it touches.
  function JoinUpper(s: Store, k: nat): Store
    requires k + 1 < |s.list|
  {
    if k + 2 < |s.list| && Touch(s, s.list[k + 1], s.list[k + 2]) then Merge(s, k + 1) else s
  }

  function JoinLower(s: Store, k: nat): Store
    requires k + 1 < |s.list|
  {
    if Touch(s, s.list[k], s.list[k + 1]) then Merge(s, k) else s
  }

  lemma InsertUsed(s: Store, k: nat, bp: nat)
    requires k < |s.list| && bp in s.blk && !s.blk[bp].free
    ensures Used(Insert(s, k, bp)) == Used(s) - {(bp, s.blk[bp].size)}
  {
    var s' := Insert(s, k, bp);
    forall x: (nat, nat) ensures x in Used(s') <==> x in Used(s) - {(bp, s.blk[bp].size)} {
      UsedIs(s, x);
      UsedIs(s', x);
    }
  }

  lemma UsedIs(s: Store, x: (nat, nat))
    ensures x in Used(s) <==> InUse(s, x.0) && s.blk[x.0].size == x.1
  {
  }

  // The memory that malloc returned as r: x bytes from address 16 * r on lie in the block
  // of r, past its header.
  predicate Holds(s: Store, r: nat, x: nat) {
    0 < r && InUse(s, r - 1) && 16 * r + x <= 16 * (r - 1 + s.blk[r - 1].size)
  }

  lemma HoldsExactly(s: Store, r: nat, n: nat, x: nat)
    requires 0 < r && (r - 1, n) in Used(s) && x <= 16 * (n - 1) < x + 16
    ensures Holds(s, r, x) && !Holds(s, r, x + 16)
  {
    UsedIs(s, (r - 1, n));
  }

  // Two pieces of memory that the program holds have no byte in common.
  lemma PiecesApart(base: nat, s: Store, r: nat, x: nat, t: nat, y: nat, a: nat)
    requires Good(base, s) && r != t && Holds(s, r, x) && Holds(s, t, y)
    ensures !(16 * r <= a < 16 * r + x && 16 * t <= a < 16 * t + y)
  {
    hide Listed;
    if r < t {
      Disjoint(s, r - 1, t - 1);
    } else {
      Disjoint(s, t - 1, r - 1);
    }
  }

  lemma SameInUse(s: Store, s': Store, b: nat)
    requires Used(s) == Used(s')
    ensures InUse(s, b) <==> InUse(s', b)
  {
    hide Used;
    if b in s.blk {
      UsedIs(s, (b, s.blk[b].size));
      UsedIs(s', (b, s.blk[b].size));
    }
    if b in s'.blk {
      UsedIs(s, (b, s'.blk[b].size));
      UsedIs(s', (b, s'.blk[b].size));
    }
  }

  // A block taken into use and given back.
  lemma UsedBack(s: Store, a: nat, n: nat)
    requires !InUse(s, a)
    ensures Used(s) + {(a, n)} - {(a, n)} == Used(s)
  {
    hide Used;
    UsedIs(s, (a, n));
  }

  lemma MergeUsed(s: Store, i: nat)
    requires i + 1 < |s.list| && Touch(s, s.list[i], s.list[i + 1])
    ensures Used(Merge(s, i)) == Used(s)
  {
    forall x: (nat, nat) ensures x in Used(Merge(s, i)) <==> x in Used(s) {
      UsedIs(s, x);
      UsedIs(Merge(s, i), x);
    }
  }

  lemma UpperGood(base: nat, s: Store, k: nat)
    requires Good(base, s) && k + 1 < |s.list|
    requires forall a, b :: Touch(s, a, b) ==> a == s.list[k + 1] || b == s.list[k + 1]
    ensures var s' := JoinUpper(s, k);
            && Good(base, s') && s'.units == s.units && Used(s') == Used(s)
            && k + 1 < |s'.list| && s'.list[..k + 2] == s.list[..k + 2]
            && forall a, b :: Touch(s', a, b) ==> b == s.list[k + 1]
  {
    var bp, s' := s.list[k + 1], JoinUpper(s, k);
    if k + 2 < |s.list| && Touch(s, bp, s.list[k + 2]) {
      MergeGood(base, s, k + 1);
      MergeCoalesces(base, s, k + 1);
      MergeUsed(s, k + 1);
      assert s'.list == s.list[..k + 2] + s.list[k + 3..];
    }
    forall a, b | Touch(s', a, b) ensures b == bp {
      if a == bp {
        if s' == s {
          TouchNext(base, s, k + 1, b);
          assert false;
        } else {
          assert false;
        }
      }
    }
  }

  lemma LowerGood(base: nat, s: Store, k: nat)
    requires Good(base, s) && k + 1 < |s.list|
    requires forall a, b :: Touch(s, a, b) ==> b == s.list[k + 1]
    ensures var s' := JoinLower(s, k);
            && Good(base, s') && s'.units == s.units && Used(s') == Used(s) && Coalesced(s')
            && k < |s'.list| && s'.list[k] == s.list[k]
  {
    var p, bp, s' := s.list[k], s.list[k + 1], JoinLower(s, k);
    if Touch(s, p, bp) {
      assert k > 0;
      MergeGood(base, s, k);
      MergeCoalesces(base, s, k);
      MergeUsed(s, k);
    }
    forall a, b ensures !Touch(s', a, b) {
      if Touch(s', a, b) {
        if s' == s {
          var i :| 0 <= i < |s.list| && s.list[i] == a;
          TouchNext(base, s, i, bp);
          assert false;
        } else {
          assert false;
        }
      }
    }
  }

  // Unit u lies in a free block of at least n units.
  ghost predicate FreeIn(s: Store, u: nat, n: nat) { exists b :: FreeAt(s, u, n, b) }

  predicate FreeAt(s: Store, u: nat, n: nat, b: nat) { In(s, u, b) && s.blk[b].free && s.blk[b].size >= n }

  lemma FreeLess(s: Store, u: nat, n: nat, m: nat)
    requires FreeIn(s, u, n) && m <= n
    ensures FreeIn(s, u, m)
  {
    var b :| FreeAt(s, u, n, b);
    assert FreeAt(s, u, m, b);
  }

  lemma InsertFree(s: Store, k: nat, bp: nat)
    requires Tiled(s) && k < |s.list| && bp in s.blk
    ensures FreeIn(Insert(s, k, bp), bp, s.blk[bp].size)
  {
    assert Whole(s, bp);
    assert FreeAt(Insert(s, k, bp), bp, s.blk[bp].size, bp);
  }

  lemma MergeFree(s: Store, i: nat, u: nat, n: nat)
    requires FreeIn(s, u, n) && i + 1 < |s.list| && Touch(s, s.list[i], s.list[i + 1])
    ensures FreeIn(Merge(s, i), u, n)
  {
    var b :| FreeAt(s, u, n, b);
    assert FreeAt(Merge(s, i), u, n, if b == s.list[i + 1] then s.list[i] else b);
  }

  // ----- free, on the headers

  // What free reads around list[k].
  lemma SlotReads(base: nat, s: Store, k: nat, bp: nat, ptr: map<nat, nat>, size: map<nat, nat>)
    requires Good(base, s) && k < |s.list| && bp in s.blk && Linked(ptr, s.list) && Headers(size, base, s.blk)
    ensures s.list[k] in ptr && bp in size && size[bp] == s.blk[bp].size
    ensures var next := ptr[s.list[k]];
            next in ptr && next in size && next == (if k + 1 < |s.list| then s.list[k + 1] else base)
                && (k + 1 < |s.list| ==> next in s.blk && size[next] == s.blk[next].size)
  {
    hide Tiled, Touch;
    assert LinkAt(ptr, s.list, k);
    var j := if k + 1 < |s.list| then k + 1 else 0;
    assert LinkAt(ptr, s.list, j);
    assert s.list[j] in s.list;
  }

  lemma UpperTouch(base: nat, s: Store, k: nat, bp: nat, next: nat)
    requires Good(base, s) && k < |s.list| && bp in s.blk && Good(base, Insert(s, k, bp))
    requires next == if k + 1 < |s.list| then s.list[k + 1] else base
    ensures var s1 := Insert(s, k, bp);
            (bp + s.blk[bp].size == next <==> k + 2 < |s1.list| && Touch(s1, bp, s1.list[k + 2]))
                && (k + 2 < |s1.list| ==> s1.list[k + 2] == next)
  {
    hide Tiled;
    var s1 := Insert(s, k, bp);
    if k + 2 < |s1.list| {
      assert s1.list[k + 2] == s.list[k + 1];
      assert s1.list[k + 2] in s1.list && s1.list[k + 2] != base;
    }
  }

  lemma UpperLinked(base: nat, s: Store, k: nat, bp: nat, next: nat, ptr: map<nat, nat>, size: map<nat, nat>, s1: Store)
    requires Sorted(s.list) && k < |s.list| && bp in s.blk && !s.blk[bp].free && bp !in s.list && bp != base
    requires s1 == Insert(s, k, bp) && Sorted(s1.list) && k + 1 < |s1.list|
    requires Linked(ptr, s.list) && Headers(size, base, s.blk) && s.list[k] in ptr && ptr[s.list[k]] == next
    requires next in ptr && next in size && bp in size
    requires bp + size[bp] == next <==> k + 2 < |s1.list| && Touch(s1, bp, s1.list[k + 2])
    requires k + 2 < |s1.list| ==> s1.list[k + 2] == next && next in s.blk
    ensures var s2 := JoinUpper(s1, k);
            if bp + size[bp] == next then
              Linked(ptr[bp := ptr[next]][s.list[k] := bp], s2.list)
                  && Headers(size[bp := size[bp] + size[next]], base, s2.blk)
            else
              Linked(ptr[bp := next][s.list[k] := bp], s2.list) && Headers(size, base, s2.blk)
  {
    hide Tiled, Touch, Linked;
    var p := s.list[k];
    LinkInsert(ptr, s.list, k, bp);
    if bp + size[bp] == next {
      LinkRemove(ptr[bp := next][p := bp], s1.list, k + 1);
      assert ptr[bp := next][p := bp][bp := ptr[next]] == ptr[bp := ptr[next]][p := bp];
    }
  }

  lemma GoodSorted(base: nat, s: Store)
    requires Good(base, s)
    ensures Sorted(s.list) && forall b :: b in s.blk ==> base < b
  {
  }

  lemma LowerLinked(base: nat, s: Store, k: nat, ptr: map<nat, nat>, size: map<nat, nat>)
    requires Good(base, s) && k + 1 < |s.list|
    requires Linked(ptr[s.list[k] := s.list[k + 1]], s.list) && Headers(size, base, s.blk)
    ensures var p, bp := s.list[k], s.list[k + 1];
            && p in size && bp in size && bp in ptr
            && (p + size[p] == bp <==> Touch(s, p, bp))
            && (p + size[p] == bp ==>
                  && Linked(ptr[p := ptr[bp]], JoinLower(s, k).list)
                  && Headers(size[p := size[p] + size[bp]], base, JoinLower(s, k).blk))
  {
    hide Tiled;
    var p, bp := s.list[k], s.list[k + 1];
    assert p in s.list && bp in s.list && p < bp;
    LinkRemove(ptr[p := bp], s.list, k);
    assert ptr[p := bp][p := ptr[bp]] == ptr[p := ptr[bp]];
  }

  // ----- malloc

  // The number of units that malloc takes for nbytes: a header, and the least that holds
  // the bytes.
  function Need(nbytes: nat): (n: nat)
    ensures nbytes <= 16 * (n - 1) < nbytes + 16
  {
    (nbytes + 16 - 1) / 16 + 1
  }

  // The number of units that morecore asks for: enough, and at least 4096.
  function Rounded(nu: nat): (n: nat)
    ensures nu <= n && 4096 <= n && (n == nu || n == 4096)
  {
    if nu < 4096 then 4096 else nu
  }

  predicate IsUnit(a: nat, n: nat, u: nat) { a <= u < a + n }
  function Units(a: nat, n: nat): set<nat> { set u: nat | u < a + n && IsUnit(a, n, u) }

  // The units from a on are new.
  ghost predicate Fresh(base: nat, s: Store, a: nat, n: nat) {
    base < a && forall u :: a <= u < a + n ==> u !in s.units
  }

  // A new block, in use.
  function AddBlock(s: Store, a: nat, n: nat): Store {
    Store(s.list, s.blk[a := Block(n, false)], s.units + Units(a, n))
  }

  lemma AddGood(base: nat, s: Store, a: nat, n: nat)
    requires Good(base, s) && Coalesced(s) && Fresh(base, s, a, n) && 0 < n
    ensures Good(base, AddBlock(s, a, n)) && Coalesced(AddBlock(s, a, n)) && a !in s.blk
    ensures Used(AddBlock(s, a, n)) == Used(s) + {(a, n)} && !InUse(s, a)
  {
    assert a in s.blk ==> Whole(s, a) && a in s.units;
    AddTiled(base, s, a, n);
    AddCoalesced(s, a, n);
    AddUsed(s, a, n);
  }

  lemma AddUsed(s: Store, a: nat, n: nat)
    requires a !in s.blk
    ensures Used(AddBlock(s, a, n)) == Used(s) + {(a, n)}
  {
    hide Units, Used;
    forall x: (nat, nat) ensures x in Used(AddBlock(s, a, n)) <==> x in Used(s) + {(a, n)} {
      UsedIs(s, x);
      UsedIs(AddBlock(s, a, n), x);
    }
  }

  lemma AddCoalesced(s: Store, a: nat, n: nat)
    requires Coalesced(s) && a !in s.blk
    ensures Coalesced(AddBlock(s, a, n))
  {
    forall b, c ensures !Touch(AddBlock(s, a, n), b, c) {
      assert !Touch(s, b, c);
    }
  }

  lemma AddTiled(base: nat, s: Store, a: nat, n: nat)
    requires Tiled(s) && Fresh(base, s, a, n) && 0 < n && a !in s.blk
    ensures Tiled(AddBlock(s, a, n))
  {
    var s' := AddBlock(s, a, n);
    forall b | b in s'.blk ensures Whole(s', b) {
      if b != a {
        assert Whole(s, b);
      }
      forall u: nat | b <= u < b + s'.blk[b].size ensures u in s'.units {
        assert b == a ==> IsUnit(a, n, u);
      }
    }
    forall u | u in s'.units ensures Inside(s', u) {
      if u in s.units {
        assert Inside(s, u);
        var b :| In(s, u, b);
        assert In(s', u, b);
      } else {
        assert In(s', u, a);
      }
    }
    forall b: nat, c: nat ensures Ordered(s', b, c) {
      assert Ordered(s, b, c);
      assert b in s.blk ==> Whole(s, b) && (b < a < b + s.blk[b].size ==> a in s.units);
      assert c in s.blk ==> Whole(s, c) && c in s.units;
    }
  }

  lemma HeadersAdd(size: map<nat, nat>, base: nat, blk: map<nat, Block>, a: nat, n: nat)
    requires Headers(size, base, blk) && a != base
    ensures Headers(size[a := n], base, blk[a := Block(n, false)])
  {
  }

  // The search of malloc goes round the list, from after index f.
  function After(list: seq<nat>, i: nat): nat { if i + 1 < |list| then i + 1 else 0 }
  function Before(list: seq<nat>, i: nat): nat
    requires i < |list|
  {
    if i > 0 then i - 1 else |list| - 1
  }
  function Left(list: seq<nat>, f: nat, i: nat): int { if i <= f then f - i else |list| - i + f }
  predicate Passed(f: nat, i: nat, t: nat) { if f < i then f < t < i else t > f || t < i }

  function SizeAt(s: Store, t: nat): nat
    requires t < |s.list|
  {
    if s.list[t] in s.blk then s.blk[s.list[t]].size else 0
  }

  // The blocks passed on the way from f to i are too small.
  ghost predicate TooSmall(s: Store, f: nat, i: nat, n: nat) {
    forall t :: 0 <= t < |s.list| && Passed(f, i, t) ==> SizeAt(s, t) < n
  }

  // Some free block has n units.
  ghost predicate Fits(s: Store, n: nat) { exists b :: b in s.blk && s.blk[b].free && s.blk[b].size >= n }

  lemma IndexOf(list: seq<nat>, p: nat) returns (i: nat)
    requires p in list
    ensures i < |list| && list[i] == p
  {
    i :| 0 <= i < |list| && list[i] == p;
  }

  lemma OnlyBase(base: nat, ptr: map<nat, nat>, size: map<nat, nat>)
    requires base in ptr && ptr[base] == base && base in size && size[base] == 0
    ensures Linked(ptr, [base]) && Headers(size, base, map[])
  {
  }

  lemma SearchStart(base: nat, s: Store, ptr: map<nat, nat>, f: nat, n: nat)
    requires Linked(ptr, s.list) && f < |s.list|
    ensures var i := After(s.list, f);
            s.list[f] in ptr && ptr[s.list[f]] == s.list[i] && Before(s.list, i) == f && TooSmall(s, f, i, n)
  {
    assert LinkAt(ptr, s.list, f);
  }

  lemma SearchNext(base: nat, s: Store, f: nat, i: nat, n: nat)
    requires f < |s.list| && i < |s.list| && i != f && TooSmall(s, f, i, n) && SizeAt(s, i) < n
    ensures TooSmall(s, f, After(s.list, i), n) && Left(s.list, f, After(s.list, i)) < Left(s.list, f, i)
  {
  }

  lemma LinkedNext(base: nat, s: Store, ptr: map<nat, nat>, i: nat)
    requires Linked(ptr, s.list) && i < |s.list|
    ensures s.list[i] in ptr && ptr[s.list[i]] == s.list[After(s.list, i)] && Before(s.list, After(s.list, i)) == i
  {
    assert LinkAt(ptr, s.list, i);
  }

  // The whole list is too small.
  lemma NoneFits(base: nat, s: Store, f: nat, i: nat, n: nat)
    requires Good(base, s) && f < |s.list| && i < |s.list| && s.list[i] == s.list[f] && TooSmall(s, f, i, n)
             && SizeAt(s, i) < n
    ensures !Fits(s, n)
  {
    hide Tiled;
    forall b | b in s.blk && s.blk[b].free ensures s.blk[b].size < n {
      var t :| 0 <= t < |s.list| && s.list[t] == b;
      if t != f {
        assert Passed(f, i, t);
      }
      assert SizeAt(s, t) < n;
    }
  }

  lemma FreeFits(s: Store, u: nat, n: nat)
    requires FreeIn(s, u, n)
    ensures Fits(s, n)
  {
  }

  lemma FitsAt(base: nat, s: Store, i: nat, n: nat)
    requires Good(base, s) && i < |s.list| && SizeAt(s, i) >= n && 0 < n
    ensures Fits(s, n)
  {
    assert s.list[i] in s.list;
  }

  lemma AboveBase(base: nat, s: Store, i: nat)
    requires Good(base, s) && i < |s.list|
    ensures base <= s.list[i]
  {
    hide Tiled;
  }

  lemma TakeReads(base: nat, s: Store, ptr: map<nat, nat>, size: map<nat, nat>, i: nat)
    requires Good(base, s) && Linked(ptr, s.list) && Headers(size, base, s.blk) && i < |s.list|
    ensures s.list[i] in ptr && s.list[i] in size && size[s.list[i]] == SizeAt(s, i)
  {
    hide Tiled;
    assert LinkAt(ptr, s.list, i);
    assert s.list[i] in s.list;
  }

  // Taking a whole block off the list.
  function Unlink(s: Store, i: nat): Store
    requires i < |s.list| && s.list[i] in s.blk
  {
    Store(s.list[..i] + s.list[i + 1..], s.blk[s.list[i] := Block(s.blk[s.list[i]].size, false)], s.units)
  }

  lemma UnlinkGood(base: nat, s: Store, i: nat)
    requires Good(base, s) && Coalesced(s) && i < |s.list| && SizeAt(s, i) > 0
    ensures s.list[i] in s.blk && Good(base, Unlink(s, i)) && Coalesced(Unlink(s, i)) && 0 < i
            && Unlink(s, i).units == s.units
    ensures !InUse(s, s.list[i]) && Used(Unlink(s, i)) == Used(s) + {(s.list[i], SizeAt(s, i))}
  {
    var p := s.list[i];
    assert p in s.list;
    var s' := Unlink(s, i);
    RemoveSorted(s.list, i);
    assert s.list == s.list[..i] + [p] + s.list[i + 1..];
    RetagTiled(s, s');
    forall a, b ensures !Touch(s', a, b) {
      assert !Touch(s, a, b);
    }
  }

  // Only the sizes of the blocks matter for the tiling.
  lemma RetagTiled(s: Store, s': Store)
    requires Tiled(s) && s'.units == s.units && s'.blk.Keys == s.blk.Keys
             && forall b :: b in s.blk ==> s'.blk[b].size == s.blk[b].size
    ensures Tiled(s')
  {
    forall b | b in s'.blk ensures Whole(s', b) {
      assert Whole(s, b);
    }
    forall u | u in s'.units ensures Inside(s', u) {
      assert Inside(s, u);
      var b :| In(s, u, b);
      assert In(s', u, b);
    }
    forall a: nat, b: nat ensures Ordered(s', a, b) {
      assert Ordered(s, a, b);
    }
  }

  lemma UnlinkLinked(base: nat, s: Store, i: nat, ptr: map<nat, nat>, size: map<nat, nat>)
    requires Good(base, s) && Linked(ptr, s.list) && Headers(size, base, s.blk) && 0 < i < |s.list|
             && s.list[i] in s.blk
    ensures s.list[i] in ptr && Linked(ptr[s.list[i - 1] := ptr[s.list[i]]], Unlink(s, i).list)
            && Headers(size, base, Unlink(s, i).blk)
    ensures s.list[i - 1] in Unlink(s, i).list
  {
    hide Tiled;
    LinkRemove(ptr, s.list, i - 1);
    assert Unlink(s, i).list[i - 1] == s.list[i - 1];
  }

  // Taking the last n units of a block.
  function Split(s: Store, i: nat, n: nat): Store
    requires i < |s.list| && SizeAt(s, i) > n > 0
  {
    var p := s.list[i];
    var q := p + s.blk[p].size - n;
    Store(s.list, s.blk[p := Block(s.blk[p].size - n, true)][q := Block(n, false)], s.units)
  }

  lemma SplitGood(base: nat, s: Store, i: nat, n: nat)
    requires Good(base, s) && Coalesced(s) && i < |s.list| && SizeAt(s, i) > n > 0
    ensures var q := s.list[i] + SizeAt(s, i) - n;
            && Good(base, Split(s, i, n)) && Coalesced(Split(s, i, n)) && Split(s, i, n).units == s.units
            && !InUse(s, q) && Used(Split(s, i, n)) == Used(s) + {(q, n)}
  {
    var p := s.list[i];
    assert p in s.list;
    SplitTiled(s, i, n);
    SplitListed(base, s, i, n);
    SplitCoalesced(s, i, n);
  }

  lemma SplitNew(s: Store, p: nat, n: nat)
    requires Tiled(s) && p in s.blk && s.blk[p].size > n > 0
    ensures p + s.blk[p].size - n !in s.blk
  {
    assert Ordered(s, p, p + s.blk[p].size - n);
  }

  lemma SplitTiled(s: Store, i: nat, n: nat)
    requires Tiled(s) && i < |s.list| && SizeAt(s, i) > n > 0
    ensures Tiled(Split(s, i, n))
  {
    var p, s' := s.list[i], Split(s, i, n);
    var q: nat := p + s.blk[p].size - n;
    SplitNew(s, p, n);
    assert Whole(s, p);
    forall b | b in s'.blk ensures Whole(s', b) {
      if b != p && b != q {
        assert Whole(s, b);
      }
    }
    forall u | u in s'.units ensures Inside(s', u) {
      assert Inside(s, u);
      var b :| In(s, u, b);
      assert In(s', u, if b == p && u >= q then q else b);
    }
    forall a: nat, b: nat ensures Ordered(s', a, b) {
      assert Ordered(s, a, b) && Ordered(s, a, p) && Ordered(s, p, b) && Ordered(s, p, a);
    }
  }

  lemma SplitListed(base: nat, s: Store, i: nat, n: nat)
    requires Good(base, s) && i < |s.list| && SizeAt(s, i) > n > 0
    ensures Listed(base, Split(s, i, n))
    ensures var q := s.list[i] + SizeAt(s, i) - n; !InUse(s, q) && Used(Split(s, i, n)) == Used(s) + {(q, n)}
  {
    hide Tiled;
    assert s.list[i] in s.list;
    SplitNew(s, s.list[i], n);
  }

  lemma SplitCoalesced(s: Store, i: nat, n: nat)
    requires Tiled(s) && Coalesced(s) && i < |s.list| && SizeAt(s, i) > n > 0 && s.blk[s.list[i]].free
    ensures Coalesced(Split(s, i, n))
  {
    hide Tiled;
    SplitNew(s, s.list[i], n);
    forall a, b ensures !Touch(Split(s, i, n), a, b) {
      assert !Touch(s, a, b);
    }
  }

  lemma SplitHeaders(base: nat, s: Store, i: nat, n: nat, size: map<nat, nat>)
    requires Good(base, s) && Headers(size, base, s.blk) && i < |s.list| && SizeAt(s, i) > n > 0
    ensures var p, q := s.list[i], s.list[i] + SizeAt(s, i) - n;
            Headers(size[p := SizeAt(s, i) - n][q := n], base, Split(s, i, n).blk) && Split(s, i, n).list == s.list
  {
    hide Tiled;
    assert s.list[i] in s.list;
  }

  class Heap {
    const base: nat
    var ptr: map<nat, nat>
    var size: map<nat, nat>
    var freep: nat
    ghost var s: Store

    ghost predicate Valid()
      reads this
    {
      && 0 < base && Good(base, s) && Coalesced(s)
      && if freep == 0 then s == Store([base], map[], {})
         else Linked(ptr, s.list) && freep in s.list && Headers(size, base, s.blk)
    }

    constructor (base: nat)
      requires 0 < base
      ensures Valid() && this.base == base && freep == 0
    {
      this.base, ptr, size, freep, s := base, map[], map[], 0, Store([base], map[], {});
    }

    // The loop of free: the free block, or base, that bp goes after.
    method FindSlot(bp: nat) returns (p: nat, ghost k: nat)
      requires Good(base, s) && Linked(ptr, s.list) && freep in s.list && bp in s.blk && !s.blk[bp].free
      ensures Slot(s.list, k, bp) && p == s.list[k]
    {
      ghost var n := |s.list|;
      k := SlotExists(s.list, bp);
      p := freep;
      ghost var i :| 0 <= i < n && s.list[i] == freep;
      assert LinkAt(ptr, s.list, i);
      while !(bp > p && bp < ptr[p])
        invariant 0 <= i < n && p == s.list[i] && p in ptr && LinkAt(ptr, s.list, i)
        decreases if i <= k then k - i else n - i + k
      {
        if p >= ptr[p] && (bp > p || bp < ptr[p]) {
          break;
        }
        assert i != k;
        p := ptr[p];
        i := if i + 1 < n then i + 1 else 0;
        assert LinkAt(ptr, s.list, i);
      }
      assert Slot(s.list, i, bp);
      k := i;
    }

    // free, of the block whose header is at bp.
    method Free(bp: nat)
      requires Valid() && InUse(s, bp)
      modifies this
      ensures Valid() && freep != 0 && s.units == old(s).units && Used(s) == Used(old(s)) - {(bp, old(s).blk[bp].size)}
      ensures FreeIn(s, bp, old(s).blk[bp].size)
    {
      hide Good, Coalesced, Touch, Linked, Headers, Slot, Insert, JoinUpper, JoinLower;
      var p;
      ghost var k;
      p, k := FindSlot(bp);
      ghost var s1 := Insert(s, k, bp);
      ghost var s2 := JoinUpper(s1, k);
      FreeSteps(base, s, k, bp);
      SlotReads(base, s, k, bp, ptr, size);
      var next := ptr[p];
      UpperTouch(base, s, k, bp, next);
      GoodSorted(base, s);
      GoodSorted(base, s1);
      UpperLinked(base, s, k, bp, next, ptr, size, s1);
      if bp + size[bp] == next {
        size, ptr := size[bp := size[bp] + size[next]], ptr[bp := ptr[next]];
      } else {
        ptr := ptr[bp := next];
      }
      LowerLinked(base, s2, k, ptr, size);
      if p + size[p] == bp {
        size, ptr := size[p := size[p] + size[bp]], ptr[p := ptr[bp]];
      } else {
        ptr := ptr[p := bp];
      }
      freep := p;
      s := JoinLower(s2, k);
    }

    // morecore, where `grant` is the address that sbrk returns, or none if it fails.
    method MoreCore(nu: nat, grant: Option<nat>) returns (p: nat)
      requires Valid() && freep != 0 && 0 < nu && (grant.Some? ==> Fresh(base, s, grant.value, Rounded(nu)))
      modifies this
      ensures Valid() && freep != 0
      ensures grant.None? ==> p == 0 && unchanged(this)
      ensures grant.Some? ==>
                && p == freep && Used(s) == Used(old(s)) && FreeIn(s, grant.value, nu)
                && s.units == old(s).units + Units(grant.value, Rounded(nu))
    {
      hide Good, Coalesced, Linked, Headers, Used, FreeIn;
      var n := if nu < 4096 then 4096 else nu;
      match grant {
        case None =>
          p := 0;
        case Some(a) =>
          AddGood(base, s, a, n);
          UsedBack(s, a, n);
          HeadersAdd(size, base, s.blk, a, n);
          size := size[a := n];
          s := AddBlock(s, a, n);
          Free(a);
          FreeLess(s, a, n, nu);
          p := freep;
      }
    }

    // malloc found the block p = list[i], after prevp.
    method Take(prevp: nat, p: nat, nunits: nat, ghost i: nat) returns (r: nat)
      requires Valid() && freep != 0 && 0 < nunits && i < |s.list| && s.list[i] == p
               && s.list[Before(s.list, i)] == prevp && SizeAt(s, i) >= nunits
      modifies this
      ensures Valid() && freep != 0 && s.units == old(s).units
      ensures r > 0 && !InUse(old(s), r - 1) && Used(s) == Used(old(s)) + {(r - 1, nunits)}
    {
      hide Good, Coalesced, Linked, Headers, Split, Unlink;
      TakeReads(base, s, ptr, size, i);
      AboveBase(base, s, Before(s.list, i));
      var q := p;
      if size[p] == nunits {
        UnlinkGood(base, s, i);
        UnlinkLinked(base, s, i, ptr, size);
        ptr := ptr[prevp := ptr[p]];
        s := Unlink(s, i);
      } else {
        SplitGood(base, s, i, nunits);
        SplitHeaders(base, s, i, nunits, size);
        size := size[p := size[p] - nunits];
        q := p + size[p];
        size := size[q := nunits];
        s := Split(s, i, nunits);
      }
      freep := prevp;
      r := q + 1;
    }

    // malloc, where `grant` is what sbrk would return.  It calls sbrk at most once.  The
    // size in bytes must fit the int that sbrk takes.
    method Malloc(nbytes: nat, grant: Option<nat>) returns (r: nat, called: bool)
      requires Need(nbytes) * 16 < 0x8000_0000
      requires Valid() && (grant.Some? ==> Fresh(base, s, grant.value, Rounded(Need(nbytes))))
      modifies this
      ensures Valid()
      ensures called <==> !Fits(old(s), Need(nbytes))
      ensures r == 0 <==> called && grant.None?
      ensures r == 0 ==> s == old(s)
      ensures r != 0 ==> !InUse(old(s), r - 1) && Used(s) == Used(old(s)) + {(r - 1, Need(nbytes))}
      ensures r != 0 ==> Holds(s, r, nbytes) && !Holds(s, r, nbytes + 16)
      ensures s.units == old(s).units + if called && grant.Some? then Units(grant.value, Rounded(Need(nbytes))) else {}
    {
      hide Good, Coalesced, Linked, Headers, Used, InUse, Units, Fits, TooSmall, SizeAt, FreeIn, Fresh;
      var nunits := (nbytes + 16 - 1) / 16 + 1;
      var prevp := freep;
      if prevp == 0 {
        ptr, freep, prevp := ptr[base := base], base, base;
        size := size[base := 0];
        OnlyBase(base, ptr, size);
      }
      called := false;
      ghost var f: nat := IndexOf(s.list, freep);
      ghost var i: nat := After(s.list, f);
      SearchStart(base, s, ptr, f, nunits);
      var p := ptr[prevp];
      while true
        invariant Valid() && freep != 0 && f < |s.list| && s.list[f] == freep && i < |s.list| && s.list[i] == p
                  && s.list[Before(s.list, i)] == prevp
        invariant TooSmall(s, f, i, nunits) && Used(s) == Used(old(s))
        invariant if called then grant.Some? && FreeIn(s, grant.value, nunits) && !Fits(old(s), nunits) else s == old(s)
        invariant s.units == old(s).units + if called then Units(grant.value, Rounded(nunits)) else {}
        decreases !called, Left(s.list, f, i)
      {
        TakeReads(base, s, ptr, size, i);
        if size[p] >= nunits {
          FitsAt(base, s, i, nunits);
          ghost var s1 := s;
          r := Take(prevp, p, nunits, i);
          SameInUse(old(s), s1, r - 1);
          HoldsExactly(s, r, nunits, nbytes);
          return;
        }
        if p == freep {
          NoneFits(base, s, f, i, nunits);
          if called {
            FreeFits(s, grant.value, nunits);
          }
          assert !called;
          called := true;
          p := MoreCore(nunits, grant);
          if p == 0 {
            return 0, true;
          }
          f := IndexOf(s.list, freep);
          SearchStart(base, s, ptr, f, nunits);
          i := f;
        } else {
          SearchNext(base, s, f, i, nunits);
        }
        LinkedNext(base, s, ptr, i);
        prevp, p := p, ptr[p];
        i := After(s.list, i);
      }
    }
  }

  lemma FreeSteps(base: nat, s: Store, k: nat, bp: nat)
    requires 0 < base && Good(base, s) && Coalesced(s) && Slot(s.list, k, bp) && bp in s.blk && !s.blk[bp].free
    ensures Good(base, Insert(s, k, bp)) && bp !in s.list
    ensures var s2 := JoinUpper(Insert(s, k, bp), k);
            && Good(base, s2) && k + 1 < |s2.list| && s2.list[k] == s.list[k] && s2.list[k + 1] == bp
            && var s3 := JoinLower(s2, k);
               && Good(base, s3) && Coalesced(s3) && s.list[k] in s3.list && s.list[k] != 0
               && s3.units == s.units && Used(s3) == Used(s) - {(bp, s.blk[bp].size)} && FreeIn(s3, bp, s.blk[bp].size)
               && (s3 == s2 <==> !Touch(s2, s.list[k], bp))
  {
    hide Tiled, Listed, Touch, Merge;
    var s1 := Insert(s, k, bp);
    InsertGood(base, s, k, bp);
    InsertUsed(s, k, bp);
    InsertFree(s, k, bp);
    UpperGood(base, s1, k);
    var s2 := JoinUpper(s1, k);
    LowerGood(base, s2, k);
    assert s2.list[..k + 2][k] == s1.list[..k + 2][k] && s2.list[..k + 2][k + 1] == s1.list[..k + 2][k + 1];
    if s2 != s1 {
      MergeFree(s1, k + 1, bp, s.blk[bp].size);
    }
    if Touch(s2, s.list[k], bp) {
      MergeFree(s2, k, bp, s.blk[bp].size);
    }
    ListEnds(base, s, s.list[k], bp);
  }

  lemma ListEnds(base: nat, s: Store, p: nat, bp: nat)
    requires Listed(base, s) && p in s.list && bp in s.blk && !s.blk[bp].free
    ensures base <= p && bp !in s.list
  {
  }

}
