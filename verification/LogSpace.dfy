// Log space in group commit: what begin_op reserves is enough for what its calls log.
module LogSpace {
  import opened DiskBlocks
  import opened LogSpec
  import opened LogProtocol

  // Blocks that the running calls may still add, within MAXOPBLOCKS each.
  ghost function Unused(touched: map<OpId, set<nat>>): int
    decreases |touched|
  {
    if touched == map[] then 0
    else
      var op :| op in touched;
      Smaller(touched, op);
      MAXOPBLOCKS - |touched[op]| + Unused(touched - {op})
  }

  lemma Smaller(m: map<OpId, set<nat>>, op: OpId)
    requires op in m
    ensures |m - {op}| == |m| - 1
  {
    assert (m - {op}).Keys == m.Keys - {op};
    assert |m| == |m.Keys| && |m - {op}| == |(m - {op}).Keys|;
  }

  lemma {:induction false} UnusedRemove(m: map<OpId, set<nat>>, k: OpId)
    requires k in m
    ensures Unused(m) == MAXOPBLOCKS - |m[k]| + Unused(m - {k})
    decreases |m|
  {
    var op :| op in m && Unused(m) == MAXOPBLOCKS - |m[op]| + Unused(m - {op});
    if op != k {
      Smaller(m, op);
      Smaller(m, k);
      UnusedRemove(m - {op}, k);
      UnusedRemove(m - {k}, op);
      assert m - {op} - {k} == m - {k} - {op};
    }
  }

  lemma {:induction false} UnusedNonnegative(m: map<OpId, set<nat>>)
    requires forall op :: op in m ==> |m[op]| <= MAXOPBLOCKS
    ensures 0 <= Unused(m) <= MAXOPBLOCKS * |m|
    decreases |m|
  {
    if m != map[] {
      var op :| op in m;
      UnusedRemove(m, op);
      Smaller(m, op);
      UnusedNonnegative(m - {op});
    }
  }

  lemma UnusedUpdate(m: map<OpId, set<nat>>, k: OpId, v: set<nat>)
    ensures Unused(m[k := v]) == Unused(m) - |v| + if k in m then |m[k]| else MAXOPBLOCKS
  {
    UnusedRemove(m[k := v], k);
    if k in m {
      UnusedRemove(m, k);
      assert m[k := v] - {k} == m - {k};
    } else {
      assert m[k := v] - {k} == m;
    }
  }

  // The log holds the blocks logged so far and has room for all that may follow.
  ghost predicate Reserved(s: State) {
    && (forall op :: op in s.touched ==> |s.touched[op]| <= MAXOPBLOCKS)
    && (forall op :: op in s.touched ==> s.touched[op] <= Elems(s.blocks))
    && (s.phase.Running? ==> |s.blocks| + Unused(s.touched) <= LOGSIZE)
  }

  ghost function Elems(bs: seq<nat>): set<nat> {
    set b | b in bs
  }

  lemma ReservedWrite(l: Layout, s: State, s': State, w: Write)
    requires Books(l, s) && Reserved(s) && LogWrite(l, s, s', w)
    ensures Reserved(s')
  {
    var t := s.touched[w.op];
    UnusedUpdate(s.touched, w.op, t + {w.block});
    assert Elems(s'.blocks) == Elems(s.blocks) + {w.block};
    if w.block in t {
      assert t + {w.block} == t;
      assert w.block in s.blocks;
    } else {
      assert |t + {w.block}| == |t| + 1;
    }
  }

  lemma ReservedBegin(l: Layout, s: State, s': State, op: OpId)
    requires Books(l, s) && Reserved(s) && BeginOp(s, s', op)
    ensures Reserved(s')
  {
    hide Elems, Unused;
    UnusedNonnegative(s.touched);
    UnusedUpdate(s.touched, op, {});
    assert {} <= Elems(s.blocks);
  }

  lemma ReservedEnd(l: Layout, s: State, s': State, op: OpId)
    requires Books(l, s) && Reserved(s) && EndOp(s, s', op)
    ensures Reserved(s')
  {
    UnusedRemove(s.touched, op);
  }

  lemma ReservedNext(l: Layout, s: State, s': State)
    requires Books(l, s) && Reserved(s) && Next(l, s, s')
    ensures Reserved(s')
  {
    if op :| BeginOp(s, s', op) {
      ReservedBegin(l, s, s', op);
    } else if w :| LogWrite(l, s, s', w) {
      ReservedWrite(l, s, s', w);
    } else if op :| EndOp(s, s', op) {
      ReservedEnd(l, s, s', op);
    } else if op :| BeginSleep(s, s', op) {
    } else {
      assert s'.touched == map[];
    }
  }
}
