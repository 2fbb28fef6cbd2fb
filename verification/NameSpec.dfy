// What names mean: how directories are searched, and what link, unlink and create do to
// the meaning of every name.
module NameSpec {
  import opened Common
  import opened LinkSpec

  // The entry k of directory d is in use under the given name.
  predicate Matches(s: Inodes, d: nat, k: nat, name: string)
    requires d < |s|
  {
    k < |s[d].entries| && s[d].entries[k].inum != 0 && s[d].entries[k].name == name
  }

  ghost predicate Absent(s: Inodes, d: nat, name: string)
    requires d < |s|
  {
    forall k: nat :: !Matches(s, d, k, name)
  }

  // What dirlookup finds: the first entry in use under the name.
  ghost predicate First(s: Inodes, d: nat, k: nat, name: string)
    requires d < |s|
  {
    Matches(s, d, k, name) && forall j: nat :: j < k ==> !Matches(s, d, j, name)
  }

  // Where dirlink puts an entry: the first one that is unused, or the end.
  ghost predicate FirstUnused(s: Inodes, d: nat, k: nat)
    requires d < |s|
  {
    Unused(s, d, k) && forall j :: 0 <= j < k ==> s[d].entries[j].inum != 0
  }

  // Index k can be written; `room` tells whether the disk has the blocks to extend d.
  predicate Fits(s: Inodes, d: nat, k: nat, room: bool)
    requires d < |s|
  {
    k < |s[d].entries| || (room && k < MAXENTRIES)
  }

  // In a directory of entries in use, a name not among them is absent, and goes at the end.
  lemma LinkAtEnd(s: Inodes, d: nat, k: nat, e: Entry)
    requires d < |s| && forall j :: 0 <= j < |s[d].entries| ==> s[d].entries[j].inum != 0
    requires forall j :: 0 <= j < |s[d].entries| ==> s[d].entries[j].name != e.name
    ensures Absent(s, d, e.name)
    ensures FirstUnused(s, d, k) ==>
              k == |s[d].entries| && SetEntry(s, d, k, e) == s[d := s[d].(entries := s[d].entries + [e])]
  {
  }

  // Inode x after iput, by the last user or not.
  function Dropped(s: Inodes, x: nat, held: bool): Inodes
    requires x < |s|
  {
    if !held && s[x].nlink == 0 then s[x := Ino(Kind.Free, 0, [])] else s
  }

  predicate IsFile(s: Inodes, x: nat) {
    x < |s| && (s[x].kind == File || s[x].kind == Device)
  }

  // Why create fails: no parent, a name that is taken, no free inode, or no room
  // for the entries of a new directory or for the new name.
  ghost predicate CreateRefused(s: Inodes, dp: Option<nat>, name: string, kind: Kind, k: nat,
                                room0: bool, room1: bool, room: bool)
    requires dp.Some? ==> dp.value < |s|
  {
    dp.Some? ==>
      var d := dp.value;
      if Absent(s, d, name) then
        || (forall i :: 0 < i < |s| ==> s[i].kind != Kind.Free)
        || (kind == Dir && !(room0 && room1))
        || (FirstUnused(s, d, k) && !Fits(s, d, k, room))
      else First(s, d, k, name) && !(kind == File && IsFile(s, s[d].entries[k].inum))
  }

  // Entry k of d is a directory that is not empty.
  ghost predicate Busy(s: Inodes, d: nat, k: nat, name: string)
    requires d < |s|
  {
    && First(s, d, k, name) && s[d].entries[k].inum < |s|
    && s[s[d].entries[k].inum].kind == Dir && !Empty(s, s[d].entries[k].inum)
  }

  // ----- the meaning of names

  // The name leads from directory d to inode x.
  predicate Leads(s: Inodes, d: nat, name: string, x: nat)
    requires d < |s|
  {
    x != 0 && Entry(x, name) in s[d].entries
  }

  // No directory has two entries in use of the same name.
  predicate Apart(es: seq<Entry>) {
    forall j, k :: 0 <= j < k < |es| && es[j].inum != 0 && es[k].inum != 0 ==> es[j].name != es[k].name
  }

  ghost predicate Unique(s: Inodes) { forall d :: 0 <= d < |s| ==> Apart(s[d].entries) }

  // From s to s', the name comes to lead from d to x, and every other name leads where it
  // did; a new inode is not looked at.
  ghost predicate Adds(s: Inodes, s': Inodes, d: nat, name: string, x: nat, new': nat)
    requires |s'| == |s|
  {
    forall e: nat, m: string, y: nat :: e < |s| && e != new' ==>
      (Leads(s', e, m, y) <==> if e == d && m == name then y == x else Leads(s, e, m, y))
  }

  // From s to s', the name leads nowhere from d any more, and every other name leads where
  // it did; the inode that may be gone is not looked at.
  ghost predicate Removes(s: Inodes, s': Inodes, d: nat, name: string, gone: nat)
    requires |s'| == |s|
  {
    forall e: nat, m: string, y: nat :: e < |s| && e != gone ==>
      (Leads(s', e, m, y) <==> Leads(s, e, m, y) && !(e == d && m == name))
  }

  // What dirlookup finds is where the name leads.
  lemma FirstLeads(s: Inodes, d: nat, k: nat, name: string, x: nat)
    requires Unique(s) && d < |s|
    ensures First(s, d, k, name) ==> (Leads(s, d, name, x) <==> x == s[d].entries[k].inum)
    ensures Absent(s, d, name) ==> !Leads(s, d, name, x)
  {
    if Leads(s, d, name, x) {
      var j :| 0 <= j < |s[d].entries| && s[d].entries[j] == Entry(x, name);
      assert Matches(s, d, j, name);
      assert Apart(s[d].entries);
    }
  }

  lemma EntryAdded(es: seq<Entry>, k: nat, e: Entry)
    requires Apart(es) && k <= |es| && (k < |es| ==> es[k].inum == 0) && e.inum != 0
    requires forall j :: 0 <= j < |es| && es[j].inum != 0 ==> es[j].name != e.name
    ensures var fs := if k < |es| then es[k := e] else es + [e];
            Apart(fs) && forall f: Entry :: f.inum != 0 ==> (f in fs <==> f == e || f in es)
  {
    var fs := if k < |es| then es[k := e] else es + [e];
    assert fs[k] == e;
    forall f: Entry | f in es && f.inum != 0 ensures f in fs {
      var j :| 0 <= j < |es| && es[j] == f;
      assert fs[j] == f;
    }
  }

  lemma EntryRemoved(es: seq<Entry>, k: nat)
    requires Apart(es) && k < |es| && es[k].inum != 0
    ensures var fs := es[k := NOTHING];
            Apart(fs) && forall f: Entry :: f.inum != 0 ==> (f in fs <==> f in es && f.name != es[k].name)
  {
    var fs := es[k := NOTHING];
    forall f: Entry | f in es && f.inum != 0 && f.name != es[k].name ensures f in fs {
      var j :| 0 <= j < |es| && es[j] == f;
      assert fs[j] == f;
    }
  }

  // ----- link, unlink and create

  // Being absent depends only on the entries.
  lemma SameEntries(s: Inodes, s': Inodes, d: nat, name: string)
    requires d < |s| == |s'| && s'[d].entries == s[d].entries
    ensures Absent(s, d, name) <==> Absent(s', d, name)
    ensures forall k: nat :: FirstUnused(s, d, k) <==> FirstUnused(s', d, k)
    ensures forall k: nat, room: bool :: Fits(s, d, k, room) <==> Fits(s', d, k, room)
  {
    assert forall k: nat :: Matches(s, d, k, name) <==> Matches(s', d, k, name);
  }

  lemma SetEntryAdds(s: Inodes, d: nat, k: nat, name: string, x: nat)
    requires Unique(s) && d < |s| && Unused(s, d, k) && Absent(s, d, name) && x != 0
    ensures var s' := SetEntry(s, d, k, Entry(x, name)); Unique(s') && Adds(s, s', d, name, x, |s|)
  {
    var s' := SetEntry(s, d, k, Entry(x, name));
    forall j | 0 <= j < |s[d].entries| && s[d].entries[j].inum != 0 ensures s[d].entries[j].name != name {
      assert !Matches(s, d, j, name);
    }
    EntryAdded(s[d].entries, k, Entry(x, name));
    forall y ensures !Leads(s, d, name, y) {
      FirstLeads(s, d, 0, name, y);
    }
  }

  // A change of inodes that leaves the entries alone.
  lemma SameLeads(s: Inodes, s': Inodes)
    requires |s'| == |s| && forall e :: 0 <= e < |s| ==> s'[e].entries == s[e].entries
    ensures Unique(s') <==> Unique(s)
    ensures forall e: nat, m: string, y: nat :: e < |s| ==> (Leads(s', e, m, y) <==> Leads(s, e, m, y))
  {
  }

  lemma LinkAdds(s: Inodes, d: nat, k: nat, name: string, x: nat, n: int)
    requires Unique(s) && d < |s| && Unused(s, d, k) && Absent(s, d, name) && 0 < x < |s|
    ensures var s' := SetEntry(SetLinks(s, x, n), d, k, Entry(x, name)); Unique(s') && Adds(s, s', d, name, x, |s|)
  {
    hide Leads, Apart;
    var s1 := SetLinks(s, x, n);
    SameLeads(s, s1);
    assert Absent(s1, d, name) by { SameEntries(s, s1, d, name); }
    SetEntryAdds(s1, d, k, name, x);
  }

  lemma UnlinkRemoves(s: Inodes, d: nat, k: nat, name: string, x: nat, held: bool)
    requires Unique(s) && d < |s| && x < |s| && x != d && Matches(s, d, k, name)
    ensures var s' := Dropped(UnlinkFile(s, d, k, x), x, held); Unique(s') && Removes(s, s', d, name, x)
    ensures var s' := Dropped(UnlinkDir(s, d, k, x), x, held); Unique(s') && Removes(s, s', d, name, x)
  {
    EntryRemoved(s[d].entries, k);
  }

  // The inode goes exactly when that was its last name and nobody else holds it.
  lemma UnlinkFrees(s: Inodes, d: nat, k: nat, x: nat, held: bool)
    requires d < |s| && k < |s[d].entries| && x < |s| && x != d && s[x].kind != Kind.Free
    ensures Dropped(UnlinkFile(s, d, k, x), x, held)[x].kind == Kind.Free <==> !held && s[x].nlink == 1
    ensures Dropped(UnlinkDir(s, d, k, x), x, held)[x].kind == Kind.Free <==> !held && s[x].nlink == 1
  {
  }

  lemma CreateAdds(s: Inodes, d: nat, k: nat, name: string, kind: Kind, x: nat)
    requires Unique(s) && d < |s| && 0 < x < |s| && x != d && Unused(s, d, k) && Absent(s, d, name)
    ensures var s' := CreateAt(s, d, k, name, kind, x);
            && Unique(s') && Adds(s, s', d, name, x, x) && s'[x].kind == kind && s'[x].nlink == 1
            && forall m: string, y: nat :: Leads(s', x, m, y) <==>
                 kind == Dir && y != 0 && ((m == "." && y == x) || (m == ".." && y == d))
  {
    hide Leads, Apart;
    var s1 := s[x := NewInode(kind, x, d)];
    NewLeads(s, d, kind, x);
    assert Absent(s1, d, name) by { SameEntries(s, s1, d, name); }
    SetEntryAdds(s1, d, k, name, x);
    var s2 := SetEntry(s1, d, k, Entry(x, name));
    SameLeads(s2, CreateAt(s, d, k, name, kind, x));
  }

  lemma NewLeads(s: Inodes, d: nat, kind: Kind, x: nat)
    requires Unique(s) && d < |s| && 0 < x < |s| && x != d
    ensures var s' := s[x := NewInode(kind, x, d)];
            && Unique(s')
            && (forall e: nat, m: string, y: nat :: e < |s| && e != x ==> (Leads(s', e, m, y) <==> Leads(s, e, m, y)))
            && forall m: string, y: nat :: Leads(s', x, m, y) <==>
                 kind == Dir && y != 0 && ((m == "." && y == x) || (m == ".." && y == d))
  {
  }

  lemma LeadsMatches(s: Inodes, d: nat, name: string)
    requires d < |s|
    ensures Absent(s, d, name) <==> forall y :: !Leads(s, d, name, y)
  {
    if !Absent(s, d, name) {
      var k: nat :| Matches(s, d, k, name);
      assert Leads(s, d, name, s[d].entries[k].inum);
    }
    forall y | Leads(s, d, name, y) ensures !Absent(s, d, name) {
      var k :| 0 <= k < |s[d].entries| && s[d].entries[k] == Entry(y, name);
      assert Matches(s, d, k, name);
    }
  }

  // There is room for another entry in directory d.
  predicate HasRoom(s: Inodes, d: nat, room: bool)
    requires d < |s|
  {
    room && |s[d].entries| < MAXENTRIES
  }

  // link makes the name when it leads nowhere and there is room.
  lemma WhenLinked(s: Inodes, d: nat, name: string, k: nat, room: bool)
    requires d < |s| && (!Absent(s, d, name) || (FirstUnused(s, d, k) && !Fits(s, d, k, room)))
    ensures !HasRoom(s, d, room) || exists y :: Leads(s, d, name, y)
  {
    LeadsMatches(s, d, name);
  }

  // unlink takes a name away unless it leads nowhere or to a directory that is not empty.
  lemma WhenUnlinked(s: Inodes, d: nat, name: string, k: nat, y: nat)
    requires Unique(s) && d < |s| && (Absent(s, d, name) || Busy(s, d, k, name))
    ensures Leads(s, d, name, y) ==> y < |s| && s[y].kind == Dir && !Empty(s, y)
  {
    FirstLeads(s, d, k, name, y);
  }

  // create makes a new inode when the name leads nowhere, an inode is free and there is
  // room; a file that exists is opened instead.
  lemma WhenCreated(s: Inodes, d: nat, name: string, kind: Kind, k: nat, room0: bool, room1: bool, room: bool, y: nat)
    requires Unique(s) && d < |s| && CreateRefused(s, Some(d), name, kind, k, room0, room1, room)
    ensures (forall i :: 0 < i < |s| ==> s[i].kind != Kind.Free) || (kind == Dir && !(room0 && room1))
            || !HasRoom(s, d, room) || exists z :: Leads(s, d, name, z)
    ensures kind == File && Leads(s, d, name, y) ==> !IsFile(s, y)
  {
    LeadsMatches(s, d, name);
    FirstLeads(s, d, k, name, y);
  }
}
