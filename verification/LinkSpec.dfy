// Directories and link counts, as create, link and unlink of kernel/sysfile.c keep them.
module LinkSpec {
  import opened Common

  const ROOT := 1
  const SHORT_MAX := 32767
  const MAXENTRIES := 17152      // MAXFILE blocks of BSIZE bytes, in entries of 16 bytes

  datatype Kind = Free | Dir | File | Device
  datatype Entry = Entry(inum: nat, name: string)

  // An inode, with its entries if it is a directory; an entry with inum 0 is unused.
  datatype Ino = Ino(kind: Kind, nlink: int, entries: seq<Entry>)

  // The inodes by number; number 0 is not used.
  type Inodes = seq<Ino>

  // A value stored in a short.
  function Short(n: int): int { (n + 0x8000) % 0x1_0000 - 0x8000 }

  predicate Linked(s: Inodes, d: nat) { d < |s| && s[d].kind == Dir && s[d].nlink > 0 }

  // Entry k of the linked directory d names x, and is not ".".
  predicate Names(s: Inodes, d: nat, k: nat, x: nat) {
    Linked(s, d) && 1 <= k < |s[d].entries| && s[d].entries[k].inum == x
  }

  // The entries that name x, other than ".", in linked directories.
  function Refs(s: Inodes, x: nat): set<(nat, nat)> {
    set d: nat, k: nat | d < |s| && k < |s[d].entries| && Names(s, d, k, x) :: (d, k)
  }

  // The property: every link count is the number of entries that name the inode.
  ghost predicate Counted(s: Inodes) { forall x :: 0 < x < |s| ==> s[x].nlink == |Refs(s, x)| }

  // A linked directory begins with "." and "..", and no other entry has those names.
  predicate Headed(s: Inodes, d: nat)
    requires d < |s|
  {
    Linked(s, d) ==>
      && |s[d].entries| >= 2 && s[d].entries[0] == Entry(d, ".") && s[d].entries[1].name == ".."
         && Linked(s, s[d].entries[1].inum)
  }

  // Any other entry names an inode in use; if that is a directory, it is the only entry
  // to do so, at index up[x], and the directory's ".." leads back.
  predicate Proper(s: Inodes, up: map<nat, nat>, d: nat, k: nat)
    requires d < |s| && k < |s[d].entries|
  {
    var e := s[d].entries[k];
    Linked(s, d) && k >= 2 && e.inum != 0 ==>
      && e.name != "." && e.name != ".." && e.inum < |s| && s[e.inum].kind != Free && e.inum != ROOT
      && (s[e.inum].kind == Dir ==>
            && e.inum in up && up[e.inum] == k && |s[e.inum].entries| >= 2
            && s[e.inum].entries[1].inum == d)
  }

  // A linked directory other than the root is named in the directory that ".." names.
  predicate Known(s: Inodes, up: map<nat, nat>, y: nat)
    requires y < |s|
  {
    Linked(s, y) && y != ROOT && |s[y].entries| >= 2 ==>
      && y in up && up[y] >= 2
      && var d := s[y].entries[1].inum;
         d < |s| && up[y] < |s[d].entries| && s[d].entries[up[y]].inum == y
  }

  ghost predicate Tree(s: Inodes, up: map<nat, nat>) {
    && |s| > ROOT && s[0].kind == Free && Linked(s, ROOT) && |s[ROOT].entries| >= 2 && s[ROOT].entries[1].inum == ROOT
    && (forall d: nat :: d < |s| ==> Headed(s, d))
    && (forall d: nat, k: nat :: d < |s| && k < |s[d].entries| ==> Proper(s, up, d, k))
    && (forall y: nat :: y < |s| ==> Known(s, up, y))
    && (forall x: nat :: x < |s| ==> s[x].nlink >= 0 && (s[x].kind == Free ==> s[x] == Ino(Free, 0, [])))
  }

  // ----- adding and removing names

  lemma RefsAdd(s: Inodes, s': Inodes, x: nat, d: nat, k: nat)
    requires !Names(s, d, k, x) && forall e: nat, j: nat :: Names(s', e, j, x) <==>
               Names(s, e, j, x) || (e == d && j == k)
    ensures |Refs(s', x)| == |Refs(s, x)| + 1
  {
    assert Refs(s', x) == Refs(s, x) + {(d, k)};
  }

  lemma RefsRemove(s: Inodes, s': Inodes, x: nat, d: nat, k: nat)
    requires Names(s, d, k, x) && forall e: nat, j: nat :: Names(s', e, j, x) <==>
               Names(s, e, j, x) && !(e == d && j == k)
    ensures |Refs(s', x)| == |Refs(s, x)| - 1
  {
    assert Refs(s, x) == Refs(s', x) + {(d, k)};
  }

  lemma RefsSame(s: Inodes, s': Inodes, x: nat)
    requires forall e: nat, j: nat :: Names(s', e, j, x) <==> Names(s, e, j, x)
    ensures Refs(s', x) == Refs(s, x)
  {
  }

  // Writing entry k of directory d, or appending it.
  function SetEntry(s: Inodes, d: nat, k: nat, e: Entry): (r: Inodes)
    requires d < |s| && k <= |s[d].entries|
    ensures |r| == |s|
  {
    s[d := s[d].(entries := if k < |s[d].entries| then s[d].entries[k := e] else s[d].entries + [e])]
  }

  function SetLinks(s: Inodes, x: nat, n: int): (r: Inodes)
    requires x < |s|
    ensures |r| == |s|
  {
    s[x := s[x].(nlink := n)]
  }

  // Entry k of d is unused, or is the end of d.
  predicate Unused(s: Inodes, d: nat, k: nat)
    requires d < |s|
  {
    k <= |s[d].entries| && (k < |s[d].entries| ==> s[d].entries[k].inum == 0)
  }

  lemma UnusedAfterHead(s: Inodes, up: map<nat, nat>, d: nat, k: nat)
    requires Tree(s, up) && Linked(s, d) && Unused(s, d, k)
    ensures k >= 2
  {
    assert Headed(s, d);
  }

  // ----- link

  function LinkFile(s: Inodes, d: nat, k: nat, name: string, x: nat): (r: Inodes)
    requires d < |s| && k <= |s[d].entries| && x < |s|
    ensures |r| == |s|
  {
    SetEntry(SetLinks(s, x, s[x].nlink + 1), d, k, Entry(x, name))
  }

  lemma LinkNames(s: Inodes, d: nat, k: nat, name: string, x: nat, e: nat, j: nat, y: nat)
    requires Linked(s, d) && k >= 1 && Unused(s, d, k) && x < |s| && s[x].kind != Dir && 0 < y
    ensures Names(LinkFile(s, d, k, name, x), e, j, y) <==> Names(s, e, j, y) || (e == d && j == k && y == x)
  {
  }

  lemma LinkCounted(s: Inodes, d: nat, k: nat, name: string, x: nat)
    requires Counted(s) && Linked(s, d) && k >= 1 && Unused(s, d, k) && 0 < x < |s| && s[x].kind != Dir
    ensures Counted(LinkFile(s, d, k, name, x))
  {
    hide Names;
    var s' := LinkFile(s, d, k, name, x);
    forall y | 0 < y < |s'| ensures s'[y].nlink == |Refs(s', y)| {
      forall e: nat, j: nat ensures Names(s', e, j, y) <==> Names(s, e, j, y) || (e == d && j == k && y == x) {
        LinkNames(s, d, k, name, x, e, j, y);
      }
      if y == x {
        UnusedNamesNothing(s, d, k, x);
        RefsAdd(s, s', x, d, k);
      } else {
        RefsSame(s, s', y);
      }
    }
  }

  lemma UnusedNamesNothing(s: Inodes, d: nat, k: nat, x: nat)
    requires d < |s| && Unused(s, d, k) && 0 < x
    ensures !Names(s, d, k, x)
  {
  }

  lemma LinkTree(s: Inodes, up: map<nat, nat>, d: nat, k: nat, name: string, x: nat)
    requires Tree(s, up) && Linked(s, d) && Unused(s, d, k) && 0 < x < |s| && s[x].kind != Dir && s[x].kind != Free
             && name != "." && name != ".."
    ensures Tree(LinkFile(s, d, k, name, x), up)
  {
    var s' := LinkFile(s, d, k, name, x);
    UnusedAfterHead(s, up, d, k);
    forall e: nat | e < |s'| ensures Headed(s', e) && Known(s', up, e) {
      assert Headed(s, e) && Known(s, up, e);
    }
    forall e: nat, j: nat | e < |s'| && j < |s'[e].entries| ensures Proper(s', up, e, j) {
      if e != d || j != k {
        assert Proper(s, up, e, j);
      }
    }
  }

  // ----- unlink

  const NOTHING := Entry(0, "")

  function UnlinkFile(s: Inodes, d: nat, k: nat, x: nat): (r: Inodes)
    requires d < |s| && k < |s[d].entries| && x < |s|
    ensures |r| == |s|
  {
    var s1 := SetEntry(s, d, k, NOTHING);
    SetLinks(s1, x, s1[x].nlink - 1)
  }

  lemma UnlinkFileNames(s: Inodes, d: nat, k: nat, x: nat, e: nat, j: nat, y: nat)
    requires Names(s, d, k, x) && x < |s| && s[x].kind != Dir && 0 < y
    ensures Names(UnlinkFile(s, d, k, x), e, j, y) <==> Names(s, e, j, y) && !(e == d && j == k)
  {
  }

  lemma UnlinkFileCounted(s: Inodes, d: nat, k: nat, x: nat)
    requires Counted(s) && Names(s, d, k, x) && 0 < x < |s| && s[x].kind != Dir
    ensures Counted(UnlinkFile(s, d, k, x))
  {
    hide Names;
    NamesBound(s, d, k, x);
    var s' := UnlinkFile(s, d, k, x);
    forall y | 0 < y < |s'| ensures s'[y].nlink == |Refs(s', y)| {
      forall e: nat, j: nat ensures Names(s', e, j, y) <==> Names(s, e, j, y) && !(e == d && j == k) {
        UnlinkFileNames(s, d, k, x, e, j, y);
      }
      if y == x {
        RefsRemove(s, s', x, d, k);
      } else {
        NamesOne(s, d, k, x, y);
        RefsSame(s, s', y);
      }
    }
  }

  lemma NamesOne(s: Inodes, d: nat, k: nat, x: nat, y: nat)
    requires Names(s, d, k, x) && x != y
    ensures !Names(s, d, k, y)
  {
  }

  lemma UnlinkFileTree(s: Inodes, up: map<nat, nat>, d: nat, k: nat, x: nat)
    requires Tree(s, up) && Names(s, d, k, x) && k >= 2 && 0 < x < |s| && s[x].kind != Dir && s[x].nlink > 0
    ensures Tree(UnlinkFile(s, d, k, x), up)
  {
    var s' := UnlinkFile(s, d, k, x);
    assert Proper(s, up, d, k);
    forall e: nat | e < |s'| ensures Headed(s', e) && Known(s', up, e) {
      assert Headed(s, e) && Known(s, up, e);
    }
    forall e: nat, j: nat | e < |s'| && j < |s'[e].entries| ensures Proper(s', up, e, j) {
      if e != d || j != k {
        assert Proper(s, up, e, j);
      }
    }
  }

  // ----- rmdir

  // Nothing but "." and "..".
  predicate Empty(s: Inodes, x: nat)
    requires x < |s|
  {
    forall j :: 2 <= j < |s[x].entries| ==> s[x].entries[j].inum == 0
  }

  function UnlinkDir(s: Inodes, d: nat, k: nat, x: nat): (r: Inodes)
    requires d < |s| && k < |s[d].entries| && x < |s|
    ensures |r| == |s|
  {
    var s1 := SetEntry(s, d, k, NOTHING);
    var s2 := SetLinks(s1, d, s1[d].nlink - 1);
    SetLinks(s2, x, s2[x].nlink - 1)
  }

  // An empty directory is named once, and so is not linked after its name is gone.
  lemma EmptyNamedOnce(s: Inodes, up: map<nat, nat>, d: nat, k: nat, x: nat)
    requires Tree(s, up) && Names(s, d, k, x) && k >= 2 && 0 < x < |s| && s[x].kind == Dir && Empty(s, x)
    ensures Refs(s, x) == {(d, k)} && x != d
  {
    assert Proper(s, up, d, k);
    forall e: nat, j: nat | Names(s, e, j, x) ensures e == d && j == k {
      assert Headed(s, e) && Known(s, up, e) && Proper(s, up, e, j);
      if j == 1 {
        assert false;
      }
    }
    if x == d {
      assert false;
    }
  }

  // A directory that has a subdirectory is named twice.
  lemma ParentNamedTwice(s: Inodes, up: map<nat, nat>, d: nat, k: nat, x: nat)
    requires Tree(s, up) && Names(s, d, k, x) && k >= 2 && 0 < x < |s| && Linked(s, x) && x != d
    ensures |Refs(s, d)| >= 2 && Names(s, x, 1, d)
  {
    assert Proper(s, up, d, k) && Headed(s, d) && Headed(s, x) && Known(s, up, d);
    assert Names(s, x, 1, d);
    var e, j := if d == ROOT then ROOT else s[d].entries[1].inum, if d == ROOT then 1 else up[d];
    assert Names(s, e, j, d);
    var two := {(x, 1 as nat), (e, j)};
    assert two <= Refs(s, d);
    SubsetSize(two, Refs(s, d));
  }

  lemma UnlinkDirNames(s: Inodes, d: nat, k: nat, x: nat, e: nat, j: nat, y: nat)
    requires Names(s, d, k, x) && x < |s| && Linked(s, x) && s[x].nlink == 1 && x != d && s[d].nlink >= 2
             && Empty(s, x) && 0 < y
    ensures Names(UnlinkDir(s, d, k, x), e, j, y) <==> Names(s, e, j, y) && !(e == d && j == k) && !(e == x && j == 1)
  {
    assert e == x && j >= 2 && j < |s[x].entries| ==> s[x].entries[j].inum == 0;
  }

  lemma UnlinkDirCounted(s: Inodes, d: nat, k: nat, x: nat)
    requires Counted(s) && Names(s, d, k, x) && k >= 2 && 0 < x < |s| && Linked(s, x) && x != d && 0 < d && Empty(s, x)
    requires Refs(s, x) == {(d, k)} && Names(s, x, 1, d) && |Refs(s, d)| >= 2
    ensures Counted(UnlinkDir(s, d, k, x)) && s[x].nlink == 1 && s[d].nlink >= 2
  {
    hide Names, Refs, Empty;
    NamesBound(s, d, k, x);
    var s' := UnlinkDir(s, d, k, x);
    forall y | 0 < y < |s'| ensures s'[y].nlink == |Refs(s', y)| {
      forall e: nat, j: nat
        ensures Names(s', e, j, y) <==> Names(s, e, j, y) && !(e == d && j == k) && !(e == x && j == 1)
      {
        UnlinkDirNames(s, d, k, x, e, j, y);
      }
      NamesApart(s, d, k, x, y);
      if y == x {
        RefsRemove(s, s', x, d, k);
      } else if y == d {
        RefsRemove(s, s', d, x, 1);
      } else {
        RefsSame(s, s', y);
      }
    }
  }

  lemma NamesBound(s: Inodes, d: nat, k: nat, x: nat)
    requires Names(s, d, k, x)
    ensures d < |s| && k < |s[d].entries|
  {
  }

  lemma NamesApart(s: Inodes, d: nat, k: nat, x: nat, y: nat)
    requires Names(s, d, k, x) && Names(s, x, 1, d) && x != d
    ensures (Names(s, d, k, y) <==> y == x) && (Names(s, x, 1, y) <==> y == d)
  {
  }

  lemma UnlinkDirTree(s: Inodes, up: map<nat, nat>, d: nat, k: nat, x: nat)
    requires Tree(s, up) && Names(s, d, k, x) && k >= 2 && 0 < x < |s| && Linked(s, x) && x != d && s[x].nlink == 1
             && s[d].nlink >= 2
    requires Empty(s, x) && Refs(s, x) == {(d, k)}
    ensures Tree(UnlinkDir(s, d, k, x), up)
  {
    var s' := UnlinkDir(s, d, k, x);
    assert Proper(s, up, d, k);
    forall e: nat | e < |s'| ensures Headed(s', e) && Known(s', up, e) {
      assert Headed(s, e) && Known(s, up, e);
      if Linked(s, e) && e != ROOT {
        assert Names(s, e, 1, s[e].entries[1].inum);
        assert (e, 1) in Refs(s, s[e].entries[1].inum);
      }
    }
    forall e: nat, j: nat | e < |s'| && j < |s'[e].entries| ensures Proper(s', up, e, j) {
      if e != d || j != k {
        assert Proper(s, up, e, j);
      }
    }
  }

  // ----- create

  function NewInode(kind: Kind, x: nat, d: nat): Ino {
    Ino(kind, 1, if kind == Dir then [Entry(x, "."), Entry(d, "..")] else [])
  }

  function CreateAt(s: Inodes, d: nat, k: nat, name: string, kind: Kind, x: nat): (r: Inodes)
    requires d < |s| && x < |s| && x != d && k <= |s[d].entries|
    ensures |r| == |s|
  {
    var s1 := SetEntry(s[x := NewInode(kind, x, d)], d, k, Entry(x, name));
    if kind == Dir then SetLinks(s1, d, s1[d].nlink + 1) else s1
  }

  lemma CreateNames(s: Inodes, d: nat, k: nat, name: string, kind: Kind, x: nat, e: nat, j: nat, y: nat)
    requires Linked(s, d) && k >= 1 && Unused(s, d, k) && x < |s| && s[x].kind == Free && 0 < y
    ensures Names(CreateAt(s, d, k, name, kind, x), e, j, y) <==>
            Names(s, e, j, y) || (e == d && j == k && y == x) || (kind == Dir && e == x && j == 1 && y == d)
  {
  }

  lemma CreateCounted(s: Inodes, d: nat, k: nat, name: string, kind: Kind, x: nat)
    requires Counted(s) && Linked(s, d) && k >= 2 && Unused(s, d, k) && 0 < x < |s| && s[x].kind == Free
             && s[x].nlink == 0 && 0 < d
    ensures Counted(CreateAt(s, d, k, name, kind, x))
  {
    hide Names, Refs;
    var s' := CreateAt(s, d, k, name, kind, x);
    forall y | 0 < y < |s'| ensures s'[y].nlink == |Refs(s', y)| {
      forall e: nat, j: nat
        ensures Names(s', e, j, y) <==>
                  || Names(s, e, j, y) || (e == d && j == k && y == x)
                  || (kind == Dir && e == x && j == 1 && y == d)
      {
        CreateNames(s, d, k, name, kind, x, e, j, y);
      }
      UnusedNamesNothing(s, d, k, y);
      FreeNamesNothing(s, x, 1, y);
      if y == x {
        RefsAdd(s, s', x, d, k);
      } else if y == d && kind == Dir {
        RefsAdd(s, s', d, x, 1);
      } else {
        RefsSame(s, s', y);
      }
    }
  }

  lemma FreeNamesNothing(s: Inodes, x: nat, k: nat, y: nat)
    requires x < |s| && s[x].kind == Free
    ensures !Names(s, x, k, y)
  {
  }

  lemma CreateTree(s: Inodes, up: map<nat, nat>, d: nat, k: nat, name: string, kind: Kind, x: nat)
    requires Tree(s, up) && Linked(s, d) && Unused(s, d, k) && 0 < x < |s| && s[x].kind == Free && Refs(s, x) == {}
    requires name != "." && name != ".." && kind != Free
    ensures Tree(CreateAt(s, d, k, name, kind, x), up[x := k])
  {
    hide Headed, Known, Proper, CreateAt;
    var s', up' := CreateAt(s, d, k, name, kind, x), up[x := k];
    UnusedAfterHead(s, up, d, k);
    assert Headed(s, d);
    forall e: nat | e < |s'| ensures Headed(s', e) && Known(s', up', e) {
      assert Headed(s, e) && Known(s, up, e);
      CreateDir(s, up, d, k, name, kind, x, e);
    }
    forall e: nat, j: nat | e < |s'| && j < |s'[e].entries| ensures Proper(s', up', e, j) {
      assert e != x && (e != d || j < |s[d].entries|) && j < |s[e].entries| ==> Proper(s, up, e, j);
      CreateProper(s, up, d, k, name, kind, x, e, j);
    }
    CreateRest(s, up, d, k, name, kind, x);
  }

  lemma CreateDir(s: Inodes, up: map<nat, nat>, d: nat, k: nat, name: string, kind: Kind, x: nat, e: nat)
    requires s != [] && s[0].kind == Free && Linked(s, d) && Unused(s, d, k) && k >= 2 && 0 < x < |s|
             && s[x].kind == Free
    requires e < |s| && Headed(s, e) && Known(s, up, e) && Headed(s, d)
    ensures Headed(CreateAt(s, d, k, name, kind, x), e) && Known(CreateAt(s, d, k, name, kind, x), up[x := k], e)
  {
  }

  lemma CreateProper(s: Inodes, up: map<nat, nat>, d: nat, k: nat, name: string, kind: Kind, x: nat, e: nat, j: nat)
    requires Linked(s, d) && Unused(s, d, k) && k >= 2 && 0 < x < |s| && s[x].kind == Free && Refs(s, x) == {}
    requires name != "." && name != ".." && kind != Free && x != ROOT && e < |s|
             && j < |CreateAt(s, d, k, name, kind, x)[e].entries|
    requires e != x && j < |s[e].entries| ==> Proper(s, up, e, j)
    ensures Proper(CreateAt(s, d, k, name, kind, x), up[x := k], e, j)
  {
    assert Names(s, e, j, x) ==> (e, j) in Refs(s, x);
  }

  lemma CreateRest(s: Inodes, up: map<nat, nat>, d: nat, k: nat, name: string, kind: Kind, x: nat)
    requires Tree(s, up) && Linked(s, d) && Unused(s, d, k) && k >= 2 && 0 < x < |s| && s[x].kind == Free
             && kind != Free
    ensures var s' := CreateAt(s, d, k, name, kind, x);
            && s'[0].kind == Free && Linked(s', ROOT) && |s'[ROOT].entries| >= 2 && s'[ROOT].entries[1].inum == ROOT
            && forall y: nat :: y < |s'| ==> s'[y].nlink >= 0 && (s'[y].kind == Free ==> s'[y] == Ino(Free, 0, []))
  {
    hide Headed, Known, Proper;
  }

  // ----- iput frees an inode without links

  lemma FreeCounted(s: Inodes, x: nat)
    requires Counted(s) && 0 < x < |s| && s[x].nlink == 0
    ensures Counted(s[x := Ino(Free, 0, [])])
  {
    var s' := s[x := Ino(Free, 0, [])];
    forall y | 0 < y < |s'| ensures s'[y].nlink == |Refs(s', y)| {
      RefsSame(s, s', y);
    }
  }

  lemma FreeTree(s: Inodes, up: map<nat, nat>, x: nat)
    requires Tree(s, up) && 0 < x < |s| && s[x].nlink == 0 && Refs(s, x) == {}
    ensures Tree(s[x := Ino(Free, 0, [])], up)
  {
    var s' := s[x := Ino(Free, 0, [])];
    forall e: nat | e < |s'| ensures Headed(s', e) && Known(s', up, e) {
      assert Headed(s, e) && Known(s, up, e);
    }
    forall e: nat, j: nat | e < |s'| && j < |s'[e].entries| ensures Proper(s', up, e, j) {
      assert Proper(s, up, e, j);
      assert Names(s, e, j, x) ==> (e, j) in Refs(s, x);
    }
  }

  lemma NoRefs(s: Inodes, x: nat)
    requires Counted(s) && 0 < x < |s| && s[x].nlink == 0
    ensures Refs(s, x) == {}
  {
  }

  // ----- all together

  // Link counts fit a short, and directories the largest file.
  predicate Small(s: Inodes) {
    forall x :: 0 <= x < |s| ==> s[x].nlink <= SHORT_MAX && |s[x].entries| <= MAXENTRIES
  }

  ghost predicate Good(s: Inodes, up: map<nat, nat>) { Tree(s, up) && Counted(s) && Small(s) }

  lemma ShortUndo(n: int)
    requires 0 <= n <= SHORT_MAX
    ensures Short(Short(n + 1) - 1) == n
    ensures n < SHORT_MAX ==> Short(n + 1) == n + 1
    ensures n == SHORT_MAX ==> Short(n + 1) < 0
  {
  }

  lemma GoodLinks(s: Inodes, up: map<nat, nat>, x: nat)
    requires Good(s, up) && x < |s|
    ensures 0 <= s[x].nlink <= SHORT_MAX && |s[x].entries| <= MAXENTRIES
  {
    hide Counted;
  }

  // A negative link count is wrong.
  lemma NegativeWrong(s: Inodes, x: nat)
    requires 0 < x < |s| && s[x].nlink < 0
    ensures !Counted(s)
  {
  }

  // link: the counts are right exactly when the count did not overflow.
  lemma LinkGood(s: Inodes, up: map<nat, nat>, d: nat, k: nat, name: string, x: nat)
    requires Good(s, up) && Linked(s, d) && 0 < x < |s| && s[x].kind != Dir && s[x].kind != Free
    requires Unused(s, d, k) && k < MAXENTRIES && name != "." && name != ".."
    ensures var s' := SetEntry(SetLinks(s, x, Short(s[x].nlink + 1)), d, k, Entry(x, name));
            (Good(s', up) <==> s[x].nlink < SHORT_MAX) && (Counted(s') <==> s[x].nlink < SHORT_MAX)
  {
    hide Tree, Counted, Unused, Linked, Short;
    GoodLinks(s, up, x);
    ShortUndo(s[x].nlink);
    UnusedIn(s, up, d, k);
    if s[x].nlink < SHORT_MAX {
      LinkTree(s, up, d, k, name, x);
      LinkCounted(s, d, k, name, x);
    } else {
      NegativeWrong(SetEntry(SetLinks(s, x, Short(s[x].nlink + 1)), d, k, Entry(x, name)), x);
    }
  }

  lemma UnusedIn(s: Inodes, up: map<nat, nat>, d: nat, k: nat)
    requires Tree(s, up) && Linked(s, d) && Unused(s, d, k)
    ensures d < |s| && 2 <= k <= |s[d].entries| && 0 < d
  {
    UnusedAfterHead(s, up, d, k);
  }

  lemma UnlinkFileGood(s: Inodes, up: map<nat, nat>, d: nat, k: nat, x: nat)
    requires Good(s, up) && Names(s, d, k, x) && k >= 2 && 0 < x < |s| && s[x].kind != Dir && s[x].nlink > 0
    ensures d < |s| && k < |s[d].entries| && x != d && Good(UnlinkFile(s, d, k, x), up)
  {
    hide Tree, Counted;
    UnlinkFileTree(s, up, d, k, x);
    UnlinkFileCounted(s, d, k, x);
  }

  lemma UnlinkDirGood(s: Inodes, up: map<nat, nat>, d: nat, k: nat, x: nat)
    requires Good(s, up) && Names(s, d, k, x) && k >= 2 && 0 < x < |s| && s[x].kind == Dir && s[x].nlink > 0
             && Empty(s, x)
    ensures d < |s| && k < |s[d].entries| && x != d && Good(UnlinkDir(s, d, k, x), up)
  {
    hide Tree, Counted, Refs, Empty;
    EmptyNamedOnce(s, up, d, k, x);
    ParentNamedTwice(s, up, d, k, x);
    NotZero(s, up, d);
    UnlinkDirCounted(s, d, k, x);
    UnlinkDirTree(s, up, d, k, x);
  }

  lemma NotZero(s: Inodes, up: map<nat, nat>, d: nat)
    requires Tree(s, up) && Linked(s, d)
    ensures 0 < d < |s|
  {
  }

  lemma FreeGood(s: Inodes, up: map<nat, nat>, x: nat)
    requires Good(s, up) && 0 < x < |s| && s[x].nlink == 0
    ensures Good(s[x := Ino(Free, 0, [])], up)
  {
    hide Tree, Counted, Refs;
    NoRefs(s, x);
    FreeTree(s, up, x);
    FreeCounted(s, x);
  }

  function Column(d: nat, lo: nat, hi: nat): set<(nat, nat)> { set k: nat | lo <= k < hi :: (d, k) }

  lemma {:induction false} ColumnSize(d: nat, lo: nat, hi: nat)
    requires lo <= hi
    ensures |Column(d, lo, hi)| == hi - lo
    decreases hi
  {
    if lo < hi {
      ColumnSize(d, lo, hi - 1);
      assert Column(d, lo, hi) == Column(d, lo, hi - 1) + {(d, hi - 1)};
    }
  }

  // The ".." entries of the subdirectories of d among the inodes below n.
  ghost function Subs(s: Inodes, d: nat, n: nat): set<(nat, nat)> {
    set e: nat | e < n && e != ROOT && Names(s, e, 1, d) :: (e, 1)
  }

  // Each subdirectory has an entry of d to itself.
  lemma {:induction false} SubsSize(s: Inodes, up: map<nat, nat>, d: nat, n: nat, free: set<(nat, nat)>)
    requires Tree(s, up) && Linked(s, d) && n <= |s|
    requires forall e: nat :: e < n && e != ROOT && Names(s, e, 1, d) ==> e in up && (d, up[e]) in free
    ensures |Subs(s, d, n)| <= |free|
    decreases n
  {
    hide Tree;
    if n > 0 {
      var e := n - 1;
      if e != ROOT && Names(s, e, 1, d) {
        assert Subs(s, d, n) == Subs(s, d, e) + {(e, 1)};
        forall f: nat | f < e && f != ROOT && Names(s, f, 1, d) ensures (d, up[f]) in free - {(d, up[e])} {
          SubsApart(s, up, d, e, f);
        }
        SubsSize(s, up, d, e, free - {(d, up[e])});
      } else {
        assert Subs(s, d, n) == Subs(s, d, e);
        SubsSize(s, up, d, e, free);
      }
    }
  }

  lemma SubsApart(s: Inodes, up: map<nat, nat>, d: nat, e: nat, f: nat)
    requires Tree(s, up) && e != f && e != ROOT && f != ROOT && Names(s, e, 1, d) && Names(s, f, 1, d)
    ensures e in up && f in up && up[e] != up[f]
  {
    assert Headed(s, e) && Headed(s, f) && Known(s, up, e) && Known(s, up, f);
  }

  lemma SubIndex(s: Inodes, up: map<nat, nat>, d: nat, e: nat)
    requires Tree(s, up) && d < |s| && e != ROOT && Names(s, e, 1, d)
    ensures e in up && 2 <= up[e] < |s[d].entries|
  {
    assert Headed(s, e) && Known(s, up, e);
  }

  // What names a directory: the ".." of its subdirectories, and its one entry in its
  // parent, or for the root its own "..".
  lemma DirRefs(s: Inodes, up: map<nat, nat>, d: nat, e: nat, j: nat)
    requires Tree(s, up) && Linked(s, d) && Names(s, e, j, d)
    ensures if j == 1 then e < |s| && (e == ROOT ==> d == ROOT)
            else d != ROOT && |s[d].entries| >= 2 && d in up && e == s[d].entries[1].inum && j == up[d]
  {
    assert Headed(s, e) && Headed(s, d) && Proper(s, up, e, j) && Known(s, up, d);
  }

  // A directory has fewer names than it can have entries, so its count cannot overflow.
  lemma DirCountSmall(s: Inodes, up: map<nat, nat>, d: nat)
    requires Good(s, up) && Linked(s, d)
    ensures 0 < d < |s| && s[d].nlink < MAXENTRIES
  {
    hide Tree, Refs, Names;
    NotZero(s, up, d);
    var subs := Subs(s, d, |s|);
    HasHead(s, up, d);
    var slots := Column(d, 2, |s[d].entries|);
    ColumnSize(d, 2, |s[d].entries|);
    forall e: nat | e < |s| && e != ROOT && Names(s, e, 1, d) ensures e in up && (d, up[e]) in slots {
      SubIndex(s, up, d, e);
    }
    SubsSize(s, up, d, |s|, slots);
    var parent := if d == ROOT then (ROOT as nat, 1 as nat) else (s[d].entries[1].inum, up[d]);
    forall r | r in Refs(s, d) ensures r in subs + {parent} {
      RefsName(s, d, r);
      DirRefs(s, up, d, r.0, r.1);
    }
    SubsetSize(Refs(s, d), subs + {parent});
  }

  lemma RefsName(s: Inodes, x: nat, r: (nat, nat))
    requires r in Refs(s, x)
    ensures Names(s, r.0, r.1, x)
  {
  }

  lemma HasHead(s: Inodes, up: map<nat, nat>, d: nat)
    requires Tree(s, up) && Linked(s, d)
    ensures |s[d].entries| >= 2 && (d != ROOT ==> d in up)
  {
    assert Headed(s, d) && Known(s, up, d);
  }

  // create keeps everything right, for no directory comes near the largest count.
  lemma CreateGood(s: Inodes, up: map<nat, nat>, d: nat, k: nat, name: string, kind: Kind, x: nat)
    requires Good(s, up) && Linked(s, d) && 0 < x < |s| && s[x].kind == Free
    requires Unused(s, d, k) && k < MAXENTRIES && name != "." && name != ".." && kind != Free
    ensures d < |s| && x != d && k <= |s[d].entries|
    ensures Good(CreateAt(s, d, k, name, kind, x), up[x := k])
  {
    hide Tree, Counted, Refs, Unused;
    UnusedIn(s, up, d, k);
    FreeZero(s, up, x);
    NoRefs(s, x);
    DirCountSmall(s, up, d);
    CreateTree(s, up, d, k, name, kind, x);
    CreateCounted(s, d, k, name, kind, x);
  }

  lemma FreeZero(s: Inodes, up: map<nat, nat>, x: nat)
    requires Tree(s, up) && x < |s| && s[x].kind == Free
    ensures s[x] == Ino(Free, 0, [])
  {
  }

  // ----- a count that overflows

  const BUSY := 2    // a file with SHORT_MAX links
  const SUB := 3     // a subdirectory of the root

  // Three letters for a number.
  function Label(i: nat): string
    requires i < 17576
  {
    [('a' as int + i / 676) as char, ('a' as int + i / 26 % 26) as char, ('a' as int + i % 26) as char]
  }

  function Links(n: nat): (r: seq<Entry>)
    requires n < 17576
    ensures |r| == n && forall i :: 0 <= i < n ==> r[i].inum == BUSY
  {
    seq(n, i requires 0 <= i < n => Entry(BUSY, Label(i)))
  }

  // A file with 16384 links in the root directory and 16383 in a subdirectory; both
  // directories have room for more.
  function Crowded(): (r: Inodes)
    ensures |r| == 4
  {
    [Ino(Free, 0, []),
     Ino(Dir, 2, [Entry(ROOT, "."), Entry(ROOT, ".."), Entry(SUB, "sub.dir")] + Links(16384)),
     Ino(File, SHORT_MAX, []),
     Ino(Dir, 1, [Entry(SUB, "."), Entry(ROOT, "..")] + Links(16383))]
  }

  lemma CrowdedTree()
    ensures Tree(Crowded(), map[SUB := 2])
  {
    hide Links;
    var s := Crowded();
    LabelsPlain();
  }

  lemma LabelsPlain()
    ensures forall n: nat, i: nat :: i < n < 17576 ==> Links(n)[i].name != "." && Links(n)[i].name != ".."
  {
  }

  lemma CrowdedCounted()
    ensures Counted(Crowded())
  {
    hide Links;
    var s := Crowded();
    assert Refs(s, ROOT) == {(ROOT, 1), (SUB, 1)};
    assert Refs(s, SUB) == {(ROOT, 2)};
    assert Refs(s, BUSY) == Column(ROOT, 3, 16387) + Column(SUB, 2, 16385);
    ColumnSize(ROOT, 3, 16387);
    ColumnSize(SUB, 2, 16385);
  }

  // One more link makes the count of the file negative.
  lemma LinkOverflows()
    ensures Good(Crowded(), map[SUB := 2])
    ensures var s := Crowded();
            var k := |s[SUB].entries|;
            && Linked(s, SUB) && Unused(s, SUB, k) && k < MAXENTRIES
            && !Counted(SetEntry(SetLinks(s, BUSY, Short(s[BUSY].nlink + 1)), SUB, k, Entry(BUSY, "last")))
  {
    hide Tree, Counted;
    CrowdedTree();
    CrowdedCounted();
    LinkGood(Crowded(), map[SUB := 2], SUB, |Crowded()[SUB].entries|, "last", BUSY);
  }
}
