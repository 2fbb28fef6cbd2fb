// dirlookup and dirlink of kernel/fs.c, and link, unlink and create of kernel/sysfile.c.
// The results of looking up the paths are parameters; a call is one transaction.
module Directories {
  import opened Common
  import opened LinkSpec
  import opened NameSpec

  class FileTree {
    var inodes: Inodes
    ghost var up: map<nat, nat>

    ghost predicate Valid()
      reads this
    {
      Good(inodes, up) && Unique(inodes)
    }

    // The image that mkfs makes: a root directory that names itself.
    constructor (ninodes: nat)
      requires ninodes > ROOT
      ensures Valid() && |inodes| == ninodes
    {
      inodes := seq(ninodes, i => if i == ROOT then Ino(Dir, 1, [Entry(ROOT, "."), Entry(ROOT, "..")])
                    else Ino(Kind.Free, 0, []));
      up := map[];
      new;
      RootOnly(inodes, up);
    }

    // dirlookup.  It panics unless d is a directory.
    method DirLookup(d: nat, name: string) returns (found: bool, inum: nat, off: nat)
      requires d < |inodes| && inodes[d].kind == Dir
      ensures found ==> First(inodes, d, off, name) && inum == inodes[d].entries[off].inum
      ensures !found ==> Absent(inodes, d, name)
    {
      off := 0;
      while off < |inodes[d].entries|
        invariant off <= |inodes[d].entries| && forall k: nat :: k < off ==> !Matches(inodes, d, k, name)
      {
        var de := inodes[d].entries[off];
        if de.inum != 0 && de.name == name {
          return true, de.inum, off;
        }
        off := off + 1;
      }
      return false, 0, 0;
    }

    // dirlink; `room` tells whether the disk has the blocks to extend the directory.
    method DirLink(d: nat, name: string, inum: nat, room: bool) returns (r: int, k: nat)
      requires d < |inodes| && inodes[d].kind == Dir && |inodes[d].entries| <= MAXENTRIES
      modifies this`inodes
      ensures r == -1 ==> inodes == old(inodes)
      ensures r == -1 ==> !Absent(inodes, d, name) || (FirstUnused(inodes, d, k) && !Fits(inodes, d, k, room))
      ensures r == 0 || r == -1
      ensures r == 0 ==>
                && Absent(old(inodes), d, name) && FirstUnused(old(inodes), d, k) && Fits(old(inodes), d, k, room)
                && inodes == SetEntry(old(inodes), d, k, Entry(inum, name))
    {
      var found, _, off := DirLookup(d, name);
      if found {
        Present(inodes, d, off, name);
        return -1, 0;
      }
      k := 0;
      while k < |inodes[d].entries|
        invariant k <= |inodes[d].entries| && inodes == old(inodes)
        invariant forall j :: 0 <= j < k ==> inodes[d].entries[j].inum != 0
      {
        if inodes[d].entries[k].inum == 0 {
          break;
        }
        k := k + 1;
      }
      if k == |inodes[d].entries| && (!room || k == MAXENTRIES) {
        return -1, k;
      }
      inodes := SetEntry(inodes, d, k, Entry(inum, name));
      r := 0;
    }

    // sys_link, where namei(old) gives ip and nameiparent(new) gives dp, a linked directory.
    method Link(ip: Option<nat>, dp: Option<nat>, name: string, room: bool) returns (r: int, ghost k: nat)
      requires Valid() && (dp.Some? ==> Linked(inodes, dp.value))
      requires ip.Some? ==> 0 < ip.value < |inodes| && inodes[ip.value].kind != Kind.Free
      modifies this`inodes
      ensures r == 0 || r == -1
      ensures r == -1 ==> inodes == old(inodes)
      ensures r == -1 ==>
                || ip.None? || inodes[ip.value].kind == Dir || dp.None? || !Absent(inodes, dp.value, name)
                || (FirstUnused(inodes, dp.value, k) && !Fits(inodes, dp.value, k, room))
      ensures r == 0 ==>
                && ip.Some? && dp.Some? && old(inodes)[ip.value].kind != Dir && Absent(old(inodes), dp.value, name)
                && FirstUnused(old(inodes), dp.value, k) && Fits(old(inodes), dp.value, k, room)
                && inodes == SetEntry(SetLinks(old(inodes), ip.value, Short(old(inodes)[ip.value].nlink + 1)),
                                      dp.value, k, Entry(ip.value, name))
                && (Valid() <==> old(inodes)[ip.value].nlink < SHORT_MAX)
                && (Counted(inodes) <==> old(inodes)[ip.value].nlink < SHORT_MAX)
    {
      hide Good, Counted, Short, Absent, Unique, Adds;
      k := 0;
      if ip.None? {
        return -1, 0;
      }
      var x := ip.value;
      if inodes[x].kind == Dir {
        return -1, 0;
      }
      GoodLinks(inodes, up, x);
      ShortUndo(inodes[x].nlink);
      inodes := SetLinks(inodes, x, Short(inodes[x].nlink + 1));
      r := -1;
      if dp.Some? {
        var off;
        SameEntries(old(inodes), inodes, dp.value, name);
        GoodLinks(old(inodes), up, dp.value);
        r, off := DirLink(dp.value, name, x, room);
        k := off;
      }
      if r < 0 {
        inodes := SetLinks(inodes, x, Short(inodes[x].nlink - 1));
        assert inodes == old(inodes);
        return;
      }
      NoDots(old(inodes), up, dp.value, name);
      LinkAdds(old(inodes), dp.value, k, name, x, Short(old(inodes)[x].nlink + 1));
      LinkGood(old(inodes), up, dp.value, k, name, x);
    }

    // isdirempty, of a linked directory.
    method IsDirEmpty(x: nat) returns (b: bool)
      requires x < |inodes|
      ensures b <==> Empty(inodes, x)
    {
      var off := 2;
      while off < |inodes[x].entries|
        invariant 2 <= off && forall j :: 2 <= j < off && j < |inodes[x].entries| ==> inodes[x].entries[j].inum == 0
      {
        if inodes[x].entries[off].inum != 0 {
          return false;
        }
        off := off + 1;
      }
      return true;
    }

    // iput of an inode that others hold, or do not: without links it is freed.
    method Put(x: nat, held: bool)
      requires Valid() && 0 < x < |inodes|
      modifies this`inodes
      ensures Valid() && inodes == Dropped(old(inodes), x, held)
      ensures held || old(inodes)[x].nlink > 0 ==> inodes == old(inodes)
      ensures !held && old(inodes)[x].nlink == 0 ==> inodes == old(inodes)[x := Ino(Kind.Free, 0, [])]
    {
      hide Good;
      if !held && inodes[x].nlink == 0 {
        FreeGood(inodes, up, x);
        inodes := inodes[x := Ino(Kind.Free, 0, [])];
      }
    }

    // sys_unlink, where nameiparent(path) gives dp, a linked directory; `held` tells
    // whether others use the inode.  k is the entry that goes.
    method Unlink(dp: Option<nat>, name: string, held: bool) returns (r: int, ghost k: nat)
      requires Valid() && (dp.Some? ==> Linked(inodes, dp.value))
      modifies this`inodes
      ensures Valid() && (r == 0 || r == -1)
      ensures r == -1 ==> inodes == old(inodes)
      ensures r == -1 ==>
                dp.None? || name == "." || name == ".." || Absent(inodes, dp.value, name)
                    || Busy(inodes, dp.value, k, name)
      ensures r == 0 ==>
                && dp.Some? && name != "." && name != ".." && First(old(inodes), dp.value, k, name)
                && var x := old(inodes)[dp.value].entries[k].inum;
                   && x < |old(inodes)|
                   && inodes == Dropped(if old(inodes)[x].kind == Dir then UnlinkDir(old(inodes), dp.value, k, x)
                                        else UnlinkFile(old(inodes), dp.value, k, x), x, held)
    {
      hide Good, Absent, Unique, Removes, UnlinkFile, UnlinkDir;
      k := 0;
      if dp.None? {
        return -1, 0;
      }
      var d := dp.value;
      if name == "." || name == ".." {
        return -1, 0;
      }
      var found, x, off := DirLookup(d, name);
      k := off;
      if !found {
        return -1, 0;
      }
      FoundName(inodes, up, d, off, name);
      if inodes[x].kind == Dir {
        var empty := IsDirEmpty(x);
        if !empty {
          return -1, k;
        }
        UnlinkDirGood(inodes, up, d, off, x);
        UnlinkRemoves(inodes, d, off, name, x, true);
        UnlinkDirIs(inodes, d, off, x);
        inodes := SetEntry(inodes, d, off, NOTHING);
        inodes := SetLinks(inodes, d, inodes[d].nlink - 1);
        inodes := SetLinks(inodes, x, inodes[x].nlink - 1);
      } else {
        UnlinkFileGood(inodes, up, d, off, x);
        UnlinkRemoves(inodes, d, off, name, x, true);
        UnlinkFileIs(inodes, d, off, x);
        inodes := SetEntry(inodes, d, off, NOTHING);
        inodes := SetLinks(inodes, x, inodes[x].nlink - 1);
      }
      Put(x, held);
      r := 0;
    }

    // ialloc: the first free inode, or 0.
    method IAlloc(kind: Kind) returns (x: nat)
      requires |inodes| > 0
      modifies this`inodes
      ensures x == 0 ==> inodes == old(inodes) && forall i :: 0 < i < |inodes| ==> inodes[i].kind != Kind.Free
      ensures x != 0 ==>
                && x < |old(inodes)| && old(inodes)[x].kind == Kind.Free
                && (forall i :: 0 < i < x ==> old(inodes)[i].kind != Kind.Free)
                && inodes == old(inodes)[x := Ino(kind, 0, [])]
    {
      var inum := 1;
      while inum < |inodes|
        invariant 1 <= inum <= |inodes| && inodes == old(inodes)
                  && forall i :: 0 < i < inum ==> inodes[i].kind != Kind.Free
      {
        if inodes[inum].kind == Kind.Free {
          inodes := inodes[inum := Ino(kind, 0, [])];
          return inum;
        }
        inum := inum + 1;
      }
      x := 0;
    }

    // create makes the entries "." and ".." of the new directory x in d.
    method AddDots(d: nat, x: nat, room0: bool, room1: bool) returns (ok: bool)
      requires 0 < x < |inodes| && inodes[x].kind == Dir && inodes[x].entries == []
      modifies this`inodes
      ensures |inodes| == |old(inodes)| && (ok <==> room0 && room1)
      ensures inodes == old(inodes)[x := if ok then old(inodes)[x].(entries := [Entry(x, "."), Entry(d, "..")])
                                         else inodes[x]]
    {
      hide Absent, FirstUnused, SetEntry;
      var r, k := DirLink(x, ".", x, room0);
      LinkAtEnd(old(inodes), x, k, Entry(x, "."));
      if r < 0 {
        return false;
      }
      ghost var one := inodes;
      assert one[x].entries == [Entry(x, ".")];
      r, k := DirLink(x, "..", d, room1);
      LinkAtEnd(one, x, k, Entry(d, ".."));
      assert r == 0 ==> inodes[x].entries == [Entry(x, "."), Entry(d, "..")];
      return r == 0;
    }

    // create fills in the new inode x and links it into d; s0 are the inodes before.
    method Fill(d: nat, name: string, kind: Kind, x: nat, room0: bool, room1: bool, room: bool, ghost s0: Inodes)
      returns (ok: bool, k: nat)
      requires 0 < d < |s0| && 0 < x < |s0| && x != d && s0[d].kind == Dir && inodes == s0[x := Ino(kind, 0, [])]
      requires 0 <= s0[d].nlink < SHORT_MAX && |s0[d].entries| <= MAXENTRIES && Absent(s0, d, name)
      modifies this`inodes
      ensures !ok ==> |inodes| == |s0| && inodes == s0[x := inodes[x]]
      ensures !ok ==> (kind == Dir && !(room0 && room1)) || (FirstUnused(s0, d, k) && !Fits(s0, d, k, room))
      ensures ok ==>
                && (kind == Dir ==> room0 && room1) && FirstUnused(s0, d, k) && Fits(s0, d, k, room)
                && inodes == CreateAt(s0, d, k, name, kind, x)
    {
      hide Absent, Short;
      ok := false;
      inodes := SetLinks(inodes, x, 1);
      if kind == Dir {
        var filled := AddDots(d, x, room0, room1);
        if !filled {
          return false, 0;
        }
      }
      assert inodes == s0[x := NewInode(kind, x, d)];
      SameEntries(s0, inodes, d, name);
      ShortUndo(s0[d].nlink);
      var r;
      r, k := DirLink(d, name, x, room);
      if r < 0 {
        return;
      }
      if kind == Dir {
        inodes := SetLinks(inodes, d, Short(inodes[d].nlink + 1));
      }
      ok := true;
    }

    // create, where nameiparent(path) gives dp, a linked directory; the rooms tell
    // whether the directories can be extended.  isnew tells whether x was made now,
    // and k is the entry that names x or stood in the way.
    method Create(dp: Option<nat>, name: string, kind: Kind, room0: bool, room1: bool, room: bool)
      returns (x: nat, isnew: bool, ghost k: nat)
      requires Valid() && kind != Kind.Free && (dp.Some? ==> Linked(inodes, dp.value))
      modifies this
      ensures Valid()
      ensures !isnew ==> inodes == old(inodes) && up == old(up)
      ensures x == 0 ==> !isnew && CreateRefused(inodes, dp, name, kind, k, room0, room1, room)
      ensures x != 0 && !isnew ==>
                && dp.Some? && kind == File && First(inodes, dp.value, k, name)
                && x == inodes[dp.value].entries[k].inum && IsFile(inodes, x)
      ensures isnew ==>
                && dp.Some? && !CreateRefused(old(inodes), dp, name, kind, k, room0, room1, room)
                && 0 < x < |old(inodes)| && old(inodes)[x].kind == Kind.Free
                && (forall i :: 0 < i < x ==> old(inodes)[i].kind != Kind.Free)
                && FirstUnused(old(inodes), dp.value, k) && x != dp.value
                && inodes == CreateAt(old(inodes), dp.value, k, name, kind, x)
    {
      hide Good, Absent, Counted, Unique, Adds;
      isnew, k := false, 0;
      if dp.None? {
        return 0, false, 0;
      }
      var d := dp.value;
      var found, ip, off := DirLookup(d, name);
      if found {
        Present(inodes, d, off, name);
        EntryInRange(inodes, up, d, off);
        if kind == File && (inodes[ip].kind == File || inodes[ip].kind == Device) {
          return ip, false, off;
        }
        return 0, false, off;
      }
      NoDots(inodes, up, d, name);
      GoodLinks(inodes, up, d);
      DirCountSmall(inodes, up, d);
      x := IAlloc(kind);
      if x == 0 {
        return;
      }
      var ok, off' := Fill(d, name, kind, x, room0, room1, room, old(inodes));
      k := off';
      if !ok {
        FreeSlot(old(inodes), up, x);
        inodes := SetLinks(inodes, x, 0);
        inodes := inodes[x := Ino(Kind.Free, 0, [])];
        assert inodes == old(inodes);
        return 0, false, k;
      }
      CreateGood(old(inodes), up, d, k, name, kind, x);
      CreateAdds(old(inodes), d, k, name, kind, x);
      up := up[x := k];
      isnew := true;
    }
  }

  lemma EntryInRange(s: Inodes, up: map<nat, nat>, d: nat, k: nat)
    requires Good(s, up) && Linked(s, d) && k < |s[d].entries| && s[d].entries[k].inum != 0
    ensures s[d].entries[k].inum < |s|
  {
    hide Counted, Known;
    assert Headed(s, d) && Proper(s, up, d, k);
  }

  lemma Present(s: Inodes, d: nat, k: nat, name: string)
    requires d < |s| && Matches(s, d, k, name)
    ensures !Absent(s, d, name)
  {
  }

  lemma FreeSlot(s: Inodes, up: map<nat, nat>, x: nat)
    requires Good(s, up) && 0 < x < |s| && s[x].kind == Kind.Free
    ensures s[x] == Ino(Kind.Free, 0, [])
  {
    hide Tree, Counted;
    FreeZero(s, up, x);
  }

  lemma RootOnly(s: Inodes, up: map<nat, nat>)
    requires |s| > ROOT && up == map[]
    requires forall i :: 0 <= i < |s| ==>
               s[i] == if i == ROOT then Ino(Dir, 1, [Entry(ROOT, "."), Entry(ROOT, "..")]) else Ino(Kind.Free, 0, [])
    ensures Tree(s, up) && Counted(s)
  {
    forall x | 0 < x < |s| ensures s[x].nlink == |Refs(s, x)| {
      if x == ROOT {
        assert Names(s, ROOT, 1, ROOT);
        assert Refs(s, x) == {(ROOT, 1)};
      } else {
        assert Refs(s, x) == {};
      }
    }
  }

  lemma UnlinkFileIs(s: Inodes, d: nat, k: nat, x: nat)
    requires d < |s| && k < |s[d].entries| && x < |s|
    ensures var s1 := SetEntry(s, d, k, NOTHING); UnlinkFile(s, d, k, x) == SetLinks(s1, x, s1[x].nlink - 1)
  {
  }

  lemma UnlinkDirIs(s: Inodes, d: nat, k: nat, x: nat)
    requires d < |s| && k < |s[d].entries| && x < |s|
    ensures var s1 := SetEntry(s, d, k, NOTHING);
            var s2 := SetLinks(s1, d, s1[d].nlink - 1);
            UnlinkDir(s, d, k, x) == SetLinks(s2, x, s2[x].nlink - 1)
  {
  }

  // A linked directory has entries for "." and "..".
  lemma NoDots(s: Inodes, up: map<nat, nat>, d: nat, name: string)
    requires Good(s, up) && Linked(s, d) && Absent(s, d, name)
    ensures name != "." && name != ".."
  {
    hide Counted;
    assert Headed(s, d);
    assert !Matches(s, d, 0, name) && !Matches(s, d, 1, name);
  }

  // A name that was found names an inode with links.
  lemma FoundName(s: Inodes, up: map<nat, nat>, d: nat, k: nat, name: string)
    requires Good(s, up) && Linked(s, d) && Matches(s, d, k, name) && name != "." && name != ".."
    ensures var x := s[d].entries[k].inum;
            k >= 2 && 0 < x < |s| && s[x].kind != Kind.Free && Names(s, d, k, x) && s[x].nlink >= 1
  {
    hide Known;
    assert Headed(s, d) && Proper(s, up, d, k);
    var x := s[d].entries[k].inum;
    assert (d, k) in Refs(s, x);
  }
}
