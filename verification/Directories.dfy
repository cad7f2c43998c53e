/** The system calls of kernel/sysfile.c that change directories, updating the inodes in place. */
module Directories {
  import opened LinkCounts

  class Tree {
    var inodes: Table
    ghost var slot: map<nat, nat>       // where each directory is entered in its parent
    ghost var pend: multiset<nat>       // links that sys_link has counted, not entered

    ghost predicate Valid()
      reads this
    {
      LinksOk(inodes, slot, pend)
    }

    static predicate Used(ents: seq<Dirent>, name: string) {
      exists k :: 0 <= k < |ents| && ents[k].inum != 0 && ents[k].name == name
    }

    /** `dirlookup`: the first used entry with the name. */
    method Dirlookup(d: nat, name: string) returns (inum: nat, off: nat)
      requires d < |inodes| && inodes[d].kind == DIR
      ensures inum == 0 <==> !Used(inodes[d].ents, name)
      ensures inum != 0 ==> off < |inodes[d].ents| && inodes[d].ents[off] == Dirent(inum, name)
    {
      off := 0;
      while off < |inodes[d].ents|
        invariant off <= |inodes[d].ents|
        invariant forall k :: 0 <= k < off && inodes[d].ents[k].inum != 0 ==> inodes[d].ents[k].name != name
      {
        if inodes[d].ents[off].inum != 0 && inodes[d].ents[off].name == name {
          return inodes[d].ents[off].inum, off;
        }
        off := off + 1;
      }
      inum := 0;
    }

    /** The slot that `dirlink` writes: the first unused entry, or a new one. */
    static predicate FirstUnused(ents: seq<Dirent>, k: nat) {
      && k <= |ents| && (forall j :: 0 <= j < k ==> ents[j].inum != 0)
      && (k < |ents| ==> ents[k].inum == 0)
    }

    /** `dirlink`; a directory that has to grow may find the disk `full`. */
    method Dirlink(d: nat, name: string, inum: nat, full: bool) returns (ok: bool, ghost k: nat)
      requires d < |inodes| && inodes[d].kind == DIR
      modifies this`inodes
      ensures FirstUnused(old(inodes)[d].ents, k)
      ensures ok <==> !Used(old(inodes)[d].ents, name) && (k < |old(inodes)[d].ents| || (!full && k < MAXENTS))
      ensures inodes == if ok then PutEnt(old(inodes), d, k, Dirent(inum, name)) else old(inodes)
    {
      var off := 0;
      while off < |inodes[d].ents| && inodes[d].ents[off].inum != 0
        invariant off <= |inodes[d].ents| && forall j :: 0 <= j < off ==> inodes[d].ents[j].inum != 0
      {
        off := off + 1;
      }
      k := off;
      var found, _ := Dirlookup(d, name);
      if found != 0 {
        return false, k;
      }
      if off == |inodes[d].ents| && (full || off >= MAXENTS) {
        return false, k;
      }
      if off < |inodes[d].ents| {
        inodes := inodes[d := inodes[d].(ents := inodes[d].ents[off := Dirent(inum, name)])];
      } else {
        inodes := inodes[d := inodes[d].(ents := inodes[d].ents + [Dirent(inum, name)])];
      }
      ok := true;
    }

    /** `isdirempty`. */
    method Isdirempty(d: nat) returns (r: bool)
      requires d < |inodes|
      ensures r == NoEntries(inodes[d].ents)
    {
      var off := 2;
      while off < |inodes[d].ents|
        invariant 2 <= off && forall k :: 2 <= k < off && k < |inodes[d].ents| ==> inodes[d].ents[k].inum == 0
      {
        if inodes[d].ents[off].inum != 0 {
          return false;
        }
        off := off + 1;
      }
      r := true;
    }

    /** `ialloc`: the first free inode, 0 if there is none. */
    method FindFree() returns (i: nat)
      ensures i == 0 ==> forall j :: 1 <= j < |inodes| ==> inodes[j].kind != FREE
      ensures i != 0 ==> i < |inodes| && inodes[i].kind == FREE
    {
      i := 1;
      while i < |inodes|
        invariant 1 <= i && forall j :: 1 <= j < i && j < |inodes| ==> inodes[j].kind != FREE
      {
        if inodes[i].kind == FREE {
          return;
        }
        i := i + 1;
      }
      i := 0;
    }

    /** The table after a file or device was created. */
    static function MkFile(s: Table, d: nat, k: nat, i: nat, kind: Kind, name: string): Table
      requires d < |s| && i < |s| && i != d && k <= |s[d].ents|
    {
      PutEnt(s[i := Inode(kind, 1, [])], d, k, Dirent(i, name))
    }

    /** The directory has no unused entry and cannot grow. */
    static predicate NoRoom(ents: seq<Dirent>, full: bool) {
      (forall k :: 0 <= k < |ents| ==> ents[k].inum != 0) && (full || |ents| >= MAXENTS)
    }

    /** Entry `k` has the name, and is not what opening a file to create may find. */
    static predicate InTheWay(s: Table, d: nat, k: nat, name: string, kind: Kind) {
      && d < |s| && k < |s[d].ents| && s[d].ents[k].name == name && 0 < s[d].ents[k].inum < |s|
      && !(kind == FILE && s[s[d].ents[k].inum].kind in {FILE, DEVICE})
    }

    /** `create` in the directory `dp` that `nameiparent` found (0: none), for open,
        mkdir and mknod. A failure leaves everything as it was; a directory
        counts for its parent, through "..", once it is entered there. The link
        counts stay right unless something is made in a directory that is not in
        the tree any more. There, ".." may name a freed inode, and `ilock` panics. */
    method Create(dp: nat, name: string, kind: Kind, full1: bool, full2: bool, full3: bool) returns (ip: nat, panics: bool)
      requires Valid() && kind != FREE && (dp != 0 ==> dp < |inodes| && inodes[dp].kind == DIR)
      modifies this`inodes, this`slot
      ensures Valid() <==> ip == 0 || (ip < |old(inodes)| && old(inodes)[ip].kind != FREE) || (dp < |old(inodes)| && Linked(old(inodes), dp))
      ensures ip == 0 ==> inodes == old(inodes) && slot == old(slot)
      ensures panics <==>
                && dp != 0 && !Linked(old(inodes), dp) && name == ".." && |old(inodes)[dp].ents| >= 2
                && var up := old(inodes)[dp].ents[1].inum; up < |old(inodes)| && old(inodes)[up].kind == FREE
      ensures panics ==> ip == 0
      ensures ip == 0 ==>
                || dp == 0 || (exists k :: InTheWay(inodes, dp, k, name, kind))
                || (forall j :: 1 <= j < |inodes| ==> inodes[j].kind != FREE)
                || (kind == DIR && (full1 || full2)) || NoRoom(inodes[dp].ents, full3)
      ensures ip != 0 && ip < |old(inodes)| && old(inodes)[ip].kind != FREE ==>
                inodes == old(inodes) && kind == FILE && inodes[ip].kind in {FILE, DEVICE} && Used(inodes[dp].ents, name)
      ensures ip != 0 ==> dp != 0 && ip < |old(inodes)|
      ensures ip != 0 && old(inodes)[ip].kind == FREE ==>
                && ip != dp && !Used(old(inodes)[dp].ents, name)
                && exists k :: FirstUnused(old(inodes)[dp].ents, k)
                               && inodes == if kind == DIR then MkDir(old(inodes), dp, k, ip, name) else MkFile(old(inodes), dp, k, ip, kind, name)
    {
      hide LinksOk, InodeOk, DirOk, DeadOk;
      panics := false;
      if dp == 0 {
        return 0, false;
      }
      DirEnts(inodes, slot, pend, dp);
      var off;
      ip, off := Dirlookup(dp, name);
      if ip != 0 {
        EntryKind(inodes, slot, pend, dp, off);
        assert inodes[ip].kind == FREE || !(kind == FILE && inodes[ip].kind in {FILE, DEVICE}) ==> InTheWay(inodes, dp, off, name, kind);
        if inodes[ip].kind == FREE {
          return 0, true;               // panic: ilock: no type
        }
        if kind == FILE && (inodes[ip].kind == FILE || inodes[ip].kind == DEVICE) {
          return;
        }
        return 0, false;
      }
      ip := FindFree();
      if ip == 0 {
        return;
      }
      ghost var s := inodes;
      FreeIs(s, slot, pend, ip);
      var ok := NewInode(ip, kind, dp, full1, full2);
      ghost var k;
      if ok {
        assert inodes[dp] == s[dp];
        ok, k := Dirlink(dp, name, ip, full3);
      }
      if !ok {
        // nlink = 0, and the last reference is put
        inodes := inodes[ip := Inode(FREE, 0, [])];
        assert inodes == s;
        return 0, false;
      }
      Unused(s, slot, pend, dp, name, k);
      if kind == DIR {
        inodes := inodes[dp := inodes[dp].(nlink := inodes[dp].nlink + 1)];
        MadeDir(s, slot, pend, dp, k, ip, name);
        slot := slot[ip := k];
        assert inodes == MkDir(s, dp, k, ip, name);
      } else {
        MadeFile(s, slot, pend, dp, k, ip, kind, name);
        assert inodes == MkFile(s, dp, k, ip, kind, name);
      }
    }

    static lemma MadeDir(s: Table, slot: map<nat, nat>, pend: multiset<nat>, d: nat, k: nat, i: nat, name: string)
      requires LinksOk(s, slot, pend) && d < |s| && s[d].kind == DIR && 2 <= k && FirstUnused(s[d].ents, k)
      requires 0 < i < |s| && s[i].kind == FREE && name != "." && name != ".."
      requires forall j :: 0 <= j < |s[d].ents| && s[d].ents[j].inum != 0 ==> s[d].ents[j].name != name
      ensures LinksOk(MkDir(s, d, k, i, name), slot[i := k], pend) <==> Linked(s, d)
    {
      hide LinksOk;
      MkdirKeepsIff(s, slot, pend, d, k, i, name);
      if Linked(s, d) {
        EnterDir(s, slot, pend, d, k, i, name);
      }
    }

    static lemma MadeFile(s: Table, slot: map<nat, nat>, pend: multiset<nat>, d: nat, k: nat, i: nat, kind: Kind, name: string)
      requires LinksOk(s, slot, pend) && d < |s| && s[d].kind == DIR && 2 <= k && FirstUnused(s[d].ents, k)
      requires 0 < i < |s| && s[i].kind == FREE && kind != FREE && kind != DIR && name != "." && name != ".."
      requires forall j :: 0 <= j < |s[d].ents| && s[d].ents[j].inum != 0 ==> s[d].ents[j].name != name
      ensures i != d && (LinksOk(MkFile(s, d, k, i, kind, name), slot, pend) <==> Linked(s, d))
    {
      hide LinksOk;
      CreateKeepsIff(s, slot, pend, d, k, i, kind, name);
      if Linked(s, d) {
        AllocFile(s, slot, pend, i, kind);
        EnterFile(s[i := Inode(kind, 1, [])], slot, pend + multiset{i}, d, k, i, name);
        assert pend + multiset{i} - multiset{i} == pend;
      }
    }

    /** What a directory holds, in the tree or not. */
    static lemma DirEnts(s: Table, slot: map<nat, nat>, pend: multiset<nat>, d: nat)
      requires LinksOk(s, slot, pend) && d < |s| && s[d].kind == DIR
      ensures |s[d].ents| >= 2 && s[d].ents[0] == Dirent(d, ".") && s[d].ents[1].name == ".." && 0 < s[d].ents[1].inum < |s| && d != 0
      ensures Linked(s, d) ==> s[s[d].ents[1].inum].kind == DIR
      ensures !Linked(s, d) ==> NoEntries(s[d].ents)
    {
      assert InodeOk(s, slot, pend, d);
    }

    /** The new inode, with "." and ".." if it is a directory. */
    method NewInode(ip: nat, kind: Kind, dp: nat, full1: bool, full2: bool) returns (ok: bool)
      requires ip < |inodes| && ip != 0 && dp != 0
      modifies this`inodes
      ensures |inodes| == |old(inodes)| && inodes == old(inodes)[ip := inodes[ip]]
      ensures ok ==> inodes[ip] == Inode(kind, 1, if kind == DIR then [Dirent(ip, "."), Dirent(dp, "..")] else [])
      ensures ok <==> kind != DIR || !(full1 || full2)
    {
      inodes := inodes[ip := Inode(kind, 1, [])];
      ok := true;
      ghost var k;
      if kind == DIR {
        ok, k := Dirlink(ip, ".", ip, full1);
        if ok {
          ok, k := Dirlink(ip, "..", dp, full2);
        }
      }
    }

    static lemma EntryKind(s: Table, slot: map<nat, nat>, pend: multiset<nat>, d: nat, k: nat)
      requires LinksOk(s, slot, pend) && d < |s| && s[d].kind == DIR && k < |s[d].ents| && s[d].ents[k].inum != 0
      ensures s[d].ents[k].inum < |s|
      ensures s[s[d].ents[k].inum].kind == FREE ==> k == 1 && !Linked(s, d)
    {
      assert InodeOk(s, slot, pend, d);
      if k >= 2 && Linked(s, d) {
        assert EntOk(s, slot, d, k);
      }
    }

    static lemma FreeIs(s: Table, slot: map<nat, nat>, pend: multiset<nat>, i: nat)
      requires LinksOk(s, slot, pend) && 0 < i < |s| && s[i].kind == FREE
      ensures s[i] == Inode(FREE, 0, [])
    {
      assert InodeOk(s, slot, pend, i);
    }

    /** A name that is not used in a directory is neither "." nor "..". */
    static lemma Unused(s: Table, slot: map<nat, nat>, pend: multiset<nat>, d: nat, name: string, k: nat)
      requires LinksOk(s, slot, pend) && d < |s| && s[d].kind == DIR && !Used(s[d].ents, name) && FirstUnused(s[d].ents, k)
      ensures name != "." && name != ".." && k >= 2
      ensures forall j :: 0 <= j < |s[d].ents| && s[d].ents[j].inum != 0 ==> s[d].ents[j].name != name
    {
      DirEnts(s, slot, pend, d);
      assert s[d].ents[0].inum != 0 && s[d].ents[1].inum != 0;
    }

    /** The first half of `sys_link`, up to the unlock: the new link is counted. */
    method LinkBegin(ip: nat) returns (ok: bool)
      requires Valid() && ip < |inodes| && (ip != 0 ==> inodes[ip].kind != FREE)
      modifies this`inodes, this`pend
      ensures Valid() && (ok <==> ip != 0 && old(inodes)[ip].kind != DIR)
      ensures !ok ==> inodes == old(inodes) && pend == old(pend)
      ensures ok ==> inodes == old(inodes)[ip := old(inodes)[ip].(nlink := old(inodes)[ip].nlink + 1)] && pend == old(pend) + multiset{ip}
    {
      if ip == 0 || inodes[ip].kind == DIR {
        return false;
      }
      CountLink(inodes, slot, pend, ip, true);
      inodes := inodes[ip := inodes[ip].(nlink := inodes[ip].nlink + 1)];
      pend := pend + multiset{ip};
      ok := true;
    }

    /** The second half of `sys_link`: the link is entered in `dp`, or given up again;
        others may have changed the directories in between. */
    method LinkEnd(ip: nat, dp: nat, name: string, sameDev: bool, full: bool, lastRef: bool) returns (r: int)
      requires Valid() && 0 < ip < |inodes| && inodes[ip].kind != FREE && inodes[ip].kind != DIR && pend[ip] > 0
      requires dp != 0 ==> dp < |inodes| && inodes[dp].kind == DIR
      modifies this`inodes, this`pend
      ensures pend == old(pend) - multiset{ip} && r in {0, -1}
      ensures Valid() <==> r == -1 || (dp < |old(inodes)| && Linked(old(inodes), dp))
      ensures r == 0 ==> dp != 0 && exists k :: FirstUnused(old(inodes)[dp].ents, k) && inodes == PutEnt(old(inodes), dp, k, Dirent(ip, name))
      ensures r == -1 ==> dp == 0 || !sameDev || Used(old(inodes)[dp].ents, name) || NoRoom(old(inodes)[dp].ents, full)
      ensures r == -1 ==>
                inodes == old(inodes)[ip := var p := old(inodes)[ip].(nlink := old(inodes)[ip].nlink - 1); if lastRef && p.nlink == 0 then Inode(FREE, 0, []) else p]
    {
      hide LinksOk, InodeOk, DirOk, DeadOk;
      ghost var s := inodes;
      if dp != 0 && sameDev {
        var ok, k := Dirlink(dp, name, ip, full);
        if ok {
          Unused(s, slot, pend, dp, name, k);
          Entered(s, slot, pend, dp, k, ip, name);
          pend := pend - multiset{ip};
          return 0;
        }
      }
      TakeBack(ip, lastRef);
      r := -1;
    }

    /** The failure path of `sys_link`. */
    method TakeBack(ip: nat, lastRef: bool)
      requires Valid() && 0 < ip < |inodes| && inodes[ip].kind != FREE && inodes[ip].kind != DIR && pend[ip] > 0
      modifies this`inodes, this`pend
      ensures Valid() && pend == old(pend) - multiset{ip}
      ensures inodes == old(inodes)[ip := var p := old(inodes)[ip].(nlink := old(inodes)[ip].nlink - 1); if lastRef && p.nlink == 0 then Inode(FREE, 0, []) else p]
    {
      hide LinksOk, InodeOk, DirOk, DeadOk;
      CountLink(inodes, slot, pend, ip, false);
      inodes := inodes[ip := inodes[ip].(nlink := inodes[ip].nlink - 1)];
      pend := pend - multiset{ip};
      Iput(ip, lastRef);
    }

    static lemma Entered(s: Table, slot: map<nat, nat>, pend: multiset<nat>, d: nat, k: nat, i: nat, name: string)
      requires LinksOk(s, slot, pend) && d < |s| && s[d].kind == DIR && 2 <= k && FirstUnused(s[d].ents, k)
      requires 0 < i < |s| && s[i].kind != FREE && s[i].kind != DIR && pend[i] > 0 && name != "." && name != ".."
      requires forall j :: 0 <= j < |s[d].ents| && s[d].ents[j].inum != 0 ==> s[d].ents[j].name != name
      ensures LinksOk(PutEnt(s, d, k, Dirent(i, name)), slot, pend - multiset{i}) <==> Linked(s, d)
    {
      hide LinksOk;
      LinkKeepsIff(s, slot, pend, d, k, i, name);
      if Linked(s, d) {
        EnterFile(s, slot, pend, d, k, i, name);
      }
    }

    /** `iput`: the last reference to an inode without links frees it. */
    method Iput(i: nat, lastRef: bool)
      requires Valid() && 0 < i < |inodes|
      modifies this`inodes
      ensures Valid()
      ensures inodes == if lastRef && old(inodes)[i].kind != FREE && old(inodes)[i].nlink == 0 then old(inodes)[i := Inode(FREE, 0, [])] else old(inodes)
    {
      if lastRef && inodes[i].kind != FREE && inodes[i].nlink == 0 {
        FreeInode(inodes, slot, pend, i);
        inodes := inodes[i := Inode(FREE, 0, [])];
      }
    }

    /** An inode that was unlinked while it was open when the system went down. */
    static predicate Orphan(s: Table, i: nat)
      requires i < |s|
    {
      i != 0 && s[i].kind != FREE && s[i].nlink == 0
    }

    /** `ireclaim`, at boot: the orphans and only they are freed, and what
        remains is entered in a directory of the tree. */
    method Ireclaim()
      requires Valid() && pend == multiset{}
      modifies this`inodes
      ensures Valid() && |inodes| == |old(inodes)|
      ensures forall j :: 0 <= j < |inodes| ==> inodes[j] == if Orphan(old(inodes), j) then Inode(FREE, 0, []) else old(inodes)[j]
      ensures forall j :: 0 < j < |inodes| && inodes[j].kind != FREE ==> exists d, k :: Names(inodes, j, d, k)
    {
      ghost var s := inodes;
      assert |inodes| > 0;
      hide LinksOk;
      var inum := 1;
      while inum < |inodes|
        invariant Valid() && |inodes| == |s| && 1 <= inum <= |s|
        invariant forall j :: 0 <= j < |s| ==> inodes[j] == if j < inum && Orphan(s, j) then Inode(FREE, 0, []) else s[j]
      {
        if inodes[inum].kind != FREE && inodes[inum].nlink == 0 {
          Iput(inum, true);
        }
        inum := inum + 1;
      }
      forall j | 0 < j < |inodes| && inodes[j].kind != FREE ensures exists d, k :: Names(inodes, j, d, k) {
        LinkedHasEntry(inodes, slot, j);
      }
    }

    static lemma LinkedHasEntry(s: Table, slot: map<nat, nat>, i: nat)
      requires LinksOk(s, slot, multiset{}) && 0 < i < |s| && s[i].nlink != 0
      ensures exists d, k :: Names(s, i, d, k)
    {
      assert InodeOk(s, slot, multiset{}, i);
      var e :| e in Refs(s, i);
      assert Names(s, i, e.0, e.1);
    }

    /** Entry `k` has the name and leads to a directory that is not empty. */
    static predicate NamesFullDir(s: Table, d: nat, k: nat, name: string) {
      && d < |s| && k < |s[d].ents| && s[d].ents[k].name == name && s[d].ents[k].inum < |s|
      && s[s[d].ents[k].inum].kind == DIR && !NoEntries(s[s[d].ents[k].inum].ents)
    }

    /** `sys_unlink` in the directory that `nameiparent` found (0: none). A
        directory loses its only link, and only when it is empty. */
    method SysUnlink(dp: nat, name: string, lastRef: bool) returns (r: int, ghost ip: nat)
      requires Valid() && (dp != 0 ==> dp < |inodes| && inodes[dp].kind == DIR)
      modifies this`inodes
      ensures Valid() && r in {0, -1}
      ensures r == -1 ==> inodes == old(inodes)
      ensures r == 0 ==>
                && dp != 0 && 0 < ip < |inodes| && ip != dp && |inodes| == |old(inodes)|
                && exists k :: 2 <= k < |old(inodes)[dp].ents| && old(inodes)[dp].ents[k] == Dirent(ip, name)
                               && inodes[dp].ents == old(inodes)[dp].ents[k := Dirent(0, "")]
      ensures r == 0 && old(inodes)[ip].kind == DIR ==>
                NoEntries(old(inodes)[ip].ents) && old(inodes)[ip].nlink == 1 && inodes[ip].nlink == 0 && inodes[dp].nlink == old(inodes)[dp].nlink - 1
      ensures r == 0 && old(inodes)[ip].kind != DIR ==> inodes[ip].nlink == old(inodes)[ip].nlink - 1 && inodes[dp].nlink == old(inodes)[dp].nlink
      ensures r == 0 ==>
                && inodes[ip] == (if lastRef && old(inodes)[ip].nlink == 1 then Inode(FREE, 0, []) else old(inodes)[ip].(nlink := old(inodes)[ip].nlink - 1))
                && inodes[dp].kind == DIR
      ensures r == 0 ==> forall j :: 0 <= j < |inodes| && j != ip && j != dp ==> inodes[j] == old(inodes)[j]
      ensures r == -1 ==>
                || dp == 0 || name == "." || name == ".." || !Used(inodes[dp].ents, name)
                || exists k :: NamesFullDir(inodes, dp, k, name)
    {
      hide LinksOk, InodeOk, DirOk;
      ip := 0;
      if dp == 0 {
        return -1, 0;
      }
      if name == "." || name == ".." {
        return -1, 0;
      }
      var i, off := Dirlookup(dp, name);
      if i == 0 {
        return -1, 0;
      }
      ip := i;
      ghost var s := inodes;
      NotDot(s, slot, pend, dp, off); // a removed directory has no other entries
      EntryNames(s, slot, pend, dp, off);
      assert inodes[i].nlink >= 1; // panic: nlink < 1
      if inodes[i].kind == DIR {
        var empty := Isdirempty(i);
        if !empty {
          assert NamesFullDir(inodes, dp, off, name);
          return -1, i;
        }
        EmptyDirLinks(s, slot, pend, dp, off);
        RemoveDir(s, slot, pend, dp, off);
      } else {
        RemoveFile(s, slot, pend, dp, off);
      }
      var dir := inodes[i].kind == DIR;
      inodes := inodes[dp := inodes[dp].(ents := inodes[dp].ents[off := Dirent(0, "")])];
      if dir {
        inodes := inodes[dp := inodes[dp].(nlink := inodes[dp].nlink - 1)];
      }
      inodes := inodes[i := inodes[i].(nlink := inodes[i].nlink - 1)];
      assert dir ==> inodes == RmDir(s, dp, off);
      assert s[dp].ents[off] == Dirent(i, name);
      Iput(i, lastRef);
      r := 0;
    }

    static lemma NotDot(s: Table, slot: map<nat, nat>, pend: multiset<nat>, d: nat, k: nat)
      requires LinksOk(s, slot, pend) && d < |s| && s[d].kind == DIR && k < |s[d].ents| && s[d].ents[k].name != "." && s[d].ents[k].name != ".."
      requires s[d].ents[k].inum != 0
      ensures k >= 2 && Linked(s, d)
    {
      DirEnts(s, slot, pend, d);
    }
  }
}
