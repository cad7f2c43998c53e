/** Directory entries and link counts: what create, mkdir, link and unlink of
    kernel/sysfile.c keep true, including their failures. */
module LinkCounts {
  datatype Kind = FREE | DIR | FILE | DEVICE

  datatype Dirent = Dirent(inum: nat, name: string)

  /** A directory's contents are its entries; entries with inum 0 are unused. */
  datatype Inode = Inode(kind: Kind, nlink: int, ents: seq<Dirent>)

  type Table = seq<Inode>

  const ROOT: nat := 1
  const MAXENTS: nat := 17152     // MAXFILE * BSIZE / sizeof(struct dirent)

  /** A directory that is still part of the tree. */
  predicate Linked(s: Table, d: nat) {
    d < |s| && s[d].kind == DIR && s[d].nlink > 0
  }

  /** Entry `k` of directory `d` is a link to inode `i`. */
  predicate Names(s: Table, i: nat, d: nat, k: nat) {
    Linked(s, d) && k < |s[d].ents| && s[d].ents[k].inum == i != 0 && s[d].ents[k].name != "."
  }

  /** All entries but "." that name inode `i` in directories of the tree. */
  ghost function Refs(s: Table, i: nat): set<(nat, nat)> {
    set d: nat, k: nat | d < |s| && k < |s[d].ents| && Names(s, i, d, k) :: (d, k)
  }

  /** The directory that ".." of `d` names. */
  function Parent(s: Table, d: nat): nat
    requires d < |s| && |s[d].ents| >= 2
  {
    s[d].ents[1].inum
  }

  /** Entry `k >= 2` of the linked directory `d`; `slot` says where each directory is entered. */
  predicate EntOk(s: Table, slot: map<nat, nat>, d: nat, k: nat)
    requires d < |s| && k < |s[d].ents|
  {
    var e := s[d].ents[k];
    e.inum != 0 ==>
      && e.inum < |s| && s[e.inum].kind != FREE && e.name != "." && e.name != ".."
      && (s[e.inum].kind == DIR ==>
            && Linked(s, e.inum) && e.inum != ROOT && |s[e.inum].ents| >= 2 && Parent(s, e.inum) == d
            && e.inum in slot && slot[e.inum] == k)
  }

  predicate DirOk(s: Table, slot: map<nat, nat>, d: nat)
    requires Linked(s, d)
  {
    && |s[d].ents| >= 2 && s[d].ents[0] == Dirent(d, ".") && s[d].ents[1].name == ".."
    && Linked(s, Parent(s, d)) && (d == ROOT <==> Parent(s, d) == d)
    && (forall k :: 2 <= k < |s[d].ents| ==> EntOk(s, slot, d, k))
    && (d != ROOT ==>
          d in slot && 2 <= slot[d] < |s[Parent(s, d)].ents| && s[Parent(s, d)].ents[slot[d]].inum == d)
  }

  predicate NoEntries(ents: seq<Dirent>) {
    forall k :: 2 <= k < |ents| ==> ents[k].inum == 0
  }

  /** Within a directory no name is used twice. */
  predicate NamesDiffer(ents: seq<Dirent>) {
    forall j, k :: 0 <= j < k < |ents| && ents[j].inum != 0 && ents[k].inum != 0 ==> ents[j].name != ents[k].name
  }

  /** A directory that was removed keeps its first two entries. */
  predicate DeadOk(s: Table, i: nat)
    requires i < |s|
  {
    && NoEntries(s[i].ents) && |s[i].ents| >= 2
    && s[i].ents[0] == Dirent(i, ".") && s[i].ents[1].name == ".." && 0 < s[i].ents[1].inum < |s|
  }

  ghost predicate InodeOk(s: Table, slot: map<nat, nat>, pend: multiset<nat>, i: nat)
    requires i < |s|
  {
    && (s[i].kind == FREE ==> s[i] == Inode(FREE, 0, []))
    && (s[i].kind == DIR ==> pend[i] == 0 && NamesDiffer(s[i].ents))
    && (s[i].kind == DIR && s[i].nlink <= 0 ==> s[i].nlink == 0 && DeadOk(s, i))
    && (Linked(s, i) ==> DirOk(s, slot, i))
    && (i > 0 ==> s[i].nlink == |Refs(s, i)| + pend[i])
    && (i > 0 && s[i].kind == FREE ==> Refs(s, i) == {} && pend[i] == 0)
  }

  /** The link count of every inode is the number of entries that name it, plus
      the links that `sys_link` has counted but not entered yet. */
  ghost predicate LinksOk(s: Table, slot: map<nat, nat>, pend: multiset<nat>) {
    && 1 < |s| && s[0].kind == FREE && Linked(s, ROOT)
    && forall i :: 0 <= i < |s| ==> InodeOk(s, slot, pend, i)
  }

  // ---- adding and removing an entry

  function PutEnt(s: Table, d: nat, k: nat, e: Dirent): Table
    requires d < |s| && k <= |s[d].ents|
  {
    s[d := s[d].(ents := if k < |s[d].ents| then s[d].ents[k := e] else s[d].ents + [e])]
  }

  /** A link to a file or device: entered in an unused slot, counted before. */
  lemma EnterFile(s: Table, slot: map<nat, nat>, pend: multiset<nat>, d: nat, k: nat, i: nat, name: string)
    requires LinksOk(s, slot, pend) && Linked(s, d) && 2 <= k <= |s[d].ents| && (k < |s[d].ents| ==> s[d].ents[k].inum == 0)
    requires 0 < i < |s| && s[i].kind != FREE && s[i].kind != DIR && pend[i] > 0
    requires name != "." && name != ".." && forall j :: 0 <= j < |s[d].ents| && s[d].ents[j].inum != 0 ==> s[d].ents[j].name != name
    ensures LinksOk(PutEnt(s, d, k, Dirent(i, name)), slot, pend - multiset{i})
  {
    hide Refs;
    var t := PutEnt(s, d, k, Dirent(i, name));
    forall j | 0 < j < |s| ensures Refs(t, j) == if j == i then Refs(s, j) + {(d, k)} else Refs(s, j) {
      RefsAfterPut(s, d, k, Dirent(i, name), j);
      RefsHas(s, j, d, k);
    }
    RefsHas(s, i, d, k);
    forall j | 0 <= j < |t| ensures InodeOk(t, slot, pend - multiset{i}, j) {
      assert InodeOk(s, slot, pend, j);
      if Linked(t, j) {
        PutKeepsDir(s, slot, pend, d, k, Dirent(i, name), j);
      }
    }
  }

  /** Entering a link to something that is no directory leaves the tree as it is. */
  lemma PutKeepsDir(s: Table, slot: map<nat, nat>, pend: multiset<nat>, d: nat, k: nat, e: Dirent, j: nat)
    requires LinksOk(s, slot, pend) && Linked(s, d) && 2 <= k <= |s[d].ents| && (k < |s[d].ents| ==> s[d].ents[k].inum == 0)
    requires 0 < e.inum < |s| && s[e.inum].kind != FREE && s[e.inum].kind != DIR && e.name != "." && e.name != ".."
    requires Linked(s, j)
    ensures DirOk(PutEnt(s, d, k, e), slot, j)
  {
    var t := PutEnt(s, d, k, e);
    assert InodeOk(s, slot, pend, j) && InodeOk(s, slot, pend, d);
    forall x | 2 <= x < |t[j].ents| ensures EntOk(t, slot, j, x) {
      if x < |s[j].ents| && !(j == d && x == k) {
        assert EntOk(s, slot, j, x);
      }
    }
  }

  lemma RefsHas(s: Table, i: nat, d: nat, k: nat)
    ensures (d, k) in Refs(s, i) <==> Names(s, i, d, k)
  {
  }

  lemma RefsAfterPut(s: Table, d: nat, k: nat, e: Dirent, i: nat)
    requires Linked(s, d) && k <= |s[d].ents| && e.name != "." && i > 0
    requires k < |s[d].ents| ==> s[d].ents[k].name != "." || s[d].ents[k].inum == 0
    ensures Refs(PutEnt(s, d, k, e), i) ==
            if e.inum == i then Refs(s, i) + {(d, k)} else Refs(s, i) - {(d, k)}
  {
    var t := PutEnt(s, d, k, e);
    forall x, y ensures Names(t, i, x, y) <==> if x == d && y == k then e.inum == i else Names(s, i, x, y) {
    }
  }

  // ---- the steps of the system calls, on the whole table

  /** `ialloc` of an inode that is no directory, and `nlink = 1`; its link is not entered yet. */
  lemma AllocFile(s: Table, slot: map<nat, nat>, pend: multiset<nat>, i: nat, kind: Kind)
    requires LinksOk(s, slot, pend) && 0 < i < |s| && s[i].kind == FREE && kind != FREE && kind != DIR
    ensures LinksOk(s[i := Inode(kind, 1, [])], slot, pend + multiset{i})
  {
    var t := s[i := Inode(kind, 1, [])];
    NotThere(s, slot, pend, t, i);
    hide Refs;
    forall j | 0 <= j < |t| ensures InodeOk(t, slot, pend + multiset{i}, j) {
      assert InodeOk(s, slot, pend, j) && InodeOk(s, slot, pend, i);
      if Linked(t, j) {
        SameDir(s, slot, pend, t, i, j);
      }
    }
  }

  /** Changing an inode that is in no way a directory changes no links. */
  lemma NotThere(s: Table, slot: map<nat, nat>, pend: multiset<nat>, t: Table, i: nat)
    requires i < |s| == |t| && t == s[i := t[i]] && s[i].kind != DIR && t[i].kind != DIR
    ensures forall j :: Refs(t, j) == Refs(s, j)
  {
    forall j ensures Refs(t, j) == Refs(s, j) {
      forall x, y ensures Names(t, j, x, y) == Names(s, j, x, y) {
      }
    }
  }

  lemma SameDir(s: Table, slot: map<nat, nat>, pend: multiset<nat>, t: Table, i: nat, j: nat)
    requires LinksOk(s, slot, pend) && i < |s| == |t| && t == s[i := t[i]] && s[i].kind != DIR && t[i].kind != DIR && j < |s| && Linked(s, j)
    requires t[i].kind == FREE ==> Refs(s, i) == {}
    ensures DirOk(t, slot, j)
  {
    assert InodeOk(s, slot, pend, j);
    forall k | 2 <= k < |s[j].ents| ensures EntOk(t, slot, j, k) {
      assert EntOk(s, slot, j, k);
      RefsHas(s, i, j, k);
    }
  }

  /** `nlink++` and `nlink--` of `sys_link`: a link that is counted but not entered. */
  lemma CountLink(s: Table, slot: map<nat, nat>, pend: multiset<nat>, i: nat, up: bool)
    requires LinksOk(s, slot, pend) && 0 < i < |s| && s[i].kind != FREE && s[i].kind != DIR && (!up ==> pend[i] > 0)
    ensures LinksOk(s[i := s[i].(nlink := s[i].nlink + if up then 1 else -1)], slot, if up then pend + multiset{i} else pend - multiset{i})
  {
    var t := s[i := s[i].(nlink := s[i].nlink + if up then 1 else -1)];
    var pend' := if up then pend + multiset{i} else pend - multiset{i};
    NotThere(s, slot, pend, t, i);
    hide Refs;
    forall j | 0 <= j < |t| ensures InodeOk(t, slot, pend', j) {
      assert InodeOk(s, slot, pend, j) && InodeOk(s, slot, pend, i);
      if Linked(t, j) {
        SameDir(s, slot, pend, t, i, j);
      }
    }
  }

  /** `iput` of the last reference to an inode without links. */
  lemma FreeInode(s: Table, slot: map<nat, nat>, pend: multiset<nat>, i: nat)
    requires LinksOk(s, slot, pend) && 0 < i < |s| && s[i].kind != FREE && s[i].nlink == 0
    ensures LinksOk(s[i := Inode(FREE, 0, [])], slot, pend)
  {
    var t := s[i := Inode(FREE, 0, [])];
    assert InodeOk(s, slot, pend, i);
    forall j ensures Refs(t, j) == Refs(s, j) {
      forall x, y ensures Names(t, j, x, y) == Names(s, j, x, y) {
      }
    }
    hide Refs;
    forall j | 0 <= j < |t| ensures InodeOk(t, slot, pend, j) {
      assert InodeOk(s, slot, pend, j);
      if Linked(t, j) {
        FreeKeepsDir(s, slot, pend, i, j);
      }
    }
  }

  lemma FreeKeepsDir(s: Table, slot: map<nat, nat>, pend: multiset<nat>, i: nat, j: nat)
    requires LinksOk(s, slot, pend) && 0 < i < |s| && s[i].nlink == 0 && Refs(s, i) == {} && j < |s| && Linked(s, j)
    ensures DirOk(s[i := Inode(FREE, 0, [])], slot, j)
  {
    var t := s[i := Inode(FREE, 0, [])];
    assert InodeOk(s, slot, pend, j);
    forall k | 2 <= k < |s[j].ents| ensures EntOk(t, slot, j, k) {
      assert EntOk(s, slot, j, k);
      RefsHas(s, i, j, k);
    }
  }

  /** What entry `k` of directory `d` names. */
  lemma EntryNames(s: Table, slot: map<nat, nat>, pend: multiset<nat>, d: nat, k: nat)
    requires LinksOk(s, slot, pend) && Linked(s, d) && 2 <= k < |s[d].ents| && s[d].ents[k].inum != 0
    ensures var i := s[d].ents[k].inum;
            && i < |s| && s[i].kind != FREE && s[i].nlink >= 1 && EntOk(s, slot, d, k) && (d, k) in Refs(s, i)
            && s[i].nlink == |Refs(s, i)| + pend[i] && forall j: nat :: (d, k) in Refs(s, j) ==> j == i
  {
    assert InodeOk(s, slot, pend, d);
    assert EntOk(s, slot, d, k);
    var i := s[d].ents[k].inum;
    assert InodeOk(s, slot, pend, i);
    RefsHas(s, i, d, k);
    CardHas(Refs(s, i), (d, k));
  }

  lemma CardHas<T>(x: set<T>, y: T)
    requires y in x
    ensures |x| >= 1 && |x - {y}| == |x| - 1
  {
  }

  /** `unlink` of something that is no directory. */
  lemma RemoveFile(s: Table, slot: map<nat, nat>, pend: multiset<nat>, d: nat, k: nat)
    requires LinksOk(s, slot, pend) && Linked(s, d) && 2 <= k < |s[d].ents|
    requires var i := s[d].ents[k].inum; 0 < i < |s| && s[i].kind != DIR
    ensures var i := s[d].ents[k].inum;
            && s[i].kind != FREE && s[i].nlink >= 1 && i != d
            && LinksOk(s[d := s[d].(ents := s[d].ents[k := Dirent(0, "")])][i := s[i].(nlink := s[i].nlink - 1)], slot, pend)
  {
    hide Refs, NamesDiffer, DirOk;
    EntryNames(s, slot, pend, d, k);
    var i := s[d].ents[k].inum;
    var u := s[d := s[d].(ents := s[d].ents[k := Dirent(0, "")])][i := s[i].(nlink := s[i].nlink - 1)];
    forall j: nat | j > 0 ensures Refs(u, j) == Refs(s, j) - {(d, k)} {
      RefsAfterRemove(s, d, k, i, j);
    }
    forall j | 0 <= j < |u| ensures InodeOk(u, slot, pend, j) {
      assert InodeOk(s, slot, pend, j);
      if s[j].kind == DIR {
        DropsName(s[j].ents, k);
      }
      if Linked(u, j) {
        RemoveKeepsDir(s, slot, pend, d, k, u, i, j);
      }
    }
  }

  lemma DropsName(ents: seq<Dirent>, k: nat)
    requires NamesDiffer(ents)
    ensures k < |ents| ==> NamesDiffer(ents[k := Dirent(0, "")])
  {
  }

  lemma RefsAfterRemove(s: Table, d: nat, k: nat, i: nat, j: nat)
    requires Linked(s, d) && k < |s[d].ents| && i < |s| && s[i].kind != DIR && j > 0
    ensures Refs(s[d := s[d].(ents := s[d].ents[k := Dirent(0, "")])][i := s[i].(nlink := s[i].nlink - 1)], j) == Refs(s, j) - {(d, k)}
  {
    var u := s[d := s[d].(ents := s[d].ents[k := Dirent(0, "")])][i := s[i].(nlink := s[i].nlink - 1)];
    forall x: nat, y: nat ensures Names(u, j, x, y) <==> Names(s, j, x, y) && (x, y) != (d, k) {
    }
  }

  lemma RemoveKeepsDir(s: Table, slot: map<nat, nat>, pend: multiset<nat>, d: nat, k: nat, u: Table, i: nat, j: nat)
    requires LinksOk(s, slot, pend) && Linked(s, d) && 2 <= k < |s[d].ents| && s[d].ents[k].inum == i && 0 < i < |s| && s[i].kind != DIR && s[i].kind != FREE && i != d
    requires u == s[d := s[d].(ents := s[d].ents[k := Dirent(0, "")])][i := s[i].(nlink := s[i].nlink - 1)]
    requires j < |s| && Linked(s, j)
    ensures DirOk(u, slot, j)
  {
    assert InodeOk(s, slot, pend, j);
    forall x | 2 <= x < |u[j].ents| ensures EntOk(u, slot, j, x) {
      assert EntOk(s, slot, j, x);
    }
  }

  // ---- directories

  /** The table after `mkdir` of inode `i` as entry `k` of directory `d`. */
  function MkDir(s: Table, d: nat, k: nat, i: nat, name: string): Table
    requires d < |s| && i < |s| && i != d && k <= |s[d].ents|
  {
    var p := s[d];
    s[i := Inode(DIR, 1, [Dirent(i, "."), Dirent(d, "..")])]
     [d := p.(nlink := p.nlink + 1, ents := if k < |p.ents| then p.ents[k := Dirent(i, name)] else p.ents + [Dirent(i, name)])]
  }

  lemma RefsAfterMkDir(s: Table, d: nat, k: nat, i: nat, name: string, j: nat)
    requires Linked(s, d) && 2 <= k <= |s[d].ents| && (k < |s[d].ents| ==> s[d].ents[k].inum == 0)
    requires 0 < i < |s| && i != d && !Linked(s, i) && name != "." && j > 0
    ensures Refs(MkDir(s, d, k, i, name), j) ==
            Refs(s, j) + (if j == i then {(d, k)} else {}) + (if j == d then {(i, 1)} else {})
  {
    var u := MkDir(s, d, k, i, name);
    forall x: nat, y: nat
      ensures Names(u, j, x, y) <==> Names(s, j, x, y) || (j == i && x == d && y == k) || (j == d && x == i && y == 1)
    {
    }
  }

  lemma EnterDir(s: Table, slot: map<nat, nat>, pend: multiset<nat>, d: nat, k: nat, i: nat, name: string)
    requires LinksOk(s, slot, pend) && Linked(s, d) && 2 <= k <= |s[d].ents| && (k < |s[d].ents| ==> s[d].ents[k].inum == 0)
    requires 0 < i < |s| && s[i].kind == FREE
    requires name != "." && name != ".." && forall j :: 0 <= j < |s[d].ents| && s[d].ents[j].inum != 0 ==> s[d].ents[j].name != name
    ensures i != d && LinksOk(MkDir(s, d, k, i, name), slot[i := k], pend)
  {
    hide Refs, DirOk;
    var u := MkDir(s, d, k, i, name);
    FreeFacts(s, slot, pend, i);
    forall j: nat | 0 < j < |s|
      ensures Refs(u, j) == Refs(s, j) + (if j == i then {(d, k)} else {}) + (if j == d then {(i, 1)} else {})
    {
      RefsAfterMkDir(s, d, k, i, name, j);
    }
    RefsHas(s, d, i, 1);
    var slot' := slot[i := k];
    forall j | 0 <= j < |u| ensures InodeOk(u, slot', pend, j) {
      assert InodeOk(s, slot, pend, j);
      if Linked(u, j) {
        MkKeepsDir(s, slot, pend, d, k, i, name, j);
      }
    }
  }

  lemma FreeFacts(s: Table, slot: map<nat, nat>, pend: multiset<nat>, i: nat)
    requires LinksOk(s, slot, pend) && 0 < i < |s| && s[i].kind == FREE
    ensures pend[i] == 0 && Refs(s, i) == {}
  {
    assert InodeOk(s, slot, pend, i);
  }

  lemma MkKeepsDir(s: Table, slot: map<nat, nat>, pend: multiset<nat>, d: nat, k: nat, i: nat, name: string, j: nat)
    requires LinksOk(s, slot, pend) && Linked(s, d) && 2 <= k <= |s[d].ents| && (k < |s[d].ents| ==> s[d].ents[k].inum == 0)
    requires 0 < i < |s| && i != d && s[i].kind == FREE && name != "." && name != ".." && j < |s| && (j == i || Linked(s, j))
    ensures Linked(MkDir(s, d, k, i, name), j) && DirOk(MkDir(s, d, k, i, name), slot[i := k], j)
  {
    hide NamesDiffer, Refs, EntOk;
    var u := MkDir(s, d, k, i, name);
    assert InodeOk(s, slot, pend, d) && InodeOk(s, slot, pend, j);
    var slot' := slot[i := k];
    forall x | 2 <= x < |u[j].ents| ensures EntOk(u, slot', j, x) {
      MkKeepsEnt(s, slot, pend, d, k, i, name, j, x);
    }
    if j != i && j != ROOT {
      SlotFacts(s, slot, pend, i, j);
    }
  }

  lemma MkKeepsEnt(s: Table, slot: map<nat, nat>, pend: multiset<nat>, d: nat, k: nat, i: nat, name: string, j: nat, x: nat)
    requires LinksOk(s, slot, pend) && Linked(s, d) && 2 <= k <= |s[d].ents| && (k < |s[d].ents| ==> s[d].ents[k].inum == 0)
    requires 0 < i < |s| && i != d && s[i].kind == FREE && name != "." && name != ".." && j < |s| && (j == i || Linked(s, j))
    requires 2 <= x < |MkDir(s, d, k, i, name)[j].ents|
    ensures EntOk(MkDir(s, d, k, i, name), slot[i := k], j, x)
  {
    hide NamesDiffer, Refs;
    if j != i && !(j == d && x == k) {
      FreeFacts(s, slot, pend, i);
      assert InodeOk(s, slot, pend, j);
      assert EntOk(s, slot, j, x);
      RefsHas(s, i, j, x);
    }
  }

  lemma SlotFacts(s: Table, slot: map<nat, nat>, pend: multiset<nat>, i: nat, j: nat)
    requires LinksOk(s, slot, pend) && 0 < i < |s| && s[i].kind == FREE && Linked(s, j) && j != ROOT
    ensures |s[j].ents| >= 2 && Parent(s, j) != i && j != i
  {
    assert InodeOk(s, slot, pend, j);
  }

  /** The table after `unlink` of the empty directory named by entry `k` of `d`. */
  function RmDir(s: Table, d: nat, k: nat): Table
    requires d < |s| && k < |s[d].ents| && s[d].ents[k].inum < |s|
  {
    var i := s[d].ents[k].inum;
    var t := s[d := s[d].(nlink := s[d].nlink - 1, ents := s[d].ents[k := Dirent(0, "")])];
    t[i := t[i].(nlink := t[i].nlink - 1)]
  }

  /** An empty directory in the tree has one link, and its parent one more than it needs. */
  lemma EmptyDirLinks(s: Table, slot: map<nat, nat>, pend: multiset<nat>, d: nat, k: nat)
    requires LinksOk(s, slot, pend) && Linked(s, d) && 2 <= k < |s[d].ents|
    requires var i := s[d].ents[k].inum; 0 < i < |s| && s[i].kind == DIR && NoEntries(s[i].ents)
    ensures var i := s[d].ents[k].inum;
            && i != d && i != ROOT && s[i].nlink == 1 && Refs(s, i) == {(d, k)} && |s[i].ents| >= 2
            && (i, 1) in Refs(s, d) && s[d].nlink >= 2
  {
    hide NamesDiffer;
    var i := s[d].ents[k].inum;
    assert InodeOk(s, slot, pend, d) && InodeOk(s, slot, pend, i) && EntOk(s, slot, d, k);
    assert InodeOk(s, slot, pend, Parent(s, d));
    forall x: nat, y: nat | Names(s, i, x, y) ensures x == d && y == k {
      assert InodeOk(s, slot, pend, x);
      if y >= 2 {
        assert EntOk(s, slot, x, y);
      }
    }
    RefsHas(s, i, d, k);
    assert Refs(s, i) == {(d, k)};
    RefsHas(s, d, i, 1);
    var up := if d == ROOT then (ROOT, 1) else (Parent(s, d), slot[d]);
    assert d != ROOT ==> EntOk(s, slot, Parent(s, d), slot[d]);
    RefsHas(s, d, up.0, up.1);
    TwoIn(Refs(s, d), (i, 1), up);
  }

  lemma TwoIn<T>(x: set<T>, y: T, z: T)
    requires y in x && z in x && y != z
    ensures |x| >= 2
  {
    assert |x - {y}| >= 1;
  }

  lemma RefsAfterRmDir(s: Table, d: nat, k: nat, j: nat)
    requires Linked(s, d) && 2 <= k < |s[d].ents| && s[d].nlink >= 2 && j > 0
    requires var i := s[d].ents[k].inum;
             && 0 < i < |s| && i != d && s[i].kind == DIR && s[i].nlink == 1 && NoEntries(s[i].ents)
             && |s[i].ents| >= 2 && s[i].ents[0].name == "." && s[i].ents[1].inum == d && s[i].ents[1].name == ".."
    ensures Refs(RmDir(s, d, k), j) == Refs(s, j) - {(d, k)} - (if j == d then {(s[d].ents[k].inum, 1)} else {})
  {
    var u := RmDir(s, d, k);
    var i := s[d].ents[k].inum;
    forall x: nat, y: nat
      ensures Names(u, j, x, y) <==> Names(s, j, x, y) && (x, y) != (d, k) && !(j == d && x == i && y == 1)
    {
    }
  }

  /** `unlink` of an empty directory takes exactly its links away. */
  lemma RemoveDir(s: Table, slot: map<nat, nat>, pend: multiset<nat>, d: nat, k: nat)
    requires LinksOk(s, slot, pend) && Linked(s, d) && 2 <= k < |s[d].ents|
    requires var i := s[d].ents[k].inum; 0 < i < |s| && s[i].kind == DIR && NoEntries(s[i].ents)
    ensures LinksOk(RmDir(s, d, k), slot, pend) && Linked(RmDir(s, d, k), d) && RmDir(s, d, k)[s[d].ents[k].inum].nlink == 0
  {
    hide Refs, NamesDiffer, DirOk;
    var i := s[d].ents[k].inum;
    var u := RmDir(s, d, k);
    EmptyDirLinks(s, slot, pend, d, k);
    assert d != 0;
    DirHead(s, slot, pend, d, k);
    forall j | 0 <= j < |u| ensures InodeOk(u, slot, pend, j) {
      if j > 0 {
        RefsAfterRmDir(s, d, k, j);
      }
      RefsHas(s, j, d, k);
      RemovedInode(s, slot, pend, d, k, j);
    }
  }

  lemma RemovedInode(s: Table, slot: map<nat, nat>, pend: multiset<nat>, d: nat, k: nat, j: nat)
    requires LinksOk(s, slot, pend) && Linked(s, d) && 2 <= k < |s[d].ents| && s[d].nlink >= 2 && j < |s|
    requires var i := s[d].ents[k].inum;
             && 0 < i < |s| && i != d && s[i].kind == DIR && s[i].nlink == 1 && NoEntries(s[i].ents)
             && Refs(s, i) == {(d, k)} && (i, 1) in Refs(s, d)
             && (j > 0 ==> Refs(RmDir(s, d, k), j) == Refs(s, j) - {(d, k)} - (if j == d then {(i, 1)} else {}))
             && ((d, k) in Refs(s, j) ==> j == i)
             && |s[i].ents| >= 2 && s[i].ents[0] == Dirent(i, ".") && s[i].ents[1] == Dirent(d, "..")
    ensures InodeOk(RmDir(s, d, k), slot, pend, j)
  {
    hide Refs, NamesDiffer, DirOk;
    DeadAfterRm(s, d, k, j);
    RemovedLinks(s, slot, pend, d, k, j);
    hide DeadOk;
    var u := RmDir(s, d, k);
    assert InodeOk(s, slot, pend, j);
    if s[j].kind == DIR {
      DropsName(s[j].ents, k);
    }
    if Linked(u, j) {
      RmKeepsDir(s, slot, pend, d, k, j);
    }
  }

  lemma RemovedLinks(s: Table, slot: map<nat, nat>, pend: multiset<nat>, d: nat, k: nat, j: nat)
    requires LinksOk(s, slot, pend) && Linked(s, d) && 2 <= k < |s[d].ents| && s[d].nlink >= 2 && j < |s|
    requires var i := s[d].ents[k].inum;
             && 0 < i < |s| && i != d && s[i].kind == DIR && s[i].nlink == 1
             && Refs(s, i) == {(d, k)} && (i, 1) in Refs(s, d)
             && (j > 0 ==> Refs(RmDir(s, d, k), j) == Refs(s, j) - {(d, k)} - (if j == d then {(i, 1)} else {}))
             && ((d, k) in Refs(s, j) ==> j == i)
    ensures j > 0 ==> RmDir(s, d, k)[j].nlink == |Refs(RmDir(s, d, k), j)| + pend[j]
    ensures j > 0 && s[j].kind == FREE ==> Refs(RmDir(s, d, k), j) == {} && pend[j] == 0
  {
    hide Refs, NamesDiffer, DirOk, DeadOk;
    var i := s[d].ents[k].inum;
    var u := RmDir(s, d, k);
    assert InodeOk(s, slot, pend, j);
    CardHas(Refs(s, d), (i, 1));
    assert j > 0 && j != d && j != i ==> Refs(u, j) == Refs(s, j);
    assert j == d ==> Refs(u, j) == Refs(s, j) - {(i, 1)};
    assert j == i ==> Refs(u, j) == {};
  }

  lemma DeadAfterRm(s: Table, d: nat, k: nat, j: nat)
    requires Linked(s, d) && 2 <= k < |s[d].ents| && j < |s| && d > 0
    requires var i := s[d].ents[k].inum;
             && 0 < i < |s| && i != d && NoEntries(s[i].ents)
             && |s[i].ents| >= 2 && s[i].ents[0] == Dirent(i, ".") && s[i].ents[1] == Dirent(d, "..")
    ensures j == s[d].ents[k].inum ==> DeadOk(RmDir(s, d, k), j)
    ensures j != s[d].ents[k].inum && j != d && DeadOk(s, j) ==> DeadOk(RmDir(s, d, k), j)
  {
  }

  lemma DirHead(s: Table, slot: map<nat, nat>, pend: multiset<nat>, d: nat, k: nat)
    requires LinksOk(s, slot, pend) && Linked(s, d) && 2 <= k < |s[d].ents|
    requires var i := s[d].ents[k].inum; 0 < i < |s| && s[i].kind == DIR
    ensures var i := s[d].ents[k].inum;
            |s[i].ents| >= 2 && s[i].ents[0] == Dirent(i, ".") && s[i].ents[1] == Dirent(d, "..")
  {
    assert InodeOk(s, slot, pend, d) && EntOk(s, slot, d, k);
    assert InodeOk(s, slot, pend, s[d].ents[k].inum);
  }

  lemma RmKeepsDir(s: Table, slot: map<nat, nat>, pend: multiset<nat>, d: nat, k: nat, j: nat)
    requires LinksOk(s, slot, pend) && Linked(s, d) && 2 <= k < |s[d].ents| && s[d].nlink >= 2
    requires var i := s[d].ents[k].inum; 0 < i < |s| && i != d && s[i].kind == DIR && s[i].nlink == 1 && NoEntries(s[i].ents) && j != i
    requires Linked(s, j)
    ensures DirOk(RmDir(s, d, k), slot, j)
  {
    hide NamesDiffer, Refs;
    var u := RmDir(s, d, k);
    var i := s[d].ents[k].inum;
    assert InodeOk(s, slot, pend, j) && InodeOk(s, slot, pend, d) && EntOk(s, slot, d, k) && InodeOk(s, slot, pend, i);
    forall x | 2 <= x < |u[j].ents| ensures EntOk(u, slot, j, x) {
      assert EntOk(s, slot, j, x);
    }
  }

  ghost predicate SomeLinksOk(s: Table, pend: multiset<nat>) {
    exists slot :: LinksOk(s, slot, pend)
  }

  /** Creating a file or device as entry `k` of `d` keeps the link counts right
      exactly when `d` is still in the tree: `create` does not look at the link
      count of its directory, so an entry in an unlinked directory is counted but
      is no link. */
  lemma CreateKeepsIff(s: Table, slot: map<nat, nat>, pend: multiset<nat>, d: nat, k: nat, i: nat, kind: Kind, name: string)
    requires LinksOk(s, slot, pend) && d < |s| && s[d].kind == DIR && 2 <= k <= |s[d].ents| && (k < |s[d].ents| ==> s[d].ents[k].inum == 0)
    requires 0 < i < |s| && s[i].kind == FREE && kind != FREE && kind != DIR && name != "." && name != ".."
    requires forall j :: 0 <= j < |s[d].ents| && s[d].ents[j].inum != 0 ==> s[d].ents[j].name != name
    ensures SomeLinksOk(PutEnt(s[i := Inode(kind, 1, [])], d, k, Dirent(i, name)), pend) <==> Linked(s, d)
  {
    hide Refs;
    AllocFile(s, slot, pend, i, kind);
    var t := s[i := Inode(kind, 1, [])];
    LinkKeepsIff(t, slot, pend + multiset{i}, d, k, i, name);
    assert pend + multiset{i} - multiset{i} == pend;
  }

  /** So does entering the link that `sys_link` has counted. */
  lemma LinkKeepsIff(s: Table, slot: map<nat, nat>, pend: multiset<nat>, d: nat, k: nat, i: nat, name: string)
    requires LinksOk(s, slot, pend) && d < |s| && s[d].kind == DIR && 2 <= k <= |s[d].ents| && (k < |s[d].ents| ==> s[d].ents[k].inum == 0)
    requires 0 < i < |s| && s[i].kind != FREE && s[i].kind != DIR && pend[i] > 0 && name != "." && name != ".."
    requires forall j :: 0 <= j < |s[d].ents| && s[d].ents[j].inum != 0 ==> s[d].ents[j].name != name
    ensures SomeLinksOk(PutEnt(s, d, k, Dirent(i, name)), pend - multiset{i}) <==> Linked(s, d)
  {
    hide Refs;
    var u := PutEnt(s, d, k, Dirent(i, name));
    if Linked(s, d) {
      EnterFile(s, slot, pend, d, k, i, name);
    } else {
      DeadRefs(s, d, k, Dirent(i, name), i);
      assert InodeOk(s, slot, pend, i);
      forall slot' ensures !LinksOk(u, slot', pend - multiset{i}) {
        assert !InodeOk(u, slot', pend - multiset{i}, i);
      }
    }
  }

  /** And mkdir: in an unlinked directory it makes the parent look linked, though
      no entry names it. */
  lemma MkdirKeepsIff(s: Table, slot: map<nat, nat>, pend: multiset<nat>, d: nat, k: nat, i: nat, name: string)
    requires LinksOk(s, slot, pend) && d < |s| && s[d].kind == DIR && 2 <= k <= |s[d].ents| && (k < |s[d].ents| ==> s[d].ents[k].inum == 0)
    requires 0 < i < |s| && s[i].kind == FREE && name != "." && name != ".."
    requires forall j :: 0 <= j < |s[d].ents| && s[d].ents[j].inum != 0 ==> s[d].ents[j].name != name
    ensures i != d && (SomeLinksOk(MkDir(s, d, k, i, name), pend) <==> Linked(s, d))
  {
    hide Refs, NamesDiffer, DirOk;
    var u := MkDir(s, d, k, i, name);
    if Linked(s, d) {
      EnterDir(s, slot, pend, d, k, i, name);
    } else {
      forall slot' ensures !LinksOk(u, slot', pend) {
        if LinksOk(u, slot', pend) {
          assert InodeOk(s, slot, pend, d) && InodeOk(u, slot', pend, d);
          var p := NamedBy(u, slot', pend, d);
          RefsHas(s, d, p, slot'[d]);
        }
      }
    }
  }

  /** A directory of the tree other than the root is named by an entry of its parent. */
  lemma NamedBy(s: Table, slot: map<nat, nat>, pend: multiset<nat>, d: nat) returns (p: nat)
    requires LinksOk(s, slot, pend) && Linked(s, d) && d != ROOT
    ensures p != d && Linked(s, p) && d in slot && 2 <= slot[d] < |s[p].ents| && Names(s, d, p, slot[d])
  {
    hide Refs, NamesDiffer;
    assert InodeOk(s, slot, pend, d);
    p := Parent(s, d);
    assert InodeOk(s, slot, pend, p) && EntOk(s, slot, p, slot[d]);
  }

  /** A directory that was removed while a process works in it, and what creating a file there does. */
  lemma DeadParent()
    ensures var s := [Inode(FREE, 0, []), Inode(DIR, 1, [Dirent(1, "."), Dirent(1, "..")]),
                      Inode(DIR, 0, [Dirent(2, "."), Dirent(1, "..")]), Inode(FREE, 0, [])];
            && LinksOk(s, map[], multiset{})
            && !SomeLinksOk(PutEnt(s[3 := Inode(FILE, 1, [])], 2, 2, Dirent(3, "f")), multiset{})
            && !SomeLinksOk(MkDir(s, 2, 2, 3, "f"), multiset{})
  {
    var s := [Inode(FREE, 0, []), Inode(DIR, 1, [Dirent(1, "."), Dirent(1, "..")]),
              Inode(DIR, 0, [Dirent(2, "."), Dirent(1, "..")]), Inode(FREE, 0, [])];
    forall i: nat | 0 < i < 4 ensures Refs(s, i) == if i == 1 then {(1, 1)} else {} {
      forall d: nat, k: nat ensures Names(s, i, d, k) <==> i == 1 && d == 1 && k == 1 {
      }
    }
    forall i | 0 <= i < 4 ensures InodeOk(s, map[], multiset{}, i) {
    }
    CreateKeepsIff(s, map[], multiset{}, 2, 2, 3, FILE, "f");
    MkdirKeepsIff(s, map[], multiset{}, 2, 2, 3, "f");
  }

  lemma DeadRefs(s: Table, d: nat, k: nat, e: Dirent, i: nat)
    requires d < |s| && !Linked(s, d) && k <= |s[d].ents|
    ensures Refs(PutEnt(s, d, k, e), i) == Refs(s, i)
  {
    var t := PutEnt(s, d, k, e);
    forall x: nat, y: nat ensures Names(t, i, x, y) == Names(s, i, x, y) {
    }
  }

  // ---- the tree that mkfs makes

  /** The root directory with its entries, `pad` of them unused, and its files. */
  function ImageTree(n: nat, names: seq<string>, pad: nat): Table {
    seq(n, i => if i == ROOT then Inode(DIR, 1, RootEntries(names, pad))
                else if 2 <= i < 2 + |names| then Inode(FILE, 1, []) else Inode(FREE, 0, []))
  }

  function RootEntries(names: seq<string>, pad: nat): (e: seq<Dirent>)
    ensures |e| == 2 + |names| + pad && e[0] == Dirent(ROOT, ".") && e[1] == Dirent(ROOT, "..")
    ensures forall k :: 2 <= k < |e| ==> e[k] == if k < 2 + |names| then Dirent(k, names[k - 2]) else Dirent(0, "")
  {
    [Dirent(ROOT, "."), Dirent(ROOT, "..")] + seq(|names|, k requires 0 <= k < |names| => Dirent(2 + k, names[k])) + seq(pad, k => Dirent(0, ""))
  }

  /** Its link counts, one for every inode, are right exactly when the files have
      distinct names other than "." and "..". */
  lemma ImageTreeIff(n: nat, names: seq<string>, pad: nat)
    requires |names| + 2 <= n
    ensures SomeLinksOk(ImageTree(n, names, pad), multiset{}) <==>
              (forall j, k :: 0 <= j < k < |names| ==> names[j] != names[k]) && "." !in names && ".." !in names
  {
    var s := ImageTree(n, names, pad);
    var ents := RootEntries(names, pad);
    forall i: nat | 0 < i < n ensures Refs(s, i) == if i == ROOT then {(ROOT, 1)} else if i < 2 + |names| && names[i - 2] != "." then {(ROOT, i)} else {} {
      forall d: nat, k: nat
        ensures Names(s, i, d, k) <==> d == ROOT && ((i == ROOT && k == 1) || (k == i && 2 <= i < 2 + |names| && names[i - 2] != "."))
      {
      }
    }
    hide Refs, ImageTree, RootEntries;
    if (forall j, k :: 0 <= j < k < |names| ==> names[j] != names[k]) && "." !in names && ".." !in names {
      assert NamesDiffer(ents);
      forall i | 0 <= i < n ensures InodeOk(s, map[], multiset{}, i) {
      }
      assert LinksOk(s, map[], multiset{});
    }
    forall slot | LinksOk(s, slot, multiset{})
      ensures (forall j, k :: 0 <= j < k < |names| ==> names[j] != names[k]) && "." !in names && ".." !in names
    {
      assert InodeOk(s, slot, multiset{}, ROOT);
      forall j, k | 0 <= j < k < |names| ensures names[j] != names[k] {
        assert ents[j + 2].name != ents[k + 2].name;
      }
      forall j | 0 <= j < |names| ensures names[j] != "." && names[j] != ".." {
        assert ents[0].name != ents[j + 2].name && ents[1].name != ents[j + 2].name;
      }
    }
  }
}
