/** The queue that kernel/virtio_disk.c shares with a block device: descriptors,
    the available and the used ring with their 16-bit indices, and a device that
    serves the heads it was given in any order, each once. */
module Virtqueue {
  import opened DistinctElements

  const NUM: nat := 8
  const U16: nat := 0x1_0000

  /** What a descriptor points to. */
  datatype Addr = Null | Header(op: nat) | Data(buf: nat) | Status(info: nat)

  datatype Desc = Desc(addr: Addr, len: nat, write: bool, hasNext: bool, next: nat)

  const NoDesc := Desc(Null, 0, false, false, 0)

  datatype Opt<T> = None | Some(v: T)

  /** `info[id]`; the device sets `status` to 0. */
  datatype Info = Info(b: Opt<nat>, status: nat)

  datatype Op = Op(write: bool, sector: nat)

  /** Where a request is: in the available ring, with the device, in the used
      ring, or finished while its thread has yet to free the chain. */
  datatype Stage = Offered | Taken | Done | Seen

  /** A request in flight, by its head descriptor; `d1` and `d2` follow the head. */
  datatype Flight = Flight(buf: nat, d1: nat, d2: nat, st: Stage)

  /** The driver's and the device's view of the queue. The counters are the
      unbounded versions of the indices. */
  datatype Q = Q(desc: seq<Desc>, free: seq<bool>, avail: seq<nat>, used: seq<nat>, info: seq<Info>, ops: seq<Op>,
                 busy: set<nat>, taken: nat, seen: nat)

  predicate Shape(q: Q) {
    && |q.desc| == |q.free| == |q.avail| == |q.used| == |q.info| == |q.ops| == NUM
  }

  function Chain(h: nat, f: Flight): set<nat> {
    {h, f.d1, f.d2}
  }

  /** The request at head `h` stands in the descriptors as the device expects it. */
  predicate FlightOk(q: Q, h: nat, f: Flight)
    requires Shape(q)
  {
    && h < NUM && f.d1 < NUM && f.d2 < NUM && h != f.d1 && h != f.d2 && f.d1 != f.d2
    && q.desc[h] == Desc(Header(h), 16, false, true, f.d1)
    && q.desc[f.d1] == Desc(Data(f.buf), 1024, !q.ops[h].write, true, f.d2)
    && q.desc[f.d2] == Desc(Status(h), 1, true, false, 0)
    && q.info[h].b == Some(f.buf)
    && (f.st == Done || f.st == Seen ==> q.info[h].status == 0)
    && (f.buf in q.busy <==> f.st != Seen)
  }

  /** Free descriptors and chains partition the table: each descriptor that is
      not free belongs to exactly one request. */
  ghost predicate Partition(q: Q, fl: map<nat, Flight>, own: map<nat, nat>)
    requires Shape(q)
  {
    && (forall i :: 0 <= i < NUM ==> (q.free[i] <==> i !in own))
    && (forall i :: i in own ==> i < NUM && own[i] in fl && i in Chain(own[i], fl[own[i]]))
    && (forall h :: h in fl ==> h in own && own[h] == h && fl[h].d1 in own && own[fl[h].d1] == h && fl[h].d2 in own && own[fl[h].d2] == h)
  }

  /** Consecutive ring slots from counter `from` on hold the heads in `s`. */
  predicate InRing(ring: seq<nat>, from: nat, s: seq<nat>)
    requires |ring| == NUM
  {
    forall j :: 0 <= j < |s| ==> ring[(from + j) % NUM] == s[j]
  }

  ghost predicate Lists(fl: map<nat, Flight>, s: seq<nat>, st: Stage) {
    Distinct(s) && (forall j :: 0 <= j < |s| ==> s[j] in fl && fl[s[j]].st == st) && forall h :: h in fl && fl[h].st == st ==> h in s
  }

  ghost predicate BufsDiffer(fl: map<nat, Flight>) {
    forall h, k :: h in fl && k in fl && h != k ==> fl[h].buf != fl[k].buf
  }

  ghost predicate Ok(q: Q, fl: map<nat, Flight>, own: map<nat, nat>, offered: seq<nat>, done: seq<nat>) {
    && Shape(q) && Partition(q, fl, own) && BufsDiffer(fl)
    && (forall h :: h in fl ==> FlightOk(q, h, fl[h]))
    && Lists(fl, offered, Offered) && Lists(fl, done, Done)
    && InRing(q.avail, q.taken, offered) && InRing(q.used, q.seen, done)
  }

  /** A ring slot behind those in use is none of them. */
  lemma NewSlot(from: nat, n: nat, j: nat)
    requires j < n < NUM
    ensures (from + j) % NUM != (from + n) % NUM
  {
    var a, d := from + j, n - j;
    var r := a % NUM;
    assert a == a / NUM * NUM + r;
    if r + d < NUM {
      assert a + d == a / NUM * NUM + (r + d);
      assert (a + d) % NUM == r + d;
    } else {
      assert a + d == (a / NUM + 1) * NUM + (r + d - NUM);
      assert (a + d) % NUM == r + d - NUM;
    }
  }

  lemma SlotBits(a: nat)
    ensures a % U16 % NUM == a % NUM
  {
    var q, r := a / U16, a % U16;
    assert a == (q * 0x2000) * NUM + r;
    SlotShift(q * 0x2000, r);
  }

  lemma SlotShift(m: nat, r: nat)
    ensures (m * NUM + r) % NUM == r % NUM
    decreases m
  {
    if m > 0 {
      SlotShift(m - 1, r);
      assert m * NUM + r == (m - 1) * NUM + r + NUM;
    }
  }

  lemma NextIndex(a: nat)
    ensures (a % U16 + 1) % U16 == (a + 1) % U16
  {
    var q, r := a / U16, a % U16;
    assert a + 1 == q * U16 + (r + 1);
  }

  lemma SameIndex(a: nat, b: nat)
    requires a <= b <= a + NUM
    ensures a % U16 == b % U16 <==> a == b
  {
    var q, r := a / U16, a % U16;
    assert a == q * U16 + r;
    assert b == q * U16 + (r + (b - a));
    if a < b && r + (b - a) >= U16 {
      assert b == (q + 1) * U16 + (r + (b - a) - U16);
    }
  }

  /** The 16-bit indices tell ring slots and an empty ring exactly. */
  lemma IndexBits(a: nat, b: nat)
    requires a <= b <= a + NUM
    ensures a % U16 % NUM == a % NUM
    ensures a % U16 == b % U16 <==> a == b
    ensures (a % U16 + 1) % U16 == (a + 1) % U16
  {
    SlotBits(a);
    NextIndex(a);
    SameIndex(a, b);
  }

  // ---- requests

  /** The three descriptors of a request are formatted, and the buffer is marked busy. */
  function Formatted(q: Q, b: nat, sector: nat, write: bool, h: nat, d1: nat, d2: nat): Q
    requires Shape(q) && h < NUM && d1 < NUM && d2 < NUM
  {
    q.(ops := q.ops[h := Op(write, sector)],
       desc := q.desc[h := Desc(Header(h), 16, false, true, d1)]
                     [d1 := Desc(Data(b), 1024, !write, true, d2)]
                     [d2 := Desc(Status(h), 1, true, false, 0)],
       info := q.info[h := Info(Some(b), 0xff)],
       busy := q.busy + {b})
  }

  /** A new request: its descriptors are taken and formatted, and its head is offered. */
  function Submitted(q: Q, b: nat, sector: nat, write: bool, h: nat, d1: nat, d2: nat, n: nat): Q
    requires Shape(q) && h < NUM && d1 < NUM && d2 < NUM
  {
    var r := Formatted(q.(free := q.free[h := false][d1 := false][d2 := false]), b, sector, write, h, d1, d2);
    r.(avail := r.avail[n % NUM := h])
  }

  /** The requests keep their descriptors. */
  predicate SameChains(fl: map<nat, Flight>, fl': map<nat, Flight>) {
    fl'.Keys == fl.Keys && forall h :: h in fl ==> fl'[h] == fl[h].(st := fl'[h].st)
  }

  lemma PartitionKept(q: Q, q': Q, fl: map<nat, Flight>, fl': map<nat, Flight>, own: map<nat, nat>)
    requires Shape(q) && Shape(q') && Partition(q, fl, own) && q'.free == q.free && SameChains(fl, fl')
    ensures Partition(q', fl', own)
  {
  }

  lemma BufsKept(fl: map<nat, Flight>, fl': map<nat, Flight>)
    requires BufsDiffer(fl) && SameChains(fl, fl')
    ensures BufsDiffer(fl')
  {
  }

  /** Request `h` goes on from stage `st`, where it is the first in line or unlisted. */
  lemma Leaves(fl: map<nat, Flight>, s: seq<nat>, h: nat, st: Stage)
    requires s != [] && h == s[0] && h in fl && Lists(fl, s, fl[h].st) && st != fl[h].st
    ensures Lists(fl[h := fl[h].(st := st)], s[1..], fl[h].st)
  {
    var fl' := fl[h := fl[h].(st := st)];
    assert forall k :: 0 <= k < |s[1..]| ==> s[1..][k] == s[k + 1];
    forall k | k in fl' && fl'[k].st == fl[h].st ensures k in s[1..] {
      assert k in s;
    }
  }

  lemma Joins(fl: map<nat, Flight>, s: seq<nat>, h: nat, st: Stage, f: Flight)
    requires Lists(fl, s, st) && f.st == st && h !in s
    ensures Lists(fl[h := f], s + [h], st)
  {
    var fl' := fl[h := f];
    forall k | k in fl' && fl'[k].st == st ensures k in s + [h] {
      assert k != h ==> k in s;
    }
  }

  lemma Apart(fl: map<nat, Flight>, s: seq<nat>, h: nat, st: Stage, f: Flight)
    requires Lists(fl, s, st) && f.st != st && (h in fl ==> fl[h].st != st)
    ensures Lists(fl[h := f], s, st) && h !in s
  {
  }

  lemma Listed(q: Q, fl: map<nat, Flight>, s: seq<nat>, st: Stage, h: nat)
    requires Shape(q) && Lists(fl, s, st) && (forall k :: k in fl ==> FlightOk(q, k, fl[k])) && h < NUM && h !in s
    ensures |s| < NUM
  {
    hide FlightOk;
    assert Distinct(s + [h]);
    forall j | 0 <= j < |s + [h]| ensures (s + [h])[j] < NUM {
      if j < |s| {
        HeadBound(q, s[j], fl[s[j]]);
      }
    }
    FewBelow(s + [h], NUM);
  }

  lemma HeadBound(q: Q, h: nat, f: Flight)
    requires Shape(q) && FlightOk(q, h, f)
    ensures h < NUM
  {
  }

  /** What happens elsewhere leaves a request as it stands. */
  lemma FlightKept(q: Q, q': Q, h: nat, f: Flight)
    requires Shape(q) && Shape(q') && FlightOk(q, h, f)
    requires q'.desc[h] == q.desc[h] && q'.desc[f.d1] == q.desc[f.d1] && q'.desc[f.d2] == q.desc[f.d2]
    requires q'.info[h] == q.info[h] && q'.ops[h] == q.ops[h] && (f.buf in q'.busy <==> f.buf in q.busy)
    ensures FlightOk(q', h, f)
  {
  }

  lemma Inside(q: Q, h: nat, f: Flight)
    requires Shape(q) && FlightOk(q, h, f)
    ensures h < NUM && f.d1 < NUM && f.d2 < NUM && h != f.d1 && h != f.d2 && f.d1 != f.d2
    ensures f.buf in q.busy <==> f.st != Seen
    ensures q.info[h].b == Some(f.buf) && (f.st == Done || f.st == Seen ==> q.info[h].status == 0)
  {
  }

  lemma SubmitOk(q: Q, fl: map<nat, Flight>, own: map<nat, nat>, offered: seq<nat>, done: seq<nat>, b: nat, sector: nat, write: bool, h: nat, d1: nat, d2: nat)
    requires Ok(q, fl, own, offered, done) && h < NUM && d1 < NUM && d2 < NUM && h != d1 && h != d2 && d1 != d2
    requires q.free[h] && q.free[d1] && q.free[d2] && b !in q.busy && forall k :: k in fl ==> fl[k].buf != b
    ensures |offered| < NUM
    ensures Ok(Submitted(q, b, sector, write, h, d1, d2, q.taken + |offered|), fl[h := Flight(b, d1, d2, Offered)],
               own[h := h][d1 := h][d2 := h], offered + [h], done)
  {
    hide InRing, Lists, FlightOk, Partition;
    var q' := Submitted(q, b, sector, write, h, d1, d2, q.taken + |offered|);
    var f := Flight(b, d1, d2, Offered);
    NotFlying(q, fl, own, h);
    NewInList(fl, offered, h);
    Listed(q, fl, offered, Offered, h);
    RingAdds(q.avail, q.taken, offered, h);
    Joins(fl, offered, h, Offered, f);
    Apart(fl, done, h, Done, f);
    OthersFly(q, q', fl, own, f, h, sector, write, q.taken + |offered|);
    NewFlight(q, q', h, f, write, sector);
    NewPartition(q, q', fl, own, h, f);
  }

  lemma NotFlying(q: Q, fl: map<nat, Flight>, own: map<nat, nat>, h: nat)
    requires Shape(q) && Partition(q, fl, own) && h < NUM && q.free[h]
    ensures h !in fl
  {
  }

  /** Formatting free descriptors leaves the other requests as they are. */
  lemma OthersFly(q: Q, q': Q, fl: map<nat, Flight>, own: map<nat, nat>, f: Flight, h: nat, sector: nat, write: bool, n: nat)
    requires Shape(q) && Partition(q, fl, own) && (forall k :: k in fl ==> FlightOk(q, k, fl[k]) && fl[k].buf != f.buf)
    requires h < NUM && f.d1 < NUM && f.d2 < NUM && q.free[h] && q.free[f.d1] && q.free[f.d2]
    requires q' == Submitted(q, f.buf, sector, write, h, f.d1, f.d2, n)
    ensures Shape(q') && forall k :: k in fl ==> FlightOk(q', k, fl[k])
  {
    hide FlightOk;
    forall k | k in fl ensures FlightOk(q', k, fl[k]) {
      Inside(q, k, fl[k]);
      assert fl[k].d1 in own && fl[k].d2 in own && k in own;
      FlightKept(q, q', k, fl[k]);
    }
  }

  lemma NewInList(fl: map<nat, Flight>, s: seq<nat>, h: nat)
    requires Lists(fl, s, Offered) && h !in fl
    ensures h !in s
  {
  }

  lemma NewFlight(q: Q, q': Q, h: nat, f: Flight, write: bool, sector: nat)
    requires Shape(q) && h < NUM && f.d1 < NUM && f.d2 < NUM && h != f.d1 && h != f.d2 && f.d1 != f.d2 && f.st == Offered
    requires exists n: nat :: q' == Submitted(q, f.buf, sector, write, h, f.d1, f.d2, n)
    ensures Shape(q') && FlightOk(q', h, f)
  {
  }

  lemma NewPartition(q: Q, q': Q, fl: map<nat, Flight>, own: map<nat, nat>, h: nat, f: Flight)
    requires Shape(q) && Shape(q') && Partition(q, fl, own) && h < NUM && f.d1 < NUM && f.d2 < NUM && h != f.d1 && h != f.d2 && f.d1 != f.d2
    requires q.free[h] && q.free[f.d1] && q.free[f.d2] && q'.free == q.free[h := false][f.d1 := false][f.d2 := false]
    ensures Partition(q', fl[h := f], own[h := h][f.d1 := h][f.d2 := h])
  {
  }

  lemma RingAdds(ring: seq<nat>, from: nat, s: seq<nat>, h: nat)
    requires |ring| == NUM && |s| < NUM && InRing(ring, from, s)
    ensures InRing(ring[(from + |s|) % NUM := h], from, s + [h])
  {
    forall j | 0 <= j < |s| ensures ring[(from + |s|) % NUM := h][(from + j) % NUM] == s[j] {
      NewSlot(from, |s|, j);
    }
  }

  lemma RingDrops(ring: seq<nat>, from: nat, s: seq<nat>)
    requires |ring| == NUM && s != [] && InRing(ring, from, s)
    ensures ring[from % NUM] == s[0] && InRing(ring, from + 1, s[1..])
  {
    forall j | 0 <= j < |s[1..]| ensures ring[(from + 1 + j) % NUM] == s[1..][j] {
      assert ring[(from + (j + 1)) % NUM] == s[j + 1];
    }
    assert ring[(from + 0) % NUM] == s[0];
  }

  /** The device takes the next head. */
  lemma TakeOk(q: Q, fl: map<nat, Flight>, own: map<nat, nat>, offered: seq<nat>, done: seq<nat>)
    requires Ok(q, fl, own, offered, done) && offered != []
    ensures var h := offered[0];
            && h in fl && q.avail[q.taken % NUM] == h && fl[h].st == Offered
            && Ok(q.(taken := q.taken + 1), fl[h := fl[h].(st := Taken)], own, offered[1..], done)
  {
    hide InRing, FlightOk, Partition, BufsDiffer, Lists;
    var h := offered[0];
    FirstIn(fl, offered, Offered);
    var q', fl' := q.(taken := q.taken + 1), fl[h := fl[h].(st := Taken)];
    RingDrops(q.avail, q.taken, offered);
    Leaves(fl, offered, h, Taken);
    Apart(fl, done, h, Done, fl[h].(st := Taken));
    PartitionKept(q, q', fl, fl', own);
    BufsKept(fl, fl');
    forall k | k in fl' ensures FlightOk(q', k, fl'[k]) {
      StageMoves(q, q', k, fl[k], fl'[k]);
    }
  }

  lemma FirstIn(fl: map<nat, Flight>, s: seq<nat>, st: Stage)
    requires Lists(fl, s, st) && s != []
    ensures s[0] in fl && fl[s[0]].st == st
  {
  }

  lemma StageMoves(q: Q, q': Q, h: nat, f: Flight, f': Flight)
    requires Shape(q) && Shape(q') && FlightOk(q, h, f) && q'.desc == q.desc && q'.info == q.info && q'.ops == q.ops && q'.busy == q.busy
    requires f' == f || (f' == f.(st := Taken) && f.st == Offered)
    ensures FlightOk(q', h, f')
  {
  }

  /** The device finishes a request that it took: it writes the status, and the head into the used ring. */
  lemma FinishOk(q: Q, fl: map<nat, Flight>, own: map<nat, nat>, offered: seq<nat>, done: seq<nat>, h: nat)
    requires Ok(q, fl, own, offered, done) && h in fl && fl[h].st == Taken
    ensures h < NUM && |done| < NUM
    ensures Ok(q.(info := q.info[h := q.info[h].(status := 0)], used := q.used[(q.seen + |done|) % NUM := h]),
               fl[h := fl[h].(st := Done)], own, offered, done + [h])
  {
    hide InRing, FlightOk, Partition, BufsDiffer, Lists;
    Inside(q, h, fl[h]);
    var f' := fl[h].(st := Done);
    var fl' := fl[h := f'];
    Unlisted(fl, done, Done, h);
    Listed(q, fl, done, Done, h);
    RingAdds(q.used, q.seen, done, h);
    Joins(fl, done, h, Done, f');
    Apart(fl, offered, h, Offered, f');
    var q' := q.(info := q.info[h := q.info[h].(status := 0)], used := q.used[(q.seen + |done|) % NUM := h]);
    PartitionKept(q, q', fl, fl', own);
    BufsKept(fl, fl');
    forall k | k in fl' ensures FlightOk(q', k, fl'[k]) {
      if k == h {
        StatusWritten(q, q', h, fl[h]);
      } else {
        Inside(q, k, fl[k]);
        FlightKept(q, q', k, fl[k]);
      }
    }
  }

  lemma Unlisted(fl: map<nat, Flight>, s: seq<nat>, st: Stage, h: nat)
    requires Lists(fl, s, st) && (h in fl ==> fl[h].st != st)
    ensures h !in s
  {
  }

  lemma StatusWritten(q: Q, q': Q, h: nat, f: Flight)
    requires Shape(q) && Shape(q') && FlightOk(q, h, f) && f.st == Taken && q'.desc == q.desc && q'.ops == q.ops && q'.busy == q.busy
    requires q'.info[h] == q.info[h].(status := 0)
    ensures FlightOk(q', h, f.(st := Done))
  {
  }

  /** The interrupt handler sees the next used entry and releases its buffer. */
  lemma SeeOk(q: Q, fl: map<nat, Flight>, own: map<nat, nat>, offered: seq<nat>, done: seq<nat>)
    requires Ok(q, fl, own, offered, done) && done != []
    ensures var h := done[0];
            && h in fl && fl[h].st == Done && h < NUM && q.used[q.seen % NUM] == h && q.info[h] == Info(Some(fl[h].buf), 0) && fl[h].buf in q.busy
            && Ok(q.(seen := q.seen + 1, busy := q.busy - {fl[h].buf}), fl[h := fl[h].(st := Seen)], own, offered, done[1..])
  {
    hide InRing, FlightOk, Partition, Lists;
    var h := done[0];
    FirstIn(fl, done, Done);
    Inside(q, h, fl[h]);
    var q', fl' := q.(seen := q.seen + 1, busy := q.busy - {fl[h].buf}), fl[h := fl[h].(st := Seen)];
    RingDrops(q.used, q.seen, done);
    Leaves(fl, done, h, Seen);
    Apart(fl, offered, h, Offered, fl[h].(st := Seen));
    PartitionKept(q, q', fl, fl', own);
    BufsKept(fl, fl');
    forall k | k in fl' ensures FlightOk(q', k, fl'[k]) {
      if k == h {
        BufferReleased(q, q', h, fl[h]);
      } else {
        Inside(q, k, fl[k]);
        assert fl[k].buf != fl[h].buf;
        FlightKept(q, q', k, fl[k]);
      }
    }
  }

  lemma BufferReleased(q: Q, q': Q, h: nat, f: Flight)
    requires Shape(q) && Shape(q') && FlightOk(q, h, f) && f.st == Done && q'.desc == q.desc && q'.ops == q.ops && q'.info == q.info
    requires q'.busy == q.busy - {f.buf}
    ensures FlightOk(q', h, f.(st := Seen))
  {
  }

  function Freed(q: Q, i: nat): Q
    requires Shape(q) && i < NUM
  {
    q.(desc := q.desc[i := NoDesc], free := q.free[i := true])
  }

  /** All of a chain but its head's `info`. */
  function ChainFreed(q: Q, h: nat, f: Flight): Q
    requires Shape(q) && h < NUM && f.d1 < NUM && f.d2 < NUM
  {
    Freed(Freed(Freed(q.(info := q.info[h := q.info[h].(b := None)]), h), f.d1), f.d2)
  }

  /** The chain of a finished request is free again. */
  lemma FreeOk(q: Q, fl: map<nat, Flight>, own: map<nat, nat>, offered: seq<nat>, done: seq<nat>, h: nat)
    requires Ok(q, fl, own, offered, done) && h in fl && fl[h].st == Seen
    ensures var f := fl[h];
            && FlightOk(q, h, f) && !q.free[h] && !q.free[f.d1] && !q.free[f.d2]
            && Ok(ChainFreed(q, h, f), fl - {h}, own - Chain(h, f), offered, done)
  {
    hide InRing, FlightOk, Lists;
    var f := fl[h];
    Inside(q, h, f);
    var q' := ChainFreed(q, h, f);
    forall k | k in fl && k != h ensures FlightOk(q', k, fl[k]) {
      Inside(q, k, fl[k]);
      assert own[k] == k && own[fl[k].d1] == k && own[fl[k].d2] == k;
      assert own[h] == h && own[f.d1] == h && own[f.d2] == h;
      FlightKept(q, q', k, fl[k]);
    }
    Departs(fl, offered, Offered, h);
    Departs(fl, done, Done, h);
    FreedPartition(q, q', fl, own, h);
  }

  lemma Departs(fl: map<nat, Flight>, s: seq<nat>, st: Stage, h: nat)
    requires Lists(fl, s, st) && h in fl && fl[h].st != st
    ensures Lists(fl - {h}, s, st)
  {
  }

  lemma FreedPartition(q: Q, q': Q, fl: map<nat, Flight>, own: map<nat, nat>, h: nat)
    requires Shape(q) && Shape(q') && Partition(q, fl, own) && h in fl && h < NUM && fl[h].d1 < NUM && fl[h].d2 < NUM
    requires q'.free == q.free[h := true][fl[h].d1 := true][fl[h].d2 := true]
    ensures Partition(q', fl - {h}, own - Chain(h, fl[h]))
  {
    var own' := own - Chain(h, fl[h]);
    forall i | i in own' ensures own'[i] != h {
      assert i in Chain(own[i], fl[own[i]]);
    }
  }

  // ---- the driver

  class Disk {
    var q: Q
    var availIdx: nat               // disk.avail->idx, 16 bits
    var usedIdx: nat                // disk.used_idx, 16 bits
    var deviceIdx: nat              // disk.used->idx, 16 bits
    ghost var fl: map<nat, Flight>
    ghost var own: map<nat, nat>
    ghost var offered: seq<nat>
    ghost var done: seq<nat>

    ghost predicate Valid()
      reads this
    {
      && Ok(q, fl, own, offered, done)
      && availIdx == (q.taken + |offered|) % U16
      && usedIdx == q.seen % U16 && deviceIdx == (q.seen + |done|) % U16
    }

    /** Nothing but these descriptors' bits in `free` changes. */
    static function WithFree(q: Q, free: seq<bool>): Q {
      q.(free := free)
    }

    /** `virtio_disk_init`. */
    constructor ()
      ensures Valid() && fl == map[] && q.busy == {}
    {
      q := Q(seq(NUM, k => NoDesc), seq(NUM, k => true), seq(NUM, k => 0), seq(NUM, k => 0), seq(NUM, k => Info(None, 0)),
             seq(NUM, k => Op(false, 0)), {}, 0, 0);
      availIdx, usedIdx, deviceIdx := 0, 0, 0;
      fl, own, offered, done := map[], map[], [], [];
    }

    /** `alloc_desc`: the first free descriptor, NUM if there is none. */
    method AllocDesc() returns (i: nat)
      requires |q.free| == NUM
      modifies this`q
      ensures i <= NUM && (forall j :: 0 <= j < i ==> !old(q).free[j])
      ensures i < NUM ==> old(q).free[i] && q == WithFree(old(q), old(q).free[i := false])
      ensures i == NUM ==> q == old(q)
    {
      i := 0;
      while i < NUM
        invariant 0 <= i <= NUM && q == old(q) && forall j :: 0 <= j < i ==> !q.free[j]
      {
        if q.free[i] {
          q := q.(free := q.free[i := false]);
          return;
        }
        i := i + 1;
      }
    }

    /** `free_desc`; the requirement rules out its two panics. */
    method FreeDesc(i: nat)
      requires Shape(q) && i < NUM && !q.free[i]
      modifies this`q
      ensures q == Freed(old(q), i)
    {
      q := q.(desc := q.desc[i := NoDesc], free := q.free[i := true]);
    }

    /** At most two descriptors are free. */
    static predicate Scarce(free: seq<bool>, a: nat, b: nat) {
      forall j :: 0 <= j < |free| && free[j] ==> j == a || j == b
    }

    static lemma OkShape(q: Q, fl: map<nat, Flight>, own: map<nat, nat>, offered: seq<nat>, done: seq<nat>)
      requires Ok(q, fl, own, offered, done)
      ensures Shape(q)
    {
    }

    /** `alloc3_desc`: three distinct descriptors, or none, and then what was
        taken is given back (with its descriptor zeroed). */
    method Alloc3() returns (ok: bool, d0: nat, d1: nat, d2: nat)
      requires Valid()
      modifies this`q
      ensures ok ==>
                && d0 < NUM && d1 < NUM && d2 < NUM && d0 != d1 && d0 != d2 && d1 != d2
                && old(q).free[d0] && old(q).free[d1] && old(q).free[d2]
                && q == WithFree(old(q), old(q).free[d0 := false][d1 := false][d2 := false])
      ensures !ok ==> Valid() && q.free == old(q).free && q.busy == old(q).busy
      ensures !ok ==> exists a, b :: Scarce(q.free, a, b)
    {
      hide Ok;
      OkShape(q, fl, own, offered, done);
      ghost var q0 := q;
      ok, d0, d1, d2 := false, 0, 0, 0;
      d0 := AllocDesc();
      if d0 == NUM {
        assert Scarce(q.free, 0, 0);
        return;
      }
      d1 := AllocDesc();
      if d1 == NUM {
        FreeDesc(d0);
        GivenBack(q0, q, fl, own, offered, done);
        assert Scarce(q.free, d0, d0);
        return;
      }
      d2 := AllocDesc();
      if d2 == NUM {
        FreeDesc(d0);
        FreeDesc(d1);
        GivenBack(q0, q, fl, own, offered, done);
        assert Scarce(q.free, d0, d1);
        return;
      }
      ok := true;
    }

    /** Zeroing free descriptors does not matter. */
    static lemma GivenBack(q0: Q, q: Q, fl: map<nat, Flight>, own: map<nat, nat>, offered: seq<nat>, done: seq<nat>)
      requires Ok(q0, fl, own, offered, done) && q == q0.(desc := q.desc, free := q.free) && |q.desc| == |q.free| == NUM
      requires forall i :: 0 <= i < NUM ==> q.free[i] == q0.free[i] && (!q0.free[i] ==> q.desc[i] == q0.desc[i])
      ensures Ok(q, fl, own, offered, done)
    {
      hide Lists, InRing, BufsDiffer, FlightOk;
      assert q.free == q0.free;
      forall k | k in fl ensures FlightOk(q, k, fl[k]) {
        Inside(q0, k, fl[k]);
        assert k in own && fl[k].d1 in own && fl[k].d2 in own;
        FlightKept(q0, q, k, fl[k]);
      }
      assert Shape(q) && Partition(q, fl, own);
    }

    /** `virtio_disk_rw` up to where it waits: the request is offered to the device,
        or there are too few descriptors and the thread has to sleep. The caller
        holds the buffer's lock, so the buffer is in no other request. */
    method Submit(b: nat, blockno: nat, write: bool) returns (ok: bool, ghost h: nat)
      requires Valid() && b !in q.busy && forall k :: k in fl ==> fl[k].buf != b
      modifies this
      ensures Valid()
      ensures !ok ==> fl == old(fl) && q.busy == old(q).busy && exists i, j :: Scarce(q.free, i, j)
      ensures ok ==>
                && h < NUM && h !in old(fl) && h in fl && fl == old(fl)[h := fl[h]] && fl[h].buf == b && fl[h].st == Offered
                && q.busy == old(q).busy + {b} && q.ops[h] == Op(write, blockno * 2)
                && offered == old(offered) + [h] && done == old(done)
    {
      hide Ok;
      OkShape(q, fl, own, offered, done);
      ghost var q0 := q;
      var d0, d1, d2;
      ok, d0, d1, d2 := Alloc3();
      h := d0;
      if !ok {
        return;
      }
      SubmitOk(q0, fl, own, offered, done, b, blockno * 2, write, d0, d1, d2);
      NotInFlight(q0, fl, own, offered, done, d0);
      IndexBits(q0.taken + |offered|, q0.taken + |offered|);
      Format(b, blockno * 2, write, d0, d1, d2);
      q := q.(avail := q.avail[availIdx % NUM := d0]);
      assert q == Submitted(q0, b, blockno * 2, write, d0, d1, d2, q0.taken + |offered|);
      availIdx := (availIdx + 1) % U16;
      fl := fl[d0 := Flight(b, d1, d2, Offered)];
      own := own[d0 := d0][d1 := d0][d2 := d0];
      offered := offered + [d0];
    }

    /** What `virtio_disk_rw` writes into the descriptors and its own records. */
    method Format(b: nat, sector: nat, write: bool, d0: nat, d1: nat, d2: nat)
      requires Shape(q) && d0 < NUM && d1 < NUM && d2 < NUM && d0 != d1 && d0 != d2 && d1 != d2
      modifies this`q
      ensures q == Formatted(old(q), b, sector, write, d0, d1, d2)
    {
      q := q.(ops := q.ops[d0 := Op(write, sector)]);
      q := q.(desc := q.desc[d0 := Desc(Header(d0), 16, false, true, d1)]);
      q := q.(desc := q.desc[d1 := Desc(Data(b), 1024, !write, true, d2)]);
      q := q.(info := q.info[d0 := q.info[d0].(status := 0xff)]);
      q := q.(desc := q.desc[d2 := Desc(Status(d0), 1, true, false, 0)]);
      q := q.(busy := q.busy + {b});
      q := q.(info := q.info[d0 := q.info[d0].(b := Some(b))]);
    }

    static lemma NotInFlight(q: Q, fl: map<nat, Flight>, own: map<nat, nat>, offered: seq<nat>, done: seq<nat>, h: nat)
      requires Ok(q, fl, own, offered, done) && h < NUM && q.free[h]
      ensures h !in fl
    {
    }

    /** `virtio_disk_intr`, while the device goes on: before the `k`-th look at the
        used index it finishes late[k], if that is a request. Every completion
        reported by the last look, at which none was left, releases exactly the
        buffer of its own request, and no other buffer is released. */
    method Intr(late: seq<Opt<nat>>) returns (k: nat, ghost served: set<nat>)
      requires Valid()
      requires forall i :: 0 <= i < |late| && late[i].Some? ==> late[i].v in fl && fl[late[i].v].st == Taken
      requires forall i, j :: 0 <= i < j < |late| && late[i].Some? ==> late[i] != late[j]
      modifies this`q, this`usedIdx, this`fl, this`done, this`deviceIdx
      ensures Valid() && done == [] && own == old(own) && offered == old(offered) && fl.Keys == old(fl).Keys
      ensures served == Finished(old(fl)) + Arrived(late, k)
      ensures forall h :: h in fl ==> fl[h] == if h in served then old(fl)[h].(st := Seen) else old(fl)[h]
      ensures q.busy == old(q).busy - Bufs(old(fl), served)
    {
      hide Ok, Progress, Bufs, Finished, Arrived;
      ghost var q0, fl0 := q, fl;
      ghost var came := Finished(fl0);
      k, served := 0, {};
      Arrives(late, 0, came);
      NoProgress(fl0);
      while true
        invariant Valid() && own == old(own) && offered == old(offered)
        invariant came == Finished(fl0) + Arrived(late, k) && Progress(fl0, fl, served, came)
        invariant q.busy == q0.busy - Bufs(fl0, served)
        decreases if k < |late| then |late| - k else 0, |done|
      {
        Arrives(late, k, came);
        if k < |late| && late[k].Some? {
          StillTaken(fl0, fl, served, came, late, k);
          DeviceFinishes(late[k].v);
          came := came + {late[k].v};
        }
        k := k + 1;
        DoneFew(q, fl, own, offered, done);
        IndexBits(q.seen, q.seen + |done|);
        if usedIdx == deviceIdx {
          break;
        }
        ghost var fl1 := fl;
        ghost var h := See();
        Serves(fl0, fl1, served, came, h);
        served := served + {h};
      }
      NoneDone(q, fl, own, offered, done);
      AllServed(fl0, fl, served, came);
    }

    /** How far the handler and the device have come since `fl0`. */
    static ghost predicate Progress(fl0: map<nat, Flight>, fl: map<nat, Flight>, served: set<nat>, came: set<nat>) {
      && fl.Keys == fl0.Keys && served <= came <= fl0.Keys && Finished(fl0) <= came
      && (forall h :: h in came ==> fl0[h].st == Done || fl0[h].st == Taken)
      && forall h :: h in fl0 ==> fl[h] == fl0[h].(st := if h in served then Seen else if h in came then Done else fl0[h].st)
    }

    static ghost function Bufs(fl: map<nat, Flight>, hs: set<nat>): set<nat> {
      set h | h in hs && h in fl :: fl[h].buf
    }

    static lemma NoProgress(fl: map<nat, Flight>)
      ensures Progress(fl, fl, {}, Finished(fl)) && Bufs(fl, {}) == {}
    {
    }

    static lemma StillTaken(fl0: map<nat, Flight>, fl: map<nat, Flight>, served: set<nat>, came: set<nat>, late: seq<Opt<nat>>, k: nat)
      requires Progress(fl0, fl, served, came) && came == Finished(fl0) + Arrived(late, k)
      requires k < |late| && late[k].Some? && late[k].v in fl0 && fl0[late[k].v].st == Taken
      requires forall i, j :: 0 <= i < j < |late| && late[i].Some? ==> late[i] != late[j]
      ensures var h := late[k].v;
              h in fl && fl[h].st == Taken && Progress(fl0, fl[h := fl[h].(st := Done)], served, came + {h})
    {
      Arrives(late, k, came);
    }

    static lemma Serves(fl0: map<nat, Flight>, fl: map<nat, Flight>, served: set<nat>, came: set<nat>, h: nat)
      requires Progress(fl0, fl, served, came) && h in fl && fl[h].st == Done
      ensures Progress(fl0, fl[h := fl[h].(st := Seen)], served + {h}, came)
      ensures Bufs(fl0, served + {h}) == Bufs(fl0, served) + {fl[h].buf}
    {
    }

    static lemma AllServed(fl0: map<nat, Flight>, fl: map<nat, Flight>, served: set<nat>, came: set<nat>)
      requires Progress(fl0, fl, served, came) && forall h :: h in fl ==> fl[h].st != Done
      ensures served == came && fl.Keys == fl0.Keys
      ensures forall h :: h in fl ==> fl[h] == if h in served then fl0[h].(st := Seen) else fl0[h]
    {
      forall h | h in came ensures h in served {
        assert h in fl0;
      }
    }

    /** The requests that the device had finished. */
    static ghost function Finished(fl: map<nat, Flight>): set<nat> {
      set h | h in fl && fl[h].st == Done
    }

    /** Those that it finishes before look `k`. */
    static ghost function Arrived(late: seq<Opt<nat>>, k: nat): set<nat> {
      set i | 0 <= i < k && i < |late| && late[i].Some? :: late[i].v
    }

    static lemma Arrives(late: seq<Opt<nat>>, k: nat, came: set<nat>)
      ensures Arrived(late, k + 1) == Arrived(late, k) + if k < |late| && late[k].Some? then {late[k].v} else {}
      ensures k < |late| && late[k].Some? && (forall i, j :: 0 <= i < j < |late| && late[i].Some? ==> late[i] != late[j]) ==>
                late[k].v !in Arrived(late, k)
      ensures Arrived(late, 0) == {}
    {
    }

    /** One round of the loop of `virtio_disk_intr`. */
    method See() returns (ghost h: nat)
      requires Valid() && done != []
      modifies this`q, this`usedIdx, this`fl, this`done
      ensures Valid() && h == old(done)[0] && done == old(done)[1..] && h in old(fl) && old(fl)[h].st == Done
      ensures fl == old(fl)[h := old(fl)[h].(st := Seen)] && q.busy == old(q).busy - {old(fl)[h].buf}
    {
      hide Lists, InRing, BufsDiffer, FlightOk, Partition;
      SeeOk(q, fl, own, offered, done);
      IndexBits(q.seen, q.seen);
      var id := q.used[usedIdx % NUM];
      assert q.info[id].status == 0; // panic: virtio_disk_intr status
      var b := q.info[id].b.v;
      q := q.(busy := q.busy - {b});
      usedIdx := (usedIdx + 1) % U16;
      q := q.(seen := q.seen + 1);
      h := done[0];
      fl := fl[h := fl[h].(st := Seen)];
      done := done[1..];
    }

    static lemma DoneFew(q: Q, fl: map<nat, Flight>, own: map<nat, nat>, offered: seq<nat>, done: seq<nat>)
      requires Ok(q, fl, own, offered, done)
      ensures |done| <= NUM
    {
      forall j | 0 <= j < |done| ensures done[j] < NUM {
        Inside(q, done[j], fl[done[j]]);
      }
      FewBelow(done, NUM);
    }

    static lemma NoneDone(q: Q, fl: map<nat, Flight>, own: map<nat, nat>, offered: seq<nat>, done: seq<nat>)
      requires Ok(q, fl, own, offered, done) && done == []
      ensures forall h :: h in fl ==> fl[h].st != Done
    {
    }

    /** The end of `virtio_disk_rw`, when the wait for `b` is over: the chain of
        the request becomes free, descriptor by descriptor, and nothing else. */
    method Complete(h: nat)
      requires Valid() && h in fl && fl[h].buf !in q.busy
      modifies this`q, this`fl, this`own
      ensures Valid() && fl == old(fl) - {h} && own == old(own) - Chain(h, old(fl)[h]) && q.busy == old(q).busy
      ensures forall i :: 0 <= i < NUM ==> q.free[i] == (old(q).free[i] || i in Chain(h, old(fl)[h]))
    {
      hide Ok, FlightOk;
      OkShape(q, fl, own, offered, done);
      OneFlight(q, fl, own, offered, done, h);
      ChainLinks(q, h, fl[h]);
      FreeOk(q, fl, own, offered, done, h);
      ghost var f, q0 := fl[h], q;
      q := q.(info := q.info[h := q.info[h].(b := None)]);
      FreeChain(h, f);
      assert q == ChainFreed(q0, h, f);
      own := own - Chain(h, f);
      fl := fl - {h};
    }

    static lemma OneFlight(q: Q, fl: map<nat, Flight>, own: map<nat, nat>, offered: seq<nat>, done: seq<nat>, h: nat)
      requires Ok(q, fl, own, offered, done) && h in fl
      ensures Shape(q) && FlightOk(q, h, fl[h])
    {
    }

    static lemma ChainLinks(q: Q, h: nat, f: Flight)
      requires Shape(q) && FlightOk(q, h, f)
      ensures h < NUM && f.d1 < NUM && f.d2 < NUM && h != f.d1 && h != f.d2 && f.d1 != f.d2
      ensures q.desc[h].hasNext && q.desc[h].next == f.d1 && q.desc[f.d1].hasNext && q.desc[f.d1].next == f.d2 && !q.desc[f.d2].hasNext
      ensures f.buf !in q.busy ==> f.st == Seen
    {
    }

    /** `free_chain` follows the `next` fields, which it clears as it goes. */
    method FreeChain(h: nat, ghost f: Flight)
      requires Shape(q) && h < NUM && f.d1 < NUM && f.d2 < NUM && h != f.d1 && h != f.d2 && f.d1 != f.d2
      requires q.desc[h].hasNext && q.desc[h].next == f.d1 && q.desc[f.d1].hasNext && q.desc[f.d1].next == f.d2 && !q.desc[f.d2].hasNext
      requires !q.free[h] && !q.free[f.d1] && !q.free[f.d2]
      modifies this`q
      ensures q == Freed(Freed(Freed(old(q), h), f.d1), f.d2)
    {
      ghost var q0 := q;
      ghost var n := 0;
      var i := h;
      while true
        invariant n <= 2 && i == (if n == 0 then h else if n == 1 then f.d1 else f.d2)
        invariant q == if n == 0 then q0 else if n == 1 then Freed(q0, h) else Freed(Freed(q0, h), f.d1)
        decreases 2 - n
      {
        var flag, nxt := q.desc[i].hasNext, q.desc[i].next;
        FreeDesc(i);
        if !flag {
          break;
        }
        i := nxt;
        n := n + 1;
      }
    }

    // ---- the device

    /** The device takes the next request from the available ring. */
    method DeviceTakes() returns (h: nat)
      requires Valid() && availIdx != q.taken % U16
      modifies this`q, this`fl, this`offered
      ensures Valid() && old(offered) != [] && h == old(offered)[0] && offered == old(offered)[1..]
      ensures h in old(fl) && fl == old(fl)[h := old(fl)[h].(st := Taken)] && q.busy == old(q).busy
    {
      hide Lists, InRing, BufsDiffer, FlightOk, Partition;
      assert offered != [];
      TakeOk(q, fl, own, offered, done);
      h := q.avail[q.taken % NUM];
      q := q.(taken := q.taken + 1);
      fl := fl[h := fl[h].(st := Taken)];
      offered := offered[1..];
    }

    /** It finishes any request that it has taken, with success. */
    method DeviceFinishes(h: nat)
      requires Valid() && h in fl && fl[h].st == Taken
      modifies this`q, this`fl, this`done, this`deviceIdx
      ensures Valid() && fl == old(fl)[h := old(fl)[h].(st := Done)] && done == old(done) + [h] && q.busy == old(q).busy
    {
      hide Lists, InRing, BufsDiffer, FlightOk, Partition;
      FinishOk(q, fl, own, offered, done, h);
      IndexBits(q.seen + |done|, q.seen + |done|);
      q := q.(info := q.info[h := q.info[h].(status := 0)], used := q.used[deviceIdx % NUM := h]);
      deviceIdx := (deviceIdx + 1) % U16;
      fl := fl[h := fl[h].(st := Done)];
      done := done + [h];
    }
  }
}
