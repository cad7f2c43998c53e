/** The pipe of kernel/pipe.c: a ring of bytes with free-running 32-bit counters. */
module Pipe {
  const PIPESIZE: nat := 512
  const UINT: nat := 0x1_0000_0000

  /** How a stretch of `pipewrite` or `piperead` ends: asleep, with the lock given
      up until somebody calls wakeup, or by returning. */
  datatype Outcome = Slept | Returned(r: int)

  /** Ring slots and counters agree although the counters wrap: PIPESIZE divides 2^32. */
  lemma Wraps(k: nat)
    ensures k % UINT % PIPESIZE == k % PIPESIZE
    ensures (k % UINT + 1) % UINT == (k + 1) % UINT
  {
    assert k == k / UINT * UINT + k % UINT;
    assert UINT == PIPESIZE * 0x80_0000;
    var q := k / UINT * 0x80_0000;
    assert k == q * PIPESIZE + k % UINT;
    ModAdd(q, k % UINT);
    if k % UINT + 1 == UINT {
      assert k + 1 == (k / UINT + 1) * UINT;
      ModZero(k / UINT + 1);
    } else {
      ModSame(k / UINT, k % UINT + 1);
    }
  }

  lemma ModAdd(q: nat, r: nat)
    ensures (q * PIPESIZE + r) % PIPESIZE == r % PIPESIZE
  {
    if q > 0 {
      ModAdd(q - 1, r);
    }
  }

  lemma ModZero(q: nat)
    ensures q * UINT % UINT == 0
  {
  }

  lemma ModSame(q: nat, r: nat)
    requires r < UINT
    ensures (q * UINT + r) % UINT == r
  {
  }

  /** The 32-bit tests for a full and an empty ring are exact as long as at most PIPESIZE bytes are in it. */
  lemma CountersTell(a: nat, d: nat)
    requires d <= a <= d + PIPESIZE
    ensures a % UINT == (d % UINT + PIPESIZE) % UINT <==> a == d + PIPESIZE
    ensures d % UINT == a % UINT <==> a == d
  {
    Near(a, d);
    Near(d + PIPESIZE, d);
  }

  /** Adding a small number to a counter modulo 2^32. */
  lemma Near(a: nat, d: nat)
    requires d <= a <= d + PIPESIZE
    ensures a % UINT == if d % UINT + (a - d) < UINT then d % UINT + (a - d) else d % UINT + (a - d) - UINT
  {
    var q, r := d / UINT, d % UINT;
    assert d == q * UINT + r;
    if r + (a - d) < UINT {
      ModSame(q, r + (a - d));
    } else {
      assert a == (q + 1) * UINT + (r + (a - d) - UINT);
      ModSame(q + 1, r + (a - d) - UINT);
    }
  }

  /** A pipe with its history: the bytes that writes have put in, the bytes that
      each read took out, how often the page was freed, and how many readers and
      writers are asleep and not woken. */
  datatype View = View(data: seq<int>, nread: nat, nwrite: nat, readopen: bool, writeopen: bool,
                       wrote: seq<int>, got: seq<seq<int>>, freed: nat, rsleep: nat, wsleep: nat)

  // ---- what the code does while it holds the lock

  /** `nwrite == nread + PIPESIZE`. */
  predicate Full(v: View) {
    v.nwrite == (v.nread + PIPESIZE) % UINT
  }

  predicate Empty(v: View) {
    v.nread == v.nwrite
  }

  function PutByte(v: View, ch: int): View
    requires |v.data| == PIPESIZE
  {
    v.(data := v.data[v.nwrite % PIPESIZE := ch], nwrite := (v.nwrite + 1) % UINT, wrote := v.wrote + [ch])
  }

  /** The current read takes a byte. */
  function GetByte(v: View): View
    requires |v.data| == PIPESIZE && |v.got| > 0
  {
    var n := |v.got| - 1;
    v.(nread := (v.nread + 1) % UINT, got := v.got[n := v.got[n] + [v.data[v.nread % PIPESIZE]]])
  }

  predicate CanPuts(v: View, bytes: seq<int>)
    requires |v.data| == PIPESIZE
    decreases |bytes|
  {
    bytes == [] || (v.readopen && !Full(v) && CanPuts(PutByte(v, bytes[0]), bytes[1..]))
  }

  function Puts(v: View, bytes: seq<int>): View
    requires |v.data| == PIPESIZE
    decreases |bytes|
  {
    if bytes == [] then v else Puts(PutByte(v, bytes[0]), bytes[1..])
  }

  predicate CanGets(v: View, n: nat)
    requires |v.data| == PIPESIZE && |v.got| > 0
    decreases n
  {
    n == 0 || (!Empty(v) && CanGets(GetByte(v), n - 1))
  }

  function Gets(v: View, n: nat): View
    requires |v.data| == PIPESIZE && |v.got| > 0
    decreases n
  {
    if n == 0 then v else Gets(GetByte(v), n - 1)
  }

  function StartRead(v: View): View {
    v.(got := v.got + [[]])
  }

  /** How a stretch of a write ends. */
  datatype End = Sleeps | Dies | Returns

  /** A stretch of `pipewrite` or `piperead` between taking and giving up the lock,
      `pipeclose`, or a sleeper made runnable by `kkill`. */
  datatype Event =
    | Wrote(bytes: seq<int>, end: End)
    | ReadSleeps | ReadDies | Reads(n: nat)
    | Closed(writable: bool)
    | Killed(reader: bool)

  /** A process that reads, writes or sleeps on the pipe keeps its end open. */
  predicate Can(v: View, e: Event)
    requires |v.data| == PIPESIZE
  {
    match e
    case Wrote(bytes, end) => v.writeopen && CanPuts(v, bytes) && (end == Sleeps ==> v.readopen && Full(Puts(v, bytes)))
    case ReadSleeps => v.readopen && Empty(v) && v.writeopen
    case ReadDies => v.readopen && Empty(v) && v.writeopen
    case Reads(n) => v.readopen && !(Empty(v) && v.writeopen) && CanGets(StartRead(v), n)
    case Closed(writable) => if writable then v.writeopen && v.wsleep == 0 else v.readopen && v.rsleep == 0
    case Killed(reader) => if reader then v.rsleep > 0 else v.wsleep > 0
  }

  function Next(v: View, e: Event): View
    requires |v.data| == PIPESIZE && Can(v, e)
  {
    match e
    case Wrote(bytes, end) =>
      var w := Puts(v, bytes);
      (match end
       case Sleeps => w.(rsleep := 0, wsleep := w.wsleep + 1)
       case Dies => w
       case Returns => w.(rsleep := 0))
    case ReadSleeps => v.(rsleep := v.rsleep + 1)
    case ReadDies => v
    case Reads(n) => Gets(StartRead(v), n).(wsleep := 0)
    case Closed(writable) =>
      var w := if writable then v.(writeopen := false, rsleep := 0) else v.(readopen := false, wsleep := 0);
      if !w.readopen && !w.writeopen then w.(freed := w.freed + 1) else w
    case Killed(reader) => if reader then v.(rsleep := v.rsleep - 1) else v.(wsleep := v.wsleep - 1)
  }

  // ---- what holds between any two stretches

  /** All the bytes that were read, in order. */
  function Flatten(got: seq<seq<int>>): seq<int> {
    if got == [] then [] else Flatten(got[..|got| - 1]) + got[|got| - 1]
  }

  /** What was read is what was written first; the ring holds exactly the rest, at
      most PIPESIZE bytes; the page is free exactly when both ends are closed. */
  ghost predicate Good(v: View) {
    var d := |Flatten(v.got)|;
    && |v.data| == PIPESIZE
    && d <= |v.wrote| <= d + PIPESIZE && Flatten(v.got) == v.wrote[..d]
    && v.nread == d % UINT && v.nwrite == |v.wrote| % UINT
    && (forall k :: d <= k < |v.wrote| ==> v.data[k % PIPESIZE] == v.wrote[k])
    && v.freed == (if !v.readopen && !v.writeopen then 1 else 0)
    && (v.rsleep > 0 ==> v.readopen) && (v.wsleep > 0 ==> v.writeopen)
  }

  lemma SlotsDiffer(d: nat, n: nat)
    requires d <= n < d + PIPESIZE
    ensures forall k :: d <= k < n ==> k % PIPESIZE != n % PIPESIZE
  {
  }

  /** Full and empty as the counters show it. */
  lemma CountersFit(v: View)
    requires Good(v)
    ensures Full(v) <==> |v.wrote| == |Flatten(v.got)| + PIPESIZE
    ensures Empty(v) <==> |v.wrote| == |Flatten(v.got)|
  {
    CountersTell(|v.wrote|, |Flatten(v.got)|);
  }

  lemma PutGood(v: View, ch: int)
    requires Good(v) && !Full(v)
    ensures Good(PutByte(v, ch))
  {
    var d, n := |Flatten(v.got)|, |v.wrote|;
    CountersFit(v);
    Wraps(n);
    SlotsDiffer(d, n);
    assert (v.wrote + [ch])[..d] == v.wrote[..d];
  }

  lemma GetGood(v: View)
    requires Good(v) && !Empty(v) && |v.got| > 0
    ensures var d, k := |Flatten(v.got)|, |v.got| - 1;
            && Good(GetByte(v)) && d < |v.wrote| && Flatten(GetByte(v).got) == Flatten(v.got) + [v.wrote[d]]
            && GetByte(v) == v.(nread := (v.nread + 1) % UINT, got := v.got[k := v.got[k] + [v.wrote[d]]])
  {
    var d, r, w := |Flatten(v.got)|, v.got[|v.got| - 1], GetByte(v);
    CountersFit(v);
    Wraps(d);
    assert w.got[..|w.got| - 1] == v.got[..|v.got| - 1];
    assert Flatten(w.got) == Flatten(v.got) + [v.wrote[d]];
    assert v.wrote[..d + 1] == v.wrote[..d] + [v.wrote[d]];
  }

  lemma {:induction false} PutsGood(v: View, bytes: seq<int>)
    requires Good(v) && CanPuts(v, bytes)
    ensures var w := Puts(v, bytes);
            Good(w) && w == v.(data := w.data, nwrite := w.nwrite, wrote := v.wrote + bytes)
    decreases |bytes|
  {
    if bytes == [] {
      assert v.wrote + bytes == v.wrote;
    } else {
      PutGood(v, bytes[0]);
      PutsGood(PutByte(v, bytes[0]), bytes[1..]);
      assert v.wrote + [bytes[0]] + bytes[1..] == v.wrote + bytes;
    }
  }

  lemma {:induction false} GetsGood(v: View, n: nat)
    requires Good(v) && |v.got| > 0 && CanGets(v, n)
    ensures var w, d, k := Gets(v, n), |Flatten(v.got)|, |v.got| - 1;
            && Good(w) && d + n <= |v.wrote| && w == v.(nread := w.nread, got := v.got[k := v.got[k] + v.wrote[d..d + n]])
            && |Flatten(w.got)| == d + n
    decreases n
  {
    hide Good, GetByte, Flatten, Empty;
    var d, k := |Flatten(v.got)|, |v.got| - 1;
    InOrder(v);
    if n == 0 {
      assert v.wrote[d..d] == [] && v.got[k] + v.wrote[d..d] == v.got[k];
    } else {
      var u := GetByte(v);
      GetGood(v);
      GetsGood(u, n - 1);
      var x, y := [v.wrote[d]], v.wrote[d + 1..d + n];
      assert x + y == v.wrote[d..d + n] && v.got[k] + x + y == v.got[k] + (x + y);
      assert v.got[k := v.got[k] + x][k := v.got[k] + x + y] == v.got[k := v.got[k] + x + y];
    }
  }

  lemma InOrder(v: View)
    requires Good(v)
    ensures |v.data| == PIPESIZE && |Flatten(v.got)| <= |v.wrote| && Flatten(v.got) == v.wrote[..|Flatten(v.got)|]
  {
  }

  lemma StartGood(v: View)
    requires Good(v)
    ensures Good(StartRead(v)) && Flatten(StartRead(v).got) == Flatten(v.got)
  {
    assert StartRead(v).got[..|v.got|] == v.got;
    assert Flatten(v.got) + [] == Flatten(v.got);
  }

  lemma EventGood(v: View, e: Event)
    requires Good(v) && Can(v, e)
    ensures Good(Next(v, e))
    ensures Next(v, e).wrote == v.wrote + if e.Wrote? then e.bytes else []
    ensures |v.got| <= |Next(v, e).got| && Next(v, e).got[..|v.got|] == v.got
  {
    match e
    case Wrote(bytes, end) => PutsGood(v, bytes);
    case Reads(n) =>
      StartGood(v);
      GetsGood(StartRead(v), n);
    case _ =>
  }

  // ---- any interleaving

  /** A new pipe and what was done to it since. */
  ghost predicate Run(r: seq<View>, es: seq<Event>) {
    && |r| == |es| + 1 && |r[0].data| == PIPESIZE && r[0] == View(r[0].data, 0, 0, true, true, [], [], 0, 0, 0)
    && forall n :: 0 <= n < |es| ==> |r[n].data| == PIPESIZE && Can(r[n], es[n]) && r[n + 1] == Next(r[n], es[n])
  }

  /** What all writes of a run put in, in order. */
  function AllWritten(es: seq<Event>): seq<int> {
    if es == [] then []
    else AllWritten(es[..|es| - 1]) + if es[|es| - 1].Wrote? then es[|es| - 1].bytes else []
  }

  /** Whatever the interleaving: the bytes that the reads returned, put together,
      are the first bytes of all that was written; the ring holds exactly the
      others, at most PIPESIZE of them. */
  lemma {:induction false} Fifo(r: seq<View>, es: seq<Event>)
    requires Run(r, es)
    ensures var v, d := r[|es|], |Flatten(r[|es|].got)|;
            && Good(v) && v.wrote == AllWritten(es)
            && d <= |AllWritten(es)| <= d + PIPESIZE && Flatten(v.got) == AllWritten(es)[..d]
            && forall k :: d <= k < |AllWritten(es)| ==> v.data[k % PIPESIZE] == AllWritten(es)[k]
    decreases |es|
  {
    if |es| > 0 {
      var n := |es| - 1;
      Fifo(r[..n + 1], es[..n]);
      EventGood(r[n], es[n]);
    }
  }

  /** The page is freed when the second end is closed, and nothing happens to the pipe after that. */
  lemma FreedOnce(r: seq<View>, es: seq<Event>)
    requires Run(r, es)
    ensures forall n :: 0 <= n < |r| ==> r[n].freed == (if !r[n].readopen && !r[n].writeopen then 1 else 0)
    ensures forall n :: 0 <= n < |es| ==> r[n].freed == 0
  {
    forall n | 0 <= n < |r| ensures Good(r[n]) {
      assert Run(r[..n + 1], es[..n]);
      Fifo(r[..n + 1], es[..n]);
    }
  }

  // ---- sleepers

  /** Readers sleep only while there is nothing to read and somebody who may
      write, writers only while there is no room and somebody who may read. */
  predicate Awake(v: View) {
    && (v.rsleep > 0 ==> Empty(v) && v.writeopen)
    && (v.wsleep > 0 ==> Full(v) && v.readopen)
  }

  /** A writer that finds itself killed returns without a wakeup for the bytes it
      has put in since it took the lock. */
  predicate Forgets(v: View, e: Event) {
    e.Wrote? && e.end == Dies && e.bytes != [] && v.rsleep > 0
  }

  lemma SleepersAwake(v: View, e: Event)
    requires Good(v) && Awake(v) && Can(v, e)
    ensures Awake(Next(v, e)) <==> !Forgets(v, e)
  {
    EventGood(v, e);
    match e
    case Wrote(bytes, end) => WriteLeaves(v, bytes, end);
    case Reads(n) =>
      StartGood(v);
      GetsGood(StartRead(v), n);
    case _ =>
      CountersFit(v);
  }

  lemma WriteLeaves(v: View, bytes: seq<int>, end: End)
    requires Good(v) && Awake(v) && Can(v, Wrote(bytes, end))
    ensures Awake(Next(v, Wrote(bytes, end))) <==> !Forgets(v, Wrote(bytes, end))
  {
    hide CanPuts, Puts, Flatten;
    CountersFit(v);
    PutsGood(v, bytes);
    CountersFit(Puts(v, bytes));
    hide Good;
  }

  /** Over a run without such a writer nobody sleeps without a reason. */
  lemma {:induction false} RunAwake(r: seq<View>, es: seq<Event>)
    requires Run(r, es) && forall n :: 0 <= n < |es| ==> !Forgets(r[n], es[n])
    ensures Awake(r[|es|])
    decreases |es|
  {
    if |es| > 0 {
      var n := |es| - 1;
      RunAwake(r[..n + 1], es[..n]);
      Fifo(r[..n + 1], es[..n]);
      SleepersAwake(r[n], es[n]);
    }
  }

  /** With it, a reader sleeps on although there is a byte for it. */
  lemma ForgottenReader(data: seq<int>)
    requires |data| == PIPESIZE
    ensures var v := View(data, 0, 0, true, true, [], [], 0, 0, 0);
            var es := [ReadSleeps, Wrote([7], Dies)];
            var w := Next(v, es[0]);
            var u := Next(w, es[1]);
            Run([v, w, u], es) && u.rsleep == 1 && !Empty(u) && u.wrote == [7] && !Awake(u)
  {
    var v := View(data, 0, 0, true, true, [], [], 0, 0, 0);
    var w := v.(rsleep := 1);
    assert Next(v, ReadSleeps) == w;
    var x := PutByte(w, 7);
    assert [7][1..] == [] && Puts(w, [7]) == Puts(x, []) == x && CanPuts(x, []);
    assert CanPuts(w, [7]);
    assert x.wrote == [7];
    var r, es := [v, w, x], [ReadSleeps, Wrote([7], Dies)];
    assert forall n :: 0 <= n < |es| ==> |r[n].data| == PIPESIZE && Can(r[n], es[n]) && r[n + 1] == Next(r[n], es[n]);
  }

  // ---- the code

  class Ring {
    const data: array<int>
    var nread: nat
    var nwrite: nat
    var readopen: bool
    var writeopen: bool
    ghost var wrote: seq<int>
    ghost var got: seq<seq<int>>
    ghost var freed: nat
    ghost var rsleep: nat
    ghost var wsleep: nat

    ghost function Now(): View
      reads this, data
    {
      View(data[..], nread, nwrite, readopen, writeopen, wrote, got, freed, rsleep, wsleep)
    }

    ghost predicate Valid()
      reads this, data
    {
      Good(Now())
    }

    /** `pipealloc`. */
    constructor ()
      ensures Valid() && fresh(data) && Run([Now()], []) && Awake(Now())
    {
      data := new int[PIPESIZE](k => 0);
      nread, nwrite := 0, 0;
      readopen, writeopen := true, true;
      wrote, got, freed, rsleep, wsleep := [], [], 0, 0, 0;
    }

    /** `pi->data[pi->nwrite++ % PIPESIZE] = ch`. */
    method Put(ch: int)
      requires Valid() && !Full(Now())
      modifies this`nwrite, this`wrote, data
      ensures Valid() && Now() == PutByte(old(Now()), ch)
    {
      PutGood(Now(), ch);
      data[nwrite % PIPESIZE] := ch;
      nwrite := (nwrite + 1) % UINT;
      wrote := wrote + [ch];
    }

    /** `ch = pi->data[pi->nread % PIPESIZE]`, copied out, and `pi->nread++`. */
    method Get()
      requires Valid() && !Empty(Now()) && |got| > 0
      modifies this`nread, this`got
      ensures Valid() && Now() == GetByte(old(Now())) && |got| > 0
    {
      GetGood(Now());
      var ch := data[nread % PIPESIZE];
      nread := (nread + 1) % UINT;
      got := got[|got| - 1 := got[|got| - 1] + [ch]];
    }

    static function EndOf(o: Outcome): End {
      if o == Slept then Sleeps else if o == Returned(-1) then Dies else Returns
    }

    /** The writer has put in a byte for a sleeping reader when it sees that it was killed. */
    ghost predicate DiesMidway(n: nat, i: nat, avail: nat, dies: nat)
      reads this, data
    {
      rsleep > 0 && readopen && i < dies < n && dies <= avail && dies - i <= PIPESIZE
    }

    /** `pipewrite` of `src` from byte `i` on, until it sleeps or returns; the user
        memory is readable for `avail` bytes, and another process kills the writer
        before it looks at byte `dies`. It accepts src[i..i'], in order. */
    method Write(src: seq<int>, i: nat, avail: nat, dies: nat) returns (i': nat, o: Outcome)
      requires Valid() && writeopen && i <= |src|
      modifies this`nwrite, this`wrote, this`rsleep, this`wsleep, data
      ensures i <= i' <= |src| && Can(old(Now()), Wrote(src[i..i'], EndOf(o)))
      ensures Valid() && Now() == Next(old(Now()), Wrote(src[i..i'], EndOf(o)))
      ensures o == Slept ==> i' < |src| && i' < dies
      ensures o.Returned? ==> o.r == -1 || o.r == i'
      ensures o == Returned(-1) <==> i' < |src| && (!readopen || i' >= dies)
      ensures o.Returned? && o.r >= 0 && i' < |src| ==> i' >= avail
      ensures old(Awake(Now())) ==> (Awake(Now()) <==> !old(DiesMidway(|src|, i, avail, dies)))
    {
      hide Good, Puts, CanPuts, Can, Next, Awake, PutByte;
      i' := i;
      ghost var v := Now();
      assert src[i..i] == [];
      NoPuts(v);
      while i' < |src|
        invariant Valid() && i <= i' <= |src| && CanPuts(v, src[i..i']) && Now() == Puts(v, src[i..i'])
        invariant i' > i ==> readopen && i' <= dies && i' <= avail
      {
        if !readopen || i' >= dies {
          o := Returned(-1);
          WriteEnds(v, src[i..i'], Dies);
          return;
        }
        if nwrite == (nread + PIPESIZE) % UINT {
          WriteEnds(v, src[i..i'], Sleeps);
          rsleep := 0;                  // wakeup(&pi->nread)
          wsleep := wsleep + 1;
          o := Slept;
          return;
        }
        if i' >= avail {
          break;
        }
        PutsSnoc(v, src[i..i'], src[i']);
        assert src[i..i' + 1] == src[i..i'] + [src[i']];
        Put(src[i']);
        i' := i' + 1;
      }
      WriteEnds(v, src[i..i'], Returns);
      rsleep := 0;                      // wakeup(&pi->nread)
      o := Returned(i');
    }

    static lemma NoPuts(v: View)
      requires Good(v)
      ensures |v.data| == PIPESIZE && CanPuts(v, []) && Puts(v, []) == v
    {
    }

    static lemma WriteEnds(v: View, bytes: seq<int>, end: End)
      requires Good(v) && CanPuts(v, bytes) && v.writeopen
      requires end == Sleeps ==> Puts(v, bytes).readopen && Full(Puts(v, bytes))
      ensures var e, w := Wrote(bytes, end), Puts(v, bytes);
              && w.rsleep == v.rsleep && w.wsleep == v.wsleep && w.readopen == v.readopen
              && Can(v, e) && Good(Next(v, e))
              && Next(v, e) == (match end case Sleeps => w.(rsleep := 0, wsleep := w.wsleep + 1) case Dies => w case Returns => w.(rsleep := 0))
              && (Awake(v) ==> (Awake(Next(v, e)) <==> !Forgets(v, e)))
              && |bytes| <= PIPESIZE && (Awake(v) && v.rsleep > 0 && Full(w) ==> |bytes| == PIPESIZE)
    {
      hide CanPuts, Puts, Awake;
      PutsGood(v, bytes);
      EventGood(v, Wrote(bytes, end));
      CountersFit(v);
      CountersFit(Puts(v, bytes));
      if Awake(v) {
        SleepersAwake(v, Wrote(bytes, end));
        if v.rsleep > 0 {
          SleepsEmpty(v);
        }
      }
    }

    static lemma SleepsEmpty(v: View)
      requires Awake(v) && v.rsleep > 0
      ensures Empty(v)
    {
    }

    static lemma {:induction false} PutsSnoc(v: View, bytes: seq<int>, ch: int)
      requires |v.data| == PIPESIZE && CanPuts(v, bytes)
      ensures var w := Puts(v, bytes);
              && |w.data| == PIPESIZE && Puts(v, bytes + [ch]) == PutByte(w, ch)
              && (w.readopen && !Full(w) ==> CanPuts(v, bytes + [ch]))
      decreases |bytes|
    {
      if bytes == [] {
        assert ([] + [ch])[0] == ch && ([] + [ch])[1..] == [] && bytes + [ch] == [ch];
      } else {
        PutsSnoc(PutByte(v, bytes[0]), bytes[1..], ch);
        assert (bytes + [ch])[1..] == bytes[1..] + [ch];
      }
    }

    /** What `piperead` did. */
    static function ReadEvent(o: Outcome, none: bool, n: nat): Event {
      if o == Slept then ReadSleeps else if none then ReadDies else Reads(n)
    }

    /** `piperead` of at most `n` bytes, from entry or wakeup until it sleeps or
        returns; the user memory is writable for `avail` bytes. It takes `m` bytes. */
    method Read(n: nat, avail: nat, killed: bool) returns (o: Outcome, m: nat)
      requires Valid() && readopen
      modifies this`nread, this`got, this`rsleep, this`wsleep
      ensures var e := ReadEvent(o, Empty(old(Now())) && writeopen, m);
              Can(old(Now()), e) && Valid() && Now() == Next(old(Now()), e)
      ensures o == Slept <==> Empty(old(Now())) && writeopen && !killed
      ensures o == Returned(-1) <==> (Empty(old(Now())) && writeopen && killed) || (n > 0 && avail == 0 && !Empty(old(Now())))
      ensures o == Slept || o == Returned(-1) ==> m == 0
      ensures o.Returned? && o.r >= 0 ==> o.r == m && m <= n && m <= avail && (m == n || m == avail || Empty(Now()))
      ensures old(Awake(Now())) ==> Awake(Now())
    {
      hide Good, Gets, CanGets, Can, Next, Awake, GetByte, StartRead;
      m := 0;
      ghost var v := Now();
      if nread == nwrite && writeopen {
        EmptyEnds(v);
        if killed {
          return Returned(-1), 0;
        }
        rsleep := rsleep + 1;           // sleep(&pi->nread)
        return Slept, 0;
      }
      ReadStarts(v);
      got := got + [[]];
      var i := 0;
      o := Returned(0);
      while i < n
        invariant Valid() && 0 <= i <= n && i == m && i <= avail && o == Returned(i)
        invariant CanGets(StartRead(v), i) && Now() == Gets(StartRead(v), i) && |got| > 0
        invariant i == 0 ==> nread == v.nread && nwrite == v.nwrite
      {
        if nread == nwrite {
          break;
        }
        if i >= avail {
          if i == 0 {
            o := Returned(-1);
          }
          break;
        }
        GetsSnoc(StartRead(v), i);
        Get();
        i := i + 1;
        m := i;
        o := Returned(i);
      }
      ReadEnds(v, m);
      wsleep := 0;                      // wakeup(&pi->nwrite)
    }

    static lemma EmptyEnds(v: View)
      requires Good(v) && Empty(v) && v.readopen && v.writeopen
      ensures Can(v, ReadDies) && Can(v, ReadSleeps) && Next(v, ReadDies) == v && Next(v, ReadSleeps) == v.(rsleep := v.rsleep + 1)
      ensures Good(Next(v, ReadSleeps)) && (Awake(v) ==> Awake(Next(v, ReadSleeps)))
    {
      EventGood(v, ReadSleeps);
      if Awake(v) {
        SleepersAwake(v, ReadSleeps);
      }
    }

    static lemma ReadStarts(v: View)
      requires Good(v)
      ensures var w := StartRead(v);
              Good(w) && |w.data| == PIPESIZE && |w.got| > 0 && w == v.(got := v.got + [[]]) && CanGets(w, 0) && Gets(w, 0) == w
    {
      StartGood(v);
    }

    static lemma ReadEnds(v: View, n: nat)
      requires Good(v) && v.readopen && !(Empty(v) && v.writeopen) && CanGets(StartRead(v), n)
      ensures Can(v, Reads(n)) && Next(v, Reads(n)) == Gets(StartRead(v), n).(wsleep := 0)
      ensures Good(Next(v, Reads(n))) && (Awake(v) ==> Awake(Next(v, Reads(n))))
    {
      EventGood(v, Reads(n));
      if Awake(v) {
        SleepersAwake(v, Reads(n));
      }
    }

    static lemma {:induction false} GetsSnoc(v: View, n: nat)
      requires |v.data| == PIPESIZE && |v.got| > 0 && CanGets(v, n)
      ensures var w := Gets(v, n);
              && |w.data| == PIPESIZE && |w.got| > 0 && Gets(v, n + 1) == GetByte(w)
              && (!Empty(w) ==> CanGets(v, n + 1))
      decreases n
    {
      if n == 0 {
        assert Gets(GetByte(v), 0) == GetByte(v) && CanGets(GetByte(v), 0);
      } else {
        GetsSnoc(GetByte(v), n - 1);
      }
    }

    /** `pipeclose` of one end, which its file does once, when no process uses it. */
    method Close(writable: bool)
      requires Valid() && (if writable then writeopen && wsleep == 0 else readopen && rsleep == 0)
      modifies this`readopen, this`writeopen, this`freed, this`rsleep, this`wsleep
      ensures Can(old(Now()), Closed(writable)) && Valid() && Now() == Next(old(Now()), Closed(writable))
      ensures old(Awake(Now())) ==> Awake(Now())
    {
      ghost var v := Now();
      EventGood(v, Closed(writable));
      if Awake(v) {
        SleepersAwake(v, Closed(writable));
      }
      if writable {
        writeopen := false;
        rsleep := 0;                    // wakeup(&pi->nread)
      } else {
        readopen := false;
        wsleep := 0;                    // wakeup(&pi->nwrite)
      }
      if !readopen && !writeopen {
        freed := freed + 1;             // kfree
      }
    }
  }
}
