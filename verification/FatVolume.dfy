/** The mounted volume of fs/fat32.c as the object it is: disk blocks changed one
    at a time, a one-sector FAT read cache, free count and next-free hint.  Each
    method is proved to compute the table operation of FatOwner, and `hist`, the
    disk after every single block write, says what a crash can leave behind. */
module FatVolume {
  import opened Basics
  import opened Words
  import opened FatChain
  import opened FatOwner
  import opened FatDisk
  import opened FatFiles
  import opened FatContents
  import opened FatCrash

  function FsinfoBlock(b: Block, freeCount: int, nextFree: int): Block {
    Put32(Put32(b, 488, Wrap(freeCount)), 492, Wrap(nextFree))
  }

  lemma FsinfoHolds(b: Block, freeCount: int, nextFree: int)
    ensures Rd32(FsinfoBlock(b, freeCount, nextFree), 488) == Wrap(freeCount)
    ensures Rd32(FsinfoBlock(b, freeCount, nextFree), 492) == Wrap(nextFree)
  {
    hide Rd32, Put32;
    WordRoundTrip(b, 488, Wrap(freeCount));
    var c := Put32(b, 488, Wrap(freeCount));
    WordRoundTrip(c, 492, Wrap(nextFree));
    WordElsewhere(c, 492, Wrap(nextFree), 488);
  }

  /** The FSInfo sector shows in no table and no cluster. */
  lemma FsinfoAgrees(g: Geo, a: Disk, b: Block)
    requires Sound(g, |a|)
    ensures AgreesOff(g, a, a[g.fsinfoLba := b], iset{})
    ensures forall k :: 0 <= k < g.numFats ==> TableOf(g, a[g.fsinfoLba := b], k) == TableOf(g, a, k)
  {
    hide TableOf;
    DataAfterFats(g, |a|);
    forall k | 0 <= k < g.numFats
      ensures TableOf(g, a[g.fsinfoLba := b], k) == TableOf(g, a, k)
    {
      TableIgnores(g, a, g.fsinfoLba, b, k);
    }
  }

  lemma SameTables(g: Geo, a: Disk, b: Disk)
    requires |a| == |b| && Sound(g, |a|)
    requires forall k :: 0 <= k < g.numFats ==> TableOf(g, b, k) == TableOf(g, a, k)
    ensures FatTable(g, b) == FatTable(g, a)
    ensures (forall k :: 0 <= k < g.numFats ==> TableOf(g, a, k) == FatTable(g, a)) ==>
              forall k :: 0 <= k < g.numFats ==> TableOf(g, b, k) == FatTable(g, b)
  {
    hide TableOf;
  }

  lemma DataAfterFats(g: Geo, n: nat)
    requires Sound(g, n)
    ensures g.fatLba <= g.dataLba
  {
    MulMono(0, g.numFats, g.fatSize);
  }

  // ----- Facts the loops below rest on -----

  /** With `k` clusters still to come, the loop is on its way to the same result. */
  ghost predicate Continues(v: Vol, first: int, prev: int, k: nat, v0: Vol, n: nat) {
    (first != 0 ==> Valid(v.t, prev)) && AllocMore(v, first, prev, k) == AllocMore(v0, 0, 0, n)
  }

  lemma ContinuesStart(v0: Vol, n: nat)
    ensures Continues(v0, 0, 0, n, v0, n)
  {
  }

  lemma ContinuesStep(v: Vol, first: int, prev: int, k: nat, v0: Vol, n: nat)
    requires Continues(v, first, prev, k, v0, n) && k > 0
    ensures var a := Alloc(v);
            if a.1 == 0 then AllocMore(v0, 0, 0, n) == (if first != 0 then Free(a.0, first) else a.0, Full)
            else if first == 0 then Continues(a.0, a.1, a.1, k - 1, v0, n)
            else Continues(SetNext(a.0, prev, a.1), first, a.1, k - 1, v0, n)
  {
    hide Alloc, Free;
  }

  lemma ContinuesDone(v: Vol, first: int, prev: int, v0: Vol, n: nat)
    requires Continues(v, first, prev, 0, v0, n)
    ensures AllocMore(v0, 0, 0, n) == (v, Granted(first))
  {
  }

  lemma LaidOutNone(g: Geo, d: Disk, src: seq<u8>)
    requires Sound(g, |d|)
    ensures LaidOut(g, d, [], src)
  {
  }

  lemma BuildingEnds(v0: Vol, v: Vol, chains: Chains, q: seq<int>)
    requires Building(v0, v, chains, q)
    ensures q != [] ==> Valid(v.t, First(q)) && Valid(v.t, Last(q)) && First(q) != 0 && Last(q) in FreeOf(v0.t)
    ensures |v.t| == |v0.t|
  {
    hide Own;
    if q != [] {
      assert q[|q| - 1] in q;
    }
  }

  /** What can be allocated now was free at the start, and is not in the new file yet. */
  lemma FreshIsFree(v0: Vol, v: Vol, chains: Chains, q: seq<int>)
    requires Building(v0, v, chains, q)
    ensures var c := Alloc(v).1;
            c != 0 ==> Valid(v.t, c) && c !in q && c in FreeOf(v0.t)
  {
    hide Own, Neat;
    AllocNeat(v, With(chains, q));
    var c := Alloc(v).1;
    if c != 0 && c in q {
      QIsChain(v, chains, q);
      ChainUsed(v.t, q, c);
    }
  }

  lemma AllocNone(v: Vol)
    ensures Alloc(v).1 == 0 ==> Alloc(v).0 == v
  {
  }

  lemma QIsChain(v: Vol, chains: Chains, q: seq<int>)
    requires Neat(v.t, With(chains, q)) && q != []
    ensures IsChain(v.t, q)
  {
    hide Disjoint, Fits, NoDup, Linked;
    var all, h := With(chains, q), q[0];
    assert h in all && all[h] == q;
    assert Chained(v.t, all);
    assert IsChain(v.t, all[h]) && all[h][0] == h;
  }

  /** Giving the part back touches only clusters that were free at the start. */
  lemma PartIsFree(v0: Vol, v: Vol, chains: Chains, q: seq<int>)
    requires Building(v0, v, chains, q) && q != []
    ensures Zeroed(v.t, q[0]) <= FreeOf(v0.t)
  {
    hide Own;
    QIsChain(v, chains, q);
    FreeChainIs(v.t, q, 0);
  }

  /** The clusters fat_free_chain turns to zero. */
  ghost function Zeroed(t: Table, start: int): iset<int> {
    iset x | Valid(t, x) && FreeChain(t, start, 0).0[x] != t[x]
  }

  lemma {:induction false} HintAside(t: Table, c: int, h1: int, h2: int)
    ensures FreeChain(t, c, h1).0 == FreeChain(t, c, h2).0
    decreases |UsedSet(t)|
  {
    if Valid(t, c) && t[c] != 0 {
      ZeroOne(t, c);
      HintAside(t[c := 0], t[c], if c < h1 then c else h1, if c < h2 then c else h2);
    }
  }

  /** While freeing: `u` comes from `t` by zeroing, and the rest leads to the same end. */
  ghost predicate Reachable(t: Table, u: Table, start: int, c: int) {
    && |u| == |t| && (forall x :: Valid(t, x) ==> u[x] == t[x] || u[x] == 0)
    && FreeChain(u, c, 0).0 == FreeChain(t, start, 0).0
  }

  lemma ReachableStep(t: Table, u: Table, start: int, c: int)
    requires Reachable(t, u, start, c) && Valid(u, c) && u[c] != 0
    ensures c in Zeroed(t, start) && Reachable(t, u[c := 0], start, u[c])
  {
    ZeroOne(u, c);
    FreeClosed(u, c, 0);
    HintAside(u[c := 0], u[c], if c < 0 then c else 0, 0);
  }

  lemma ReachableStart(t: Table, start: int, hint: int)
    ensures Reachable(t, t, start, start) && Remaining(t, start, hint, 0, FreeChain(t, start, hint))
  {
  }

  /** After `freed` clusters the rest of the walk still leads to `goal`. */
  ghost predicate Remaining(u: Table, c: int, hint: int, freed: int, goal: (Table, nat, int)) {
    var r := FreeChain(u, c, hint);
    freed >= 0 && r.0 == goal.0 && r.1 + freed == goal.1 && r.2 == goal.2
  }

  lemma RemainingStep(u: Table, c: int, hint: int, freed: int, goal: (Table, nat, int))
    requires Remaining(u, c, hint, freed, goal) && Valid(u, c) && u[c] != 0
    ensures Remaining(u[c := 0], u[c], if c < hint then c else hint, freed + 1, goal)
  {
  }

  lemma RemainingNone(u: Table, c: int, hint: int, freed: int, goal: (Table, nat, int))
    requires Remaining(u, c, hint, freed, goal) && (!Valid(u, c) || u[c] == 0)
    ensures goal == (u, freed, hint)
  {
  }

  ghost predicate NotMet(t: Table, s: int, k: nat) {
    forall m :: 1 <= m <= k ==> Nth(t, s, m) != Nth(t, s, 2 * m)
  }

  /** While the walk is inside, it has not used up the clusters there are. */
  lemma WalkBound(t: Table, s: int, k: nat, live: bool)
    requires Valid(t, Nth(t, s, k)) && forall i :: 0 <= i < k ==> Valid(t, Nth(t, s, i))
    requires if live then NotMet(t, s, k) else Ends(t, s)
    ensures k + 1 <= |t| - 2
  {
    if Ends(t, s) {
      EndingWalk(t, s, k + 1);
    } else {
      var m := RunnersMeet(t, s);
    }
  }

  lemma HareMoves(t: Table, s: int, k: nat)
    ensures Valid(t, Nth(t, s, k)) ==> Nth(t, s, k + 1) == t[Nth(t, s, k)]
    ensures var h := Nth(t, s, 2 * k);
            && (Valid(t, h) ==> Nth(t, s, 2 * k + 1) == t[h])
            && (Valid(t, h) && Valid(t, t[h]) ==> Nth(t, s, 2 * (k + 1)) == t[t[h]])
            && (Valid(t, h) && !(Valid(t, t[h]) && Valid(t, t[t[h]])) ==> Ends(t, s))
  {
    var h := Nth(t, s, 2 * k);
    if Valid(t, h) {
      assert Nth(t, s, 2 * k + 1) == t[h];
      assert 2 * (k + 1) == 2 * k + 1 + 1;
      if Valid(t, t[h]) {
        assert Nth(t, s, 2 * k + 1 + 1) == t[t[h]];
      }
    }
  }

  /** The slow runner: `v` are the clusters walked over, `clus` comes next. */
  ghost predicate Walked(t: Table, s: int, v: seq<int>, clus: int) {
    && clus == Nth(t, s, |v|)
    && forall i :: 0 <= i < |v| ==> v[i] == Nth(t, s, i) && Valid(t, Nth(t, s, i))
  }

  /** The fast runner after `k` rounds: twice as far, or retired at the end. */
  ghost predicate Chased(t: Table, s: int, k: nat, hare: int, live: bool) {
    if live then hare == Nth(t, s, 2 * k) && NotMet(t, s, k) && (k > 0 ==> Valid(t, hare)) else Ends(t, s)
  }

  lemma WalkRound(t: Table, s: int, v: seq<int>, clus: int, hare: int, live: bool)
    requires Walked(t, s, v, clus) && Chased(t, s, |v|, hare, live) && Valid(t, clus)
    ensures Walked(t, s, v + [clus], t[clus]) && |v| + 1 <= |t| - 2
    ensures live ==> Valid(t, hare)
    ensures if !live || !Valid(t, t[hare]) || !Valid(t, t[t[hare]]) then Chased(t, s, |v| + 1, hare, false)
            else if t[t[hare]] == t[clus] then Cyclic(t, s) && !Ends(t, s)
            else Chased(t, s, |v| + 1, t[t[hare]], true)
  {
    var k := |v|;
    assert live && k == 0 ==> hare == clus;
    WalkBound(t, s, k, live);
    HareMoves(t, s, k);
    if live && Valid(t, t[hare]) && Valid(t, t[t[hare]]) {
      assert 2 * (k + 1) == 2 * k + 2;
      if t[t[hare]] == t[clus] {
        assert Nth(t, s, k + 1) == Nth(t, s, 2 * (k + 1));
        CyclicNeverEnds(t, s);
      }
    }
  }

  lemma WalkStart(t: Table, s: int)
    ensures Walked(t, s, [], s) && Chased(t, s, 0, s, true)
  {
  }

  /** Where a retired hare stands does not matter. */
  lemma Retired(t: Table, s: int, k: nat, hare: int)
    ensures Ends(t, s) ==> Chased(t, s, k, hare, false)
    ensures Chased(t, s, k, hare, false) ==> Ends(t, s)
  {
  }

  lemma WalkDone(t: Table, s: int, visited: seq<int>)
    requires Walked(t, s, visited, Nth(t, s, |visited|)) && !Valid(t, Nth(t, s, |visited|))
    ensures Ends(t, s) && visited == Chain(t, s)
    ensures |visited| <= if |t| >= 2 then |t| - 2 else 0
  {
    PathIsNth(t, s, |t|);
    ChainComplete(t, s);
    var p := Chain(t, s);
    assert |p| == |visited|;
  }

  // ----- Facts the overwrite rests on -----

  lemma SinceSize(g: Geo, a: Disk, h: seq<Disk>, d: Disk, hist: seq<Disk>, touch: iset<int>)
    requires Since(g, a, h, d, hist, touch)
    ensures |d| == |a|
  {
    hide FatTable;
  }

  lemma EntryPlace(g: Geo, d: Disk, chains: Chains, lba: nat, off: nat, dir: int, dirClus: int)
    requires IsEntryOf(g, d, chains, lba, off, dir, dirClus)
    ensures Sound(g, |d|) && g.dataLba <= lba < |d| && off + 32 <= 512
    ensures 2 <= dirClus < g.maxCluster && InCluster(g, lba, dirClus)
    ensures StartOf(d[lba], off) < 2 || StartOf(d[lba], off) in chains
  {
  }

  /** On a disk, live chains are neat ones. */
  lemma LiveIsNeat(g: Geo, d: Disk, chains: Chains)
    requires Sound(g, |d|)
    ensures Live(g, d, chains) <==> Neat(FatTable(g, d), chains)
  {
    hide FatTable, Chained, Disjoint;
  }

  lemma GrantedWhenRoom(v: Vol, chains: Chains, n: nat)
    requires Neat(v.t, chains)
    ensures var a := AllocMore(v, 0, 0, n);
            && (a.1.Granted? <==> n <= |FreeSet(v.t)|)
            && (a.1.Full? ==> a.0.t == v.t && (Own(v, chains) ==> a.0.freeCount == v.freeCount && Own(a.0, chains)))
  {
    hide Own, Neat, AllocMore, FreeSet;
    BuildingStart(v, chains);
    GrantedIfRoom(v, chains, [], v, n);
    var r := AllocMoreKeeps(v, v, chains, [], n);
  }

  /** A refused write: every state on the way agrees off free clusters. */
  lemma NothingChanged(g: Geo, a: Disk, h: seq<Disk>, d: Disk, hist: seq<Disk>, v0: Vol, v: Vol, chains: Chains,
                       lba: nat, off: nat, dir: int, dirClus: int, src: seq<u8>)
    requires Sound(g, |a|) && lba < |a| && off + 32 <= 512
    requires IsEntryOf(g, a, chains, lba, off, dir, dirClus) && Live(g, a, chains) && v0.t == FatTable(g, a)
    requires Since(g, a, h, d, hist, FreeOf(v0.t))
    ensures OldOrNew(g, a, d, chains, lba, off, src)
    ensures h <= hist && AllOldOrNew(g, a, hist, |h|, chains, lba, off, src)
    ensures AllRecover(g, a, hist, |h|, chains, lba, off)
    ensures Own(v, chains) ==> Owns(Sys(v, chains.Keys))
  {
    hide FatTable, AgreesOff, OldOrNew, IsEntryOf, Live, Own, Recovers;
    forall i | |h| <= i < |hist|
      ensures OldOrNew(g, a, hist[i], chains, lba, off, src) && Recovers(g, a, hist[i], chains, lba, off)
    {
      BeforeSwitch(g, a, hist[i], chains, lba, off, dir, dirClus, src);
      BeforeRecovers(g, a, hist[i], chains, lba, off, dir, dirClus);
    }
    BeforeSwitch(g, a, d, chains, lba, off, dir, dirClus, src);
  }

  lemma NewReady(g: Geo, a: Disk, d: Disk, h: seq<Disk>, hist: seq<Disk>, v0: Vol, v: Vol, chains: Chains,
                 q: seq<int>, src: seq<u8>)
    requires Sound(g, |a|) && |d| == |a| && v0.t == FatTable(g, a) && v.t == FatTable(g, d)
    requires Since(g, a, h, d, hist, FreeOf(v0.t)) && Building(v0, v, chains, q)
    requires LaidOut(g, d, q, src) && |src| <= Base(g, |q|)
    ensures Ready(g, a, d, q, src) && AgreesOff(g, a, d, FreeOf(FatTable(g, a)))
  {
    hide FatTable, AgreesOff, LaidOut, Own;
    if q != [] {
      QIsChain(v, chains, q);
    }
  }

  lemma FirstFits(v0: Vol, v: Vol, chains: Chains, q: seq<int>)
    requires Building(v0, v, chains, q)
    ensures 0 <= First(q) < 0x1_0000_0000
  {
    hide Chained, Disjoint, Owned, FreeSet;
  }

  ghost function OldClusters(chains: Chains, e: int): iset<int> {
    iset c | e in chains && c in chains[e]
  }

  /** Freeing the old chain touches only its own clusters. */
  lemma OldPart(v0: Vol, v: Vol, chains: Chains, e: int, q: seq<int>)
    requires Building(v0, v, chains, q)
    ensures e in chains ==> Zeroed(v.t, e) <= OldClusters(chains, e)
  {
    hide Disjoint, Owned, FreeSet, NoDup, Linked;
    if e in chains {
      var all := With(chains, q);
      assert e in all && all[e] == chains[e];
      assert IsChain(v.t, all[e]) && all[e][0] == e;
      FreeChainIs(v.t, chains[e], 0);
    }
  }

  /** Who owns what once the old chain `e` is freed and `f` the new one. */
  ghost predicate OwnsNow(v0: Vol, w: Vol, chains: Chains, f: int, e: int) {
    Own(v0, chains) ==> Owns(Sys(w, chains.Keys + Heads(f) - {e}))
  }

  lemma OwnedAfter(v0: Vol, v: Vol, w: Vol, chains: Chains, q: seq<int>, e: int, f: int)
    requires Building(v0, v, chains, q) && (e < 2 || e in chains) && w == Drop(v, e) && f == First(q)
    ensures OwnsNow(v0, w, chains, f, e)
  {
    hide Own, Drop, Owns, Building, Heads;
    if Own(v0, chains) {
      OwnsAfter(v0, v, chains, q, e);
    }
  }

  lemma OwnsAfter(v0: Vol, v: Vol, chains: Chains, q: seq<int>, e: int)
    requires Building(v0, v, chains, q) && (e < 2 || e in chains) && Own(v0, chains)
    ensures Owns(Sys(Drop(v, e), chains.Keys + Heads(First(q)) - {e}))
  {
    hide Own, Drop;
    WithKeys(chains, q);
    var all := With(chains, q);
    DropKeeps(v, all, e);
    assert (all - {e}).Keys == chains.Keys + Heads(First(q)) - {e};
  }

  // ----- The disk afterwards -----

  lemma DataSame(g: Geo, d: Disk)
    ensures SameData(g, d, d)
  {
  }

  /** The data area is the same but for clusters that are free in `t`. */
  ghost predicate OnlyFree(g: Geo, a: Disk, d: Disk, t: Table) {
    |d| == |a| && forall lba :: g.dataLba <= lba < |a| && !Inside(g, lba, FreeOf(t)) ==> d[lba] == a[lba]
  }

  /** What an overwrite of the entry at (lba, off) makes of the disk `a` and the table of
      `v0`: contents go to free clusters, the entry is patched, and the old chain freed. */
  ghost predicate Rewrote(g: Geo, a: Disk, d: Disk, v0: Vol, v: Vol, lba: nat, off: nat,
                          n: nat, size: u32, date: u16, time: u16)
    requires lba < |a| && off + 32 <= 512
  {
    var r := AllocMore(v0, 0, 0, n);
    match r.1
    case Full => v == r.0 && OnlyFree(g, a, d, v0.t)
    case Granted(f) =>
      && 0 <= f < 0x1_0000_0000 && v == Drop(r.0, StartOf(a[lba], off))
      && OnlyFree(g, a[lba := PatchEntry(a[lba], off, f, size, date, time)], d, v0.t)
  }

  lemma RefusedIs(g: Geo, a: Disk, h: seq<Disk>, d: Disk, hist: seq<Disk>, v0: Vol, v: Vol, lba: nat, off: nat,
                  n: nat, size: u32, date: u16, time: u16)
    requires lba < |a| && off + 32 <= 512 && Since(g, a, h, d, hist, FreeOf(v0.t))
    requires AllocMore(v0, 0, 0, n) == (v, Full)
    ensures Rewrote(g, a, d, v0, v, lba, off, n, size, date, time)
  {
    hide FatTable, AllocMore, FreeOf, Inside;
  }

  lemma RewrittenIs(g: Geo, a: Disk, d1: Disk, d: Disk, v0: Vol, v1: Vol, v: Vol, lba: nat, off: nat,
                    n: nat, size: u32, date: u16, time: u16, f: u32)
    requires lba < |a| && off + 32 <= 512 && AgreesOff(g, a, d1, FreeOf(v0.t)) && d1[lba] == a[lba]
    requires AllocMore(v0, 0, 0, n) == (v1, Granted(f)) && v == Drop(v1, StartOf(a[lba], off))
    requires SameData(g, d1[lba := PatchEntry(d1[lba], off, f, size, date, time)], d) && g.dataLba <= lba
    ensures Rewrote(g, a, d, v0, v, lba, off, n, size, date, time)
    ensures |d| == |a| && d[lba] == PatchEntry(a[lba], off, f, size, date, time)
  {
    hide FatTable, AllocMore, FreeOf, Inside, Drop, StartOf, PatchEntry;
  }

  class Volume {
    const geo: Geo
    var disk: Disk
    var fatbuf: Block
    var fatbufLba: int
    var freeCount: int
    var nextFree: int
    ghost var hist: seq<Disk>

    constructor (geo: Geo, disk: Disk, freeCount: int, nextFree: int)
      requires Sound(geo, |disk|)
      ensures Valid() && this.geo == geo && this.disk == disk && hist == []
      ensures this.freeCount == freeCount && this.nextFree == nextFree
    {
      this.geo := geo;
      this.disk := disk;
      this.freeCount := freeCount;
      this.nextFree := nextFree;
      fatbuf := seq(512, i => 0);
      fatbufLba := -1;
      hist := [];
    }

    /** The cached FAT sector is never stale. */
    ghost predicate Valid()
      reads `disk, `fatbuf, `fatbufLba
    {
      && Sound(geo, |disk|)
      && (fatbufLba == -1 || (geo.fatLba <= fatbufLba < geo.dataLba && fatbufLba < |disk| && fatbuf == disk[fatbufLba]))
    }

    ghost function State(): (v: Vol)
      requires Sound(geo, |disk|)
      reads `disk, `freeCount, `nextFree
      ensures |v.t| == geo.maxCluster && Fits(v.t)
    {
      Vol(FatTable(geo, disk), freeCount, nextFree)
    }

    /** Since the disk was `a` and the history `h`, every disk state agrees with `a`
        off the clusters in `touch`. */
    ghost predicate Tracks(a: Disk, h: seq<Disk>, touch: iset<int>)
      reads `disk, `hist
    {
      Since(geo, a, h, disk, hist, touch)
    }

    /** The FAT copies tell the same. */
    ghost predicate Mirrored()
      requires Sound(geo, |disk|)
      reads `disk
    {
      forall k :: 0 <= k < geo.numFats ==> TableOf(geo, disk, k) == FatTable(geo, disk)
    }

    /** The FSInfo sector, if there is one, holds the free count and the hint. */
    ghost predicate Recorded()
      requires Sound(geo, |disk|)
      reads `disk, `freeCount, `nextFree
    {
      geo.fsinfoLba != 0 ==>
        Rd32(disk[geo.fsinfoLba], 488) == Wrap(freeCount) && Rd32(disk[geo.fsinfoLba], 492) == Wrap(nextFree)
    }

    method WriteBlock(lba: nat, b: Block)
      requires lba < |disk|
      modifies this`disk, this`hist
      ensures disk == old(disk)[lba := b] && hist == old(hist) + [disk]
    {
      disk := disk[lba := b];
      hist := hist + [disk];
    }

    method FatNext(c: int) returns (n: int)
      requires Valid() && 2 <= c < geo.maxCluster
      modifies this`fatbuf, this`fatbufLba
      ensures Valid() && n == State().t[c]
    {
      hide Rd32, EntrySector, EntryOff;
      EntryInside(geo, |disk|, 0, c);
      var lba := geo.fatLba + EntrySector(c);
      if lba != fatbufLba {
        fatbuf := disk[lba];
        fatbufLba := lba;
      }
      n := Rd32(fatbuf, EntryOff(c)) % 0x1000_0000;
    }

    method FatSetNext(c: int, v: int)
      requires Valid() && 2 <= c < geo.maxCluster && 0 <= v < 0x1000_0000
      modifies this`disk, this`hist, this`fatbufLba
      ensures Valid() && State() == SetNext(old(State()), c, v)
      ensures old(Mirrored()) ==> Mirrored()
      ensures Tracks(old(disk), old(hist), iset{c}) && SameData(geo, old(disk), disk)
    {
      hide Patch, EntrySector, EntryOff, TableOf, AgreesOff;
      var k := 0;
      while k < geo.numFats
        invariant 0 <= k <= geo.numFats && Sound(geo, |disk|)
        invariant disk == SetCopies(geo, old(disk), c, v, k)
        invariant old(hist) <= hist && AllAgree(geo, hist, |old(hist)|, old(disk), iset{c})
      {
        EntryInside(geo, |disk|, k, c);
        var lba := EntryLba(geo, k, c);
        WriteBlock(lba, Patch(disk[lba], c, v));
        k := k + 1;
        CopiesAgree(geo, old(disk), c, v, k);
      }
      fatbufLba := -1;
      SetCopiesTable(geo, old(disk), c, v, geo.numFats);
      CopiesAgree(geo, old(disk), c, v, geo.numFats);
    }

    /** The maintained count and hint go to bytes 488 to 495 of the FSInfo sector. */
    method FsinfoFlush()
      requires Valid()
      modifies this`disk, this`hist
      ensures Valid() && State() == old(State())
      ensures old(Mirrored()) ==> Mirrored()
      ensures Tracks(old(disk), old(hist), iset{}) && SameData(geo, old(disk), disk)
      ensures Recorded()
      ensures forall lba :: 0 <= lba < |disk| && lba != geo.fsinfoLba ==> disk[lba] == old(disk)[lba]
    {
      hide Rd32, TableOf, AgreesOff, FsinfoBlock, Wrap, FatTable;
      AgreesSame(geo, disk);
      if geo.fsinfoLba == 0 { return; }
      var b := FsinfoBlock(disk[geo.fsinfoLba], freeCount, nextFree);
      FsinfoHolds(disk[geo.fsinfoLba], freeCount, nextFree);
      FsinfoAgrees(geo, disk, b);
      ghost var was := disk;
      WriteBlock(geo.fsinfoLba, b);
      SameTables(geo, was, disk);
    }

    // ----- fat_alloc_cluster -----

    method AllocCluster() returns (c: int)
      requires Valid()
      modifies this
      ensures Valid() && (State(), c) == Alloc(old(State()))
      ensures old(Mirrored()) ==> Mirrored()
      ensures Tracks(old(disk), old(hist), iset{c}) && SameData(geo, old(disk), disk)
      ensures c == 0 ==> disk == old(disk) && hist == old(hist)
      ensures c != 0 ==> Recorded()
    {
      hide FatTable, Since, Mirrored, Rd32;
      SinceStart(geo, disk, hist, iset{0});
      if geo.maxCluster <= 2 { return 0; }
      var span := geo.maxCluster - 2;
      var base := if 2 <= nextFree < geo.maxCluster then nextFree - 2 else 0;
      ghost var t := State().t;
      var i := 0;
      while i < span
        invariant 0 <= i <= span && Valid() && State() == old(State())
        invariant disk == old(disk) && hist == old(hist)
        invariant Seek(t, base, i) == AllocChoice(t, nextFree)
      {
        c := 2 + (base + i) % span;
        var e := FatNext(c);
        if e == 0 {
          Take(c);
          return;
        }
        i := i + 1;
      }
      return 0;
    }

    /** Marks a free cluster as the end of a chain of its own. */
    method Take(c: int)
      requires Valid() && 2 <= c < geo.maxCluster && c == AllocChoice(State().t, nextFree)
      modifies this
      ensures Valid() && (State(), c) == Alloc(old(State()))
      ensures old(Mirrored()) ==> Mirrored()
      ensures Tracks(old(disk), old(hist), iset{c}) && SameData(geo, old(disk), disk)
      ensures c == 0 ==> disk == old(disk) && hist == old(hist)
      ensures Recorded()
    {
      hide FatTable, Mirrored, AllocChoice, Tracks, Rd32;
      FatSetNext(c, EOC);
      if freeCount != UNKNOWN && freeCount > 0 {
        freeCount := freeCount - 1;
      }
      nextFree := 2 + (c - 2 + 1) % (geo.maxCluster - 2);
      Flush(old(disk), old(hist), iset{c});
    }

    /** FsinfoFlush at the end of a change that began with the disk `a`. */
    method Flush(ghost a: Disk, ghost h: seq<Disk>, ghost touch: iset<int>)
      requires Valid() && Tracks(a, h, touch)
      modifies this`disk, this`hist
      ensures Valid() && State() == old(State())
      ensures old(Mirrored()) ==> Mirrored()
      ensures Tracks(a, h, touch) && SameData(geo, old(disk), disk) && Recorded()
    {
      hide FatTable, Since, Mirrored, Recorded;
      FsinfoFlush();
      SinceThen(geo, a, h, old(disk), old(hist), disk, hist, touch, iset{});
    }

    // ----- fat_free_chain -----

    /** On any table, also a cyclic or cross-linked one, this ends. */
    method FreeChain(start: int)
      requires Valid()
      modifies this
      ensures Valid() && State() == Free(old(State()), start)
      ensures old(Mirrored()) ==> Mirrored()
      ensures Tracks(old(disk), old(hist), Zeroed(old(State()).t, start)) && SameData(geo, old(disk), disk)
      ensures State().t != old(State()).t ==> Recorded()
    {
      hide FatTable, Mirrored, Since, Fits, Recorded, FatChain.FreeChain, Reachable, UsedSet;
      ghost var touch := Zeroed(State().t, start);
      ghost var goal := FatChain.FreeChain(State().t, start, nextFree);
      SinceStart(geo, disk, hist, touch);
      ReachableStart(State().t, start, nextFree);
      var clus, freed := start, 0;
      while 2 <= clus < geo.maxCluster
        invariant Valid() && freeCount == old(freeCount) && freed >= 0
        invariant freed == 0 ==> State().t == old(State()).t
        invariant Remaining(State().t, clus, nextFree, freed, goal)
        invariant Reachable(old(State()).t, State().t, start, clus)
        invariant old(Mirrored()) ==> Mirrored()
        invariant Tracks(old(disk), old(hist), touch) && SameData(geo, old(disk), disk)
        decreases |UsedSet(State().t)|
      {
        var next := FatNext(clus);
        if next == 0 { break; }
        ZeroOne(State().t, clus);
        RemainingStep(State().t, clus, nextFree, freed, goal);
        ReachableStep(old(State()).t, State().t, start, clus);
        SetWithin(clus, 0, old(disk), old(hist), touch);
        freed := freed + 1;
        if clus < nextFree {
          nextFree := clus;
        }
        clus := next;
      }
      RemainingNone(State().t, clus, nextFree, freed, goal);
      if freed > 0 {
        if freeCount != UNKNOWN {
          freeCount := freeCount + freed;
        }
        Flush(old(disk), old(hist), touch);
      }
    }

    /** One table entry, within a change that began with the disk `a`. */
    method SetWithin(c: int, v: int, ghost a: Disk, ghost h: seq<Disk>, ghost touch: iset<int>)
      requires Valid() && 2 <= c < geo.maxCluster && 0 <= v < 0x1000_0000 && c in touch
      requires Tracks(a, h, touch)
      modifies this`disk, this`hist, this`fatbufLba
      ensures Valid() && State() == SetNext(old(State()), c, v)
      ensures old(Mirrored()) ==> Mirrored()
      ensures Tracks(a, h, touch) && SameData(geo, old(disk), disk)
    {
      hide FatTable, Since, Mirrored;
      FatSetNext(c, v);
      SinceThen(geo, a, h, old(disk), old(hist), disk, hist, touch, iset{c});
    }

    method AllocWithin(ghost a: Disk, ghost h: seq<Disk>, ghost touch: iset<int>) returns (c: int)
      requires Valid() && Tracks(a, h, touch)
      requires Alloc(State()).1 != 0 ==> Alloc(State()).1 in touch
      modifies this
      ensures Valid() && (State(), c) == Alloc(old(State()))
      ensures old(Mirrored()) ==> Mirrored()
      ensures Tracks(a, h, touch) && SameData(geo, old(disk), disk)
    {
      hide FatTable, Since, Mirrored, Alloc;
      c := AllocCluster();
      if c != 0 {
        SinceThen(geo, a, h, old(disk), old(hist), disk, hist, touch, iset{c});
      }
    }

    method FreeWithin(start: int, ghost a: Disk, ghost h: seq<Disk>, ghost touch: iset<int>)
      requires Valid() && Tracks(a, h, touch) && Zeroed(State().t, start) <= touch
      modifies this
      ensures Valid() && State() == Free(old(State()), start)
      ensures old(Mirrored()) ==> Mirrored()
      ensures Tracks(a, h, touch) && SameData(geo, old(disk), disk)
    {
      hide FatTable, Since, Mirrored, Free, Zeroed;
      ghost var part := Zeroed(State().t, start);
      FreeChain(start);
      SinceThen(geo, a, h, old(disk), old(hist), disk, hist, touch, part);
    }

    // ----- dir_chain_step -----

    /** One step of the walk and two of the hare; `cycle` when it is caught up. */
    method ChainStep(clus: int, hare: int, live: bool) returns (clus': int, hare': int, live': bool, cycle: bool)
      requires Valid() && 2 <= clus < geo.maxCluster && (live ==> 2 <= hare < geo.maxCluster)
      modifies this`fatbuf, this`fatbufLba
      ensures Valid() && clus' == State().t[clus]
      ensures !live ==> !live' && !cycle
      ensures live ==> var h := State().t[hare];
                       if !FatChain.Valid(State().t, h) || !FatChain.Valid(State().t, State().t[h])
                       then !live' && !cycle
                       else live' && hare' == State().t[h] && (cycle <==> hare' == clus')
    {
      hide FatTable;
      hare', live', cycle := hare, live, false;
      clus' := FatNext(clus);
      if live {
        var h := FatNext(hare);
        if 2 <= h < geo.maxCluster {
          h := FatNext(h);
        }
        if !(2 <= h < geo.maxCluster) {
          live' := false;
        } else {
          hare' := h;
          cycle := hare' == clus';
        }
      }
    }

    /** The walk of every directory scan (without early stop): it always ends, it
        covers a chain that ends once and in order, and it reports a cycle exactly
        when the start leads into one. */
    method WalkChain(start: int) returns (visited: seq<int>, ok: bool)
      requires Valid()
      modifies this`fatbuf, this`fatbufLba
      ensures Valid()
      ensures |visited| <= (if geo.maxCluster >= 2 then geo.maxCluster - 2 else 0)
      ensures ok <==> Ends(State().t, start)
      ensures ok ==> visited == Chain(State().t, start)
      ensures !ok ==>
                Cyclic(State().t, start) && forall i :: 0 <= i < |visited| ==> visited[i] == Nth(State().t, start, i)
    {
      hide FatTable, Ends, Cyclic, Nth, Chased;
      ghost var t := State().t;
      var clus, hare, live := start, start, true;
      visited, ok := [], true;
      WalkStart(t, start);
      while 2 <= clus < geo.maxCluster
        invariant Valid() && |visited| <= (if |t| >= 2 then |t| - 2 else 0)
        invariant ok && Walked(t, start, visited, clus) && Chased(t, start, |visited|, hare, live)
        decreases |t| - |visited|
      {
        WalkRound(t, start, visited, clus, hare, live);
        visited := visited + [clus];
        var cycle;
        clus, hare, live, cycle := ChainStep(clus, hare, live);
        if cycle {
          ok := false;
          return;
        }
        assert !live ==> Chased(t, start, |visited|, hare, false) by { Retired(t, start, |visited|, hare); }
      }
      WalkDone(t, start, visited);
    }

    /** The free clusters counted at mount when FSInfo cannot be trusted. */
    method CountFree() returns (n: nat)
      requires Valid()
      modifies this`fatbuf, this`fatbufLba
      ensures Valid() && n == |FreeSet(State().t)|
    {
      hide FatTable;
      n := 0;
      var c := 2;
      ghost var t := State().t;
      ghost var seen: set<int> := {};
      while c < geo.maxCluster
        invariant 2 <= c && Valid() && n == |seen|
        invariant forall x :: x in seen <==> 2 <= x < c && x < geo.maxCluster && t[x] == 0
      {
        var e := FatNext(c);
        if e == 0 {
          n := n + 1;
          seen := seen + {c};
        }
        c := c + 1;
      }
      assert seen == FreeSet(t);
    }

    // ----- File contents -----

    /** The reading loop of fat32_read_file. */
    method ReadChain(start: int, n: nat) returns (ok: bool, bytes: seq<u8>)
      requires Valid()
      modifies this`fatbuf, this`fatbufLba
      ensures Valid() && (if ok then Some(bytes) else None) == Read(geo, disk, start, n)
    {
      hide FatTable, Read, ReadCluster;
      bytes := [];
      var clus := start;
      BehindNothing(Read(geo, disk, start, n));
      while 2 <= clus < geo.maxCluster && |bytes| < n
        invariant Valid() && |bytes| <= n
        invariant Read(geo, disk, start, n) == Behind(bytes, Read(geo, disk, clus, n - |bytes|))
        decreases n - |bytes|
      {
        bytes := ReadSectors(clus, n, bytes);
        clus := FatNext(clus);
      }
      ReadEnd(geo, disk, clus, n - |bytes|);
      assert bytes + [] == bytes;
      ok := |bytes| == n;
    }

    /** Appends the bytes of one cluster, as many as are still wanted. */
    method ReadSectors(clus: int, n: nat, had: seq<u8>) returns (bytes: seq<u8>)
      requires Sound(geo, |disk|) && 2 <= clus < geo.maxCluster && |had| < n
      ensures |had| < |bytes| <= n && bytes == had + ReadCluster(geo, disk, clus, 0, n - |had|)
      ensures Behind(had, Read(geo, disk, clus, n - |had|))
           == Behind(bytes, Read(geo, disk, FatTable(geo, disk)[clus], n - |bytes|))
    {
      hide FatTable, Read, ReadCluster, ClusterLba;
      bytes := had;
      var s := 0;
      while s < geo.secPerClus && |bytes| < n
        invariant 0 <= s <= geo.secPerClus && |had| <= |bytes| <= n && (s > 0 ==> |had| < |bytes|)
        invariant had + ReadCluster(geo, disk, clus, 0, n - |had|)
               == bytes + ReadCluster(geo, disk, clus, s, n - |bytes|)
      {
        SectorStep(geo, disk, clus, s, n - |bytes|, bytes);
        var sector := disk[ClusterLba(geo, clus) + s];
        var m := if n - |bytes| < 512 then n - |bytes| else 512;
        bytes := bytes + sector[..m];
        s := s + 1;
      }
      ClusterEnd(geo, disk, clus, s, n - |bytes|);
      assert bytes + [] == bytes;
      ReadMore(geo, disk, clus, n - |had|, had);
    }

    method WriteSector(c: int, s: nat, b: Block, ghost a: Disk, ghost h: seq<Disk>, ghost touch: iset<int>)
      requires Valid() && 2 <= c < geo.maxCluster && s < geo.secPerClus && c in touch && Tracks(a, h, touch)
      modifies this`disk, this`hist
      ensures Valid() && State() == old(State()) && (old(Mirrored()) ==> Mirrored())
      ensures disk == PutSector(geo, old(disk), c, s, b)
      ensures Tracks(a, h, touch)
    {
      hide FatTable, TableOf, AgreesOff, ClusterLba;
      PutSectorIs(geo, disk, c, s, b);
      WriteBlock(ClusterLba(geo, c) + s, b);
      SameTables(geo, old(disk), disk);
      assert Since(geo, old(disk), old(hist), disk, hist, iset{c});
      SinceThen(geo, a, h, old(disk), old(hist), disk, hist, touch, iset{c});
    }

    /** Writes the contents from `base` on into the sectors of cluster `c`. */
    method WriteCluster(c: int, src: seq<u8>, base: nat, ghost a: Disk, ghost h: seq<Disk>, ghost touch: iset<int>)
      requires Valid() && 2 <= c < geo.maxCluster && c in touch && Tracks(a, h, touch)
      modifies this`disk, this`hist
      ensures Valid() && State() == old(State()) && (old(Mirrored()) ==> Mirrored())
      ensures Holds(geo, disk, c, src, base, geo.secPerClus)
      ensures Tracks(a, h, touch) && AgreesOff(geo, old(disk), disk, iset{c})
    {
      hide FatTable, Tracks, Mirrored, AgreesOff, Piece, ClusterLba;
      var s := 0;
      AgreesSame(geo, disk);
      AgreesWider(geo, disk, disk, iset{}, iset{c});
      while s < geo.secPerClus && base + 512 * s < |src|
        invariant 0 <= s <= geo.secPerClus && Valid() && State() == old(State())
        invariant old(Mirrored()) ==> Mirrored()
        invariant Holds(geo, disk, c, src, base, s) && Tracks(a, h, touch)
        invariant AgreesOff(geo, old(disk), disk, iset{c})
        decreases geo.secPerClus - s
      {
        ghost var was := disk;
        WriteSector(c, s, Piece(src, base + 512 * s), a, h, touch);
        SectorWritten(geo, old(disk), was, disk, c, s, src, base);
        s := s + 1;
      }
    }

    /** One more cluster for the file under construction, linked behind `prev`. */
    method Extend(first: int, prev: int, ghost v0: Vol, ghost chains: Chains, ghost q: seq<int>,
                  ghost a: Disk, ghost h: seq<Disk>) returns (c: int)
      requires Valid() && Building(v0, State(), chains, q) && first == First(q) && prev == Last(q)
      requires Tracks(a, h, FreeOf(v0.t))
      modifies this
      ensures Valid() && c == Alloc(old(State())).1
      ensures c != 0 ==> Building(v0, State(), chains, q + [c]) && c !in q && c in FreeOf(v0.t)
      ensures State() == if c == 0 || q == [] then Alloc(old(State())).0 else SetNext(Alloc(old(State())).0, prev, c)
      ensures old(Mirrored()) ==> Mirrored()
      ensures Tracks(a, h, FreeOf(v0.t)) && SameData(geo, old(disk), disk)
    {
      hide FatTable, Tracks, Mirrored, Alloc, Own, FreeOf;
      FreshIsFree(v0, State(), chains, q);
      BuildingEnds(v0, State(), chains, q);
      c := AllocWithin(a, h, FreeOf(v0.t));
      if c != 0 {
        Extends(v0, old(State()), chains, q);
        if first != 0 {
          SetWithin(prev, c, a, h, FreeOf(v0.t));
        }
      }
    }

    /** One more cluster with its part of the contents. */
    method AddCluster(first: int, prev: int, src: seq<u8>, k: nat, ghost v0: Vol, ghost chains: Chains,
                      ghost q: seq<int>, ghost a: Disk, ghost h: seq<Disk>) returns (c: int)
      requires Valid() && Building(v0, State(), chains, q) && first == First(q) && prev == Last(q)
      requires Tracks(a, h, FreeOf(v0.t)) && |q| == k && LaidOut(geo, disk, q, src)
      modifies this
      ensures Valid() && c == Alloc(old(State())).1
      ensures c != 0 ==> Building(v0, State(), chains, q + [c]) && LaidOut(geo, disk, q + [c], src)
      ensures State() == if c == 0 || q == [] then Alloc(old(State())).0 else SetNext(Alloc(old(State())).0, prev, c)
      ensures old(Mirrored()) ==> Mirrored()
      ensures Tracks(a, h, FreeOf(v0.t))
    {
      hide FatTable, Since, Mirrored, Own, FreeOf, Building, LaidOut, SameData, Alloc, Holds, AgreesOff;
      BuildingEnds(v0, State(), chains, q);
      c := Extend(first, prev, v0, chains, q, a, h);
      if c != 0 {
        ghost var d := disk;
        LaidOutData(geo, old(disk), d, q, src);
        BuildingEnds(v0, State(), chains, q + [c]);
        WriteCluster(c, src, Base(geo, k), a, h, FreeOf(v0.t));
        LaidOutSame(geo, d, disk, iset{c}, q, src);
        LaidOutMore(geo, disk, q, c, src);
      }
    }

    /** The allocation loop of fat32_write_file: the contents on fresh clusters, or
        table and count as before. */
    method WriteChain(src: seq<u8>, ghost chains: Chains) returns (ok: bool, first: int, ghost q: seq<int>)
      requires Valid() && |src| < 0x1_0000_0000 && Neat(State().t, chains)
      modifies this
      ensures Valid() && (old(Mirrored()) ==> Mirrored())
      ensures (State(), if ok then Granted(first) else Full)
           == AllocMore(old(State()), 0, 0, ClustersFor(|src|, geo.secPerClus))
      ensures ok ==> first == First(q) && |q| == ClustersFor(|src|, geo.secPerClus)
                     && Building(old(State()), State(), chains, q) && LaidOut(geo, disk, q, src)
      ensures Tracks(old(disk), old(hist), FreeOf(old(State()).t))
    {
      hide FatTable, Since, Mirrored, Own, Neat, FreeOf, Building, LaidOut, SameData, Alloc, AllocMore, Continues;
      var n := ClustersFor(|src|, geo.secPerClus);
      ghost var v0, a, h := State(), disk, hist;
      SinceStart(geo, a, h, FreeOf(v0.t));
      first, q := 0, [];
      var prev, k := 0, 0;
      BuildingStart(v0, chains);
      ContinuesStart(v0, n);
      LaidOutNone(geo, disk, src);
      while k < n
        invariant 0 <= k <= n && |q| == k && Valid() && (old(Mirrored()) ==> Mirrored())
        invariant first == First(q) && prev == Last(q) && (q != [] ==> first != 0)
        invariant Building(v0, State(), chains, q) && LaidOut(geo, disk, q, src)
        invariant Continues(State(), first, prev, n - k, v0, n)
        invariant Tracks(a, h, FreeOf(v0.t))
      {
        BuildingEnds(v0, State(), chains, q);
        ghost var v1 := State();
        ContinuesStep(v1, first, prev, n - k, v0, n);
        var c := AddCluster(first, prev, src, k, v0, chains, q, a, h);
        if c == 0 {
          AllocNone(v1);
          if first != 0 {
            PartIsFree(v0, State(), chains, q);
            FreeWithin(first, a, h, FreeOf(v0.t));
          }
          ok := false;
          return;
        }
        BuildingEnds(v0, State(), chains, q + [c]);
        if first == 0 { first := c; }
        q := q + [c];
        prev := c;
        k := k + 1;
      }
      ContinuesDone(State(), first, prev, v0, n);
      ok := true;
    }

    // ----- Overwriting a file -----

    /** The entry at (lba, off) switches to the new contents in one block write. */
    method SwitchEntry(lba: nat, off: nat, first: u32, len: u32, date: u16, time: u16, ghost dirClus: int)
      requires Valid() && geo.dataLba <= lba < |disk| && off + 32 <= 512
      requires 2 <= dirClus < geo.maxCluster && InCluster(geo, lba, dirClus)
      modifies this`disk, this`hist
      ensures Valid() && State() == old(State()) && (old(Mirrored()) ==> Mirrored())
      ensures disk == old(disk)[lba := PatchEntry(old(disk)[lba], off, first, len, date, time)]
      ensures hist == old(hist) + [disk]
    {
      hide TableOf, FatTable, AgreesOff, PatchEntry;
      var b := PatchEntry(disk[lba], off, first, len, date, time);
      EntryWrite(geo, disk, lba, dirClus, b);
      WriteBlock(lba, b);
      SameTables(geo, old(disk), disk);
    }

    /** fat32_write_file on an existing entry at (lba, off) in cluster `dirClus` of
        the directory `dir`: new contents first, then the entry, then the old chain
        is freed.  After every single block write, also when the volume turns out
        to be full, the entry reads as the old contents or as exactly the new ones
        and nothing else that is live has changed. */
    method Overwrite(lba: nat, off: nat, src: seq<u8>, date: u16, time: u16,
                     ghost chains: Chains, ghost dir: int, ghost dirClus: int) returns (ok: bool)
      requires Valid() && Live(geo, disk, chains) && |src| < 0x1_0000_0000 && lba < |disk| && off + 32 <= 512
      requires IsEntryOf(geo, disk, chains, lba, off, dir, dirClus)
      requires |src| <= Base(geo, ClustersFor(|src|, geo.secPerClus))
      modifies this
      ensures Valid() && |disk| == |old(disk)| && (old(Mirrored()) ==> Mirrored())
      ensures ok <==> ClustersFor(|src|, geo.secPerClus) <= |FreeSet(old(State()).t)|
      ensures ok ==> ReadEntry(geo, disk, lba, off) == Some(src)
      ensures !ok ==> State().t == old(State()).t
      ensures OldOrNew(geo, old(disk), disk, chains, lba, off, src)
      ensures old(hist) <= hist && AllOldOrNew(geo, old(disk), hist, |old(hist)|, chains, lba, off, src)
      ensures AllRecover(geo, old(disk), hist, |old(hist)|, chains, lba, off)
      ensures Rewrote(geo, old(disk), disk, old(State()), State(), lba, off,
                      ClustersFor(|src|, geo.secPerClus), |src|, date, time)
      ensures !ok && Own(old(State()), chains) ==> State().freeCount == old(State()).freeCount
      ensures !ok && Own(old(State()), chains) ==> Owns(Sys(State(), chains.Keys))
      ensures ok ==> OwnsNow(old(State()), State(), chains, StartOf(disk[lba], off), old(StartOf(disk[lba], off)))
    {
      hide FatTable, Since, Own, Neat, OldOrNew, AllOldOrNew, AllRecover, Owns, IsEntryOf, ReadEntry, Building,
           LaidOut, Free, StartOf, SizeOf, Ready, Live, Base, ClustersFor, AllocMore, PatchEntry,
           FreeSet, Rewrote, SameData, OwnsNow, Mirrored, Heads, First;
      ghost var v0, a, h, n := State(), disk, hist, ClustersFor(|src|, geo.secPerClus);
      EntryPlace(geo, a, chains, lba, off, dir, dirClus);
      LiveIsNeat(geo, a, chains);
      var first; ghost var q;
      ok, first, q := WriteChain(src, chains);
      SinceSize(geo, a, h, disk, hist, FreeOf(v0.t));
      GrantedWhenRoom(v0, chains, n);
      if !ok {
        NothingChanged(geo, a, h, disk, hist, v0, State(), chains, lba, off, dir, dirClus, src);
        RefusedIs(geo, a, h, disk, hist, v0, State(), lba, off, n, |src|, date, time);
        return;
      }
      ghost var d1, h1, e, v1 := disk, hist, StartOf(a[lba], off), State();
      NewReady(geo, a, d1, h, h1, v0, v1, chains, q, src);
      BeforeSwitch(geo, a, d1, chains, lba, off, dir, dirClus, src);
      var existing := StartOf(disk[lba], off);
      FirstFits(v0, v1, chains, q);
      SwitchEntry(lba, off, first, |src|, date, time, dirClus);
      PatchedEntry(d1[lba], off, first, |src|, date, time);
      ghost var d2, h2 := disk, hist;
      OldPart(v0, v1, chains, e, q);
      ghost var part := OldClusters(chains, e);
      SinceStart(geo, d2, h2, part);
      if existing >= 2 {
        FreeWithin(existing, d2, h2, part);
      } else {
        DataSame(geo, d2);
      }
      RewrittenIs(geo, a, d1, disk, v0, v1, State(), lba, off, n, |src|, date, time, first);
      OwnedAfter(v0, v1, State(), chains, q, e, first);
      EveryPrefix(geo, a, h, d1, h1, disk, hist, chains, lba, off, dir, dirClus, q, src, d2[lba], part);
    }
  }
}
