/** fat32_write_file of fs/fat32.c in place and as a step on the volume: overwriting a file
    through the mounted volume leaves exactly the disk that the step of FatOps describes, so
    what is proved about runs holds of the method. */
module FatInPlace {
  import opened Basics
  import opened Words
  import opened FatChain
  import opened FatOwner
  import opened FatDisk
  import opened FatLfn
  import opened FatNaming
  import opened FatLive
  import opened FatOnDisk
  import FatFiles
  import Contents = FatContents
  import Crash = FatCrash
  import Path = FatPath
  import Runs = FatRuns
  import Dir = FatDir
  import Ops = FatOps
  import Vanish = FatVanish
  import Recovery = FatRecovery
  import FatVolume

  // ----- Slots of a cluster -----

  /** Where the k-th slot from sector `s` of a cluster on is. */
  lemma {:induction false} PlaceAt(g: Geo, c: int, s: nat, k: nat)
    requires s <= g.secPerClus && c >= 2 && k < 16 * (g.secPerClus - s)
    ensures |Path.ClusterPlaces(g, c, s)| == 16 * (g.secPerClus - s)
    ensures Path.ClusterPlaces(g, c, s)[k] == (ClusterLba(g, c) + s + k / 16, 32 * (k % 16))
    decreases g.secPerClus - s
  {
    hide ClusterLba;
    PlacesCount(g, c, s);
    if k >= 16 {
      PlaceAt(g, c, s + 1, k - 16);
    }
  }

  /** No block of the cluster has changed. */
  ghost predicate SameBlocks(g: Geo, a: Disk, d: Disk, c: int) {
    |d| == |a| && forall b :: 0 <= b < |a| && Contents.InCluster(g, b, c) ==> d[b] == a[b]
  }

  lemma ClusterSame(g: Geo, a: Disk, d: Disk, c: int)
    requires Sound(g, |a|) && SameBlocks(g, a, d, c)
    ensures ClusterSlots(g, d, c) == ClusterSlots(g, a, c)
  {
    hide ClusterLba, Contents.InCluster;
    if 2 <= c < g.maxCluster {
      Path.ClusterPlacesIn(g, |a|, c, 0);
      var ps := Path.ClusterPlaces(g, c, 0);
      forall i | 0 <= i < |ps|
        ensures Path.SlotAt(d, ps[i]) == Path.SlotAt(a, ps[i])
      {
        assert ps[i] in ps;
      }
    }
  }

  /** One slot of the block `lba` has changed, and no other block of the cluster. */
  ghost predicate SamePatched(g: Geo, a: Disk, d: Disk, c: int, lba: nat, off: nat)
    requires lba < |a| && off + 32 <= 512
  {
    && |d| == |a|
    && (forall b :: 0 <= b < |a| && b != lba && Contents.InCluster(g, b, c) ==> d[b] == a[b])
    && (forall i :: 0 <= i < 512 && !(off <= i < off + 32) ==> d[lba][i] == a[lba][i])
  }

  lemma ClusterPatched(g: Geo, a: Disk, d: Disk, c: int, k: nat, lba: nat, off: nat)
    requires Sound(g, |a|) && 2 <= c < g.maxCluster && k < 16 * g.secPerClus && lba < |a| && off + 32 <= 512
    requires |Path.ClusterPlaces(g, c, 0)| == 16 * g.secPerClus && Path.ClusterPlaces(g, c, 0)[k] == (lba, off)
    requires SamePatched(g, a, d, c, lba, off)
    ensures |ClusterSlots(g, a, c)| == 16 * g.secPerClus
    ensures ClusterSlots(g, d, c) == ClusterSlots(g, a, c)[k := d[lba][off..off + 32]]
  {
    hide ClusterLba, Contents.InCluster;
    Path.ClusterPlacesIn(g, |a|, c, 0);
    var ps := Path.ClusterPlaces(g, c, 0);
    forall i | 0 <= i < |ps| && i != k
      ensures Path.SlotAt(d, ps[i]) == Path.SlotAt(a, ps[i])
    {
      assert ps[i] in ps;
      PlaceAt(g, c, 0, i);
      PlaceAt(g, c, 0, k);
      if ps[i].0 == lba {
        OtherSlot(i, k);
        SliceSame(d[lba], a[lba], off, ps[i].1);
      }
    }
  }

  lemma OtherSlot(i: nat, k: nat)
    requires i != k && i / 16 == k / 16
    ensures 32 * (i % 16) + 32 <= 32 * (k % 16) || 32 * (k % 16) + 32 <= 32 * (i % 16)
  {
  }

  lemma SliceSame(x: Block, y: Block, off: nat, at: nat)
    requires off + 32 <= 512 && at + 32 <= 512 && (at + 32 <= off || off + 32 <= at)
    requires forall i :: 0 <= i < 512 && !(off <= i < off + 32) ==> x[i] == y[i]
    ensures x[at..at + 32] == y[at..at + 32]
  {
  }

  // ----- Slots of a directory -----

  function SetSlot(d: Slots, k: nat, x: Slot): Slots
    requires k < |d|
  {
    d[k := x]
  }

  lemma {:induction false} PlacesLength(g: Geo, q: seq<int>)
    requires forall i :: 0 <= i < |q| ==> 2 <= q[i]
    ensures |Path.Places(g, q)| == Span(q, 16 * g.secPerClus)
    decreases |q|
  {
    if q != [] {
      PlacesCount(g, q[0], 0);
      PlacesLength(g, q[1..]);
    }
  }

  /** Slots written back over the clusters they came from. */
  lemma {:induction false} StoredSelf(area: seq<Slots>, q: seq<int>, per: nat)
    requires InArea(area, q, per)
    ensures Stored(area, q, Flat(area, q), per) == area
    decreases |q|
  {
    if q != [] {
      assert area[q[0] := area[q[0]]] == area;
      assert Flat(area, q)[..per] == area[q[0]] && Flat(area, q)[per..] == Flat(area, q[1..]);
      StoredSelf(area, q[1..], per);
    }
  }

  /** A slot changes in the first cluster of a directory ... */
  lemma StoredHere(area: seq<Slots>, q: seq<int>, per: nat, pos: nat, x: Slot)
    requires InArea(area, q, per) && NoDup(q) && q != [] && pos < per
    ensures pos < |Flat(area, q)| && Flat(area, q)[pos] == area[q[0]][pos]
    ensures Stored(area, q, Flat(area, q)[pos := x], per) == area[q[0] := SetSlot(area[q[0]], pos, x)]
  {
    var d, rest := Flat(area, q), q[1..];
    var one := SetSlot(area[q[0]], pos, x);
    var a1 := area[q[0] := one];
    FlatLength(area, q, per);
    assert d[pos := x][..per] == one && d[pos := x][per..] == Flat(area, rest);
    hide SetSlot;
    NotHead(q);
    FlatSame(area, a1, rest);
    StoredSelf(a1, rest, per);
  }

  lemma NotHead(q: seq<int>)
    requires NoDup(q) && q != []
    ensures q[0] !in q[1..] && NoDup(q[1..])
  {
  }

  /** ... or in a later one. */
  lemma StoredThere(area: seq<Slots>, q: seq<int>, per: nat, pos: nat, x: Slot)
    requires InArea(area, q, per) && q != [] && per <= pos < |Flat(area, q)|
    ensures |Flat(area, q)| == per + |Flat(area, q[1..])| && Flat(area, q)[pos] == Flat(area, q[1..])[pos - per]
    ensures Stored(area, q, Flat(area, q)[pos := x], per)
         == Stored(area, q[1..], Flat(area, q[1..])[pos - per := x], per)
  {
    var d, rest := Flat(area, q), Flat(area, q[1..]);
    assert d[pos := x][..per] == area[q[0]] && d[pos := x][per..] == rest[pos - per := x];
    assert area[q[0] := area[q[0]]] == area;
  }

  /** Writing the slots of a directory back with one of them changed changes one slot of
      one cluster, at the place the directory has it. */
  lemma {:induction false} StoredOne(g: Geo, area: seq<Slots>, q: seq<int>, pos: nat, x: Slot) returns (c: int, k: nat)
    requires InArea(area, q, 16 * g.secPerClus) && NoDup(q) && pos < Span(q, 16 * g.secPerClus)
    requires forall i :: 0 <= i < |q| ==> 2 <= q[i]
    ensures |Flat(area, q)| == Span(q, 16 * g.secPerClus)
    ensures c in q && c >= 2 && c < |area| && k < 16 * g.secPerClus == |area[c]| && Flat(area, q)[pos] == area[c][k]
    ensures pos < |Path.Places(g, q)| && |Path.ClusterPlaces(g, c, 0)| == 16 * g.secPerClus
    ensures Path.Places(g, q)[pos] == Path.ClusterPlaces(g, c, 0)[k]
    ensures Stored(area, q, Flat(area, q)[pos := x], 16 * g.secPerClus) == area[c := SetSlot(area[c], k, x)]
    decreases |q|
  {
    hide Path.ClusterPlaces, Flat, Stored, NoDup, SetSlot;
    var per := 16 * g.secPerClus;
    FlatLength(area, q, per);
    PlacesLength(g, q);
    PlacesCount(g, q[0], 0);
    if pos < per {
      StoredHere(area, q, per, pos, x);
      c, k := q[0], pos;
    } else {
      StoredThere(area, q, per, pos, x);
      NotHead(q);
      c, k := StoredOne(g, area, q[1..], pos - per, x);
    }
  }

  // ----- Chains that a write leaves alone -----

  lemma NeatChain(t: Table, chains: Chains, h: int)
    requires Neat(t, chains) && h in chains
    ensures Chain(t, h) == chains[h] && NoDup(chains[h])
    ensures forall i :: 0 <= i < |chains[h]| ==> 2 <= chains[h][i] < |t| && t[chains[h][i]] != 0
  {
    hide Disjoint, NoDup, Linked;
    assert IsChain(t, chains[h]) && chains[h][0] == h;
    ChainShort(t, chains[h]);
    ChainNoDup(t, chains[h]);
    forall i | 0 <= i < |chains[h]|
      ensures 2 <= chains[h][i] < |t| && t[chains[h][i]] != 0
    {
      ChainUsed(t, chains[h], chains[h][i]);
    }
  }

  lemma ChainNoDup(t: Table, q: seq<int>)
    requires IsChain(t, q)
    ensures NoDup(q)
  {
    hide NoDup, Linked;
  }

  /** The allocation of new clusters leaves the other chains as they are. */
  lemma StillChain(v: Vol, chains: Chains, n: nat, h: int)
    requires Neat(v.t, chains) && h in chains
    ensures var a := AllocMore(v, 0, 0, n);
            |a.0.t| == |v.t| && Chain(a.0.t, h) == Chain(v.t, h) == chains[h]
  {
    hide Neat, AllocMore, Chain;
    NeatChain(v.t, chains, h);
    BuildingStart(v, chains);
    var r := AllocMoreKeeps(v, v, chains, [], n);
    var a := AllocMore(v, 0, 0, n);
    if a.1.Granted? {
      BuiltNeat(v, a.0, chains, r);
      NeatChain(a.0.t, With(chains, r), h);
    }
  }

  lemma BuiltNeat(v0: Vol, v: Vol, chains: Chains, q: seq<int>)
    requires Building(v0, v, chains, q)
    ensures Neat(v.t, With(chains, q)) && |v.t| == |v0.t|
    ensures forall h :: h in chains ==> h in With(chains, q) && With(chains, q)[h] == chains[h]
  {
    hide Neat, Own;
  }

  // ----- Only free clusters have changed -----

  lemma OneOwner(g: Geo, b: int, c: int, e: int)
    requires Contents.InCluster(g, b, c) && Contents.InCluster(g, b, e)
    ensures c == e
  {
    if c != e {
      ClustersApart(g, c, b - ClusterLba(g, c), e, b - ClusterLba(g, e));
    }
  }

  lemma KeptBlocks(g: Geo, a: Disk, d: Disk, t: Table, c: int)
    requires Sound(g, |a|) && FatVolume.OnlyFree(g, a, d, t) && 2 <= c < g.maxCluster && c !in Crash.FreeOf(t)
    ensures SameBlocks(g, a, d, c)
  {
    hide Contents.InCluster;
    forall b | 0 <= b < |a| && Contents.InCluster(g, b, c)
      ensures d[b] == a[b]
    {
      InData(g, |a|, b, c);
      if Contents.Inside(g, b, Crash.FreeOf(t)) {
        var e :| e in Crash.FreeOf(t) && Contents.InCluster(g, b, e);
        OneOwner(g, b, c, e);
      }
    }
  }

  lemma InData(g: Geo, n: nat, b: int, c: int)
    requires Sound(g, n) && 2 <= c < g.maxCluster && Contents.InCluster(g, b, c)
    ensures g.dataLba <= b < n
  {
    ClusterInside(g, n, c, b - ClusterLba(g, c));
  }

  /** The data area of the disk, read as slots, after a write that was refused. */
  lemma AreaRefused(g: Geo, a: Disk, d: Disk, freeCount: int, hint: int)
    requires Sound(g, |a|) && g.secPerClus >= 1 && FatVolume.OnlyFree(g, a, d, FatTable(g, a))
    ensures |d| == |a| && AreaOf(g, d) == Ops.Scribbled(OnDisk(g, a, freeCount, hint), AreaOf(g, d))
  {
    var s, area := OnDisk(g, a, freeCount, hint), AreaOf(g, d);
    forall c | 0 <= c < g.maxCluster
      ensures area[c] == Ops.Scribbled(s, area)[c]
    {
      AreaKept(g, a, d, freeCount, hint, c);
    }
  }

  /** Cluster `c` is free, or its slots are those of before. */
  lemma AreaKept(g: Geo, a: Disk, d: Disk, freeCount: int, hint: int, c: int)
    requires Sound(g, |a|) && g.secPerClus >= 1 && FatVolume.OnlyFree(g, a, d, FatTable(g, a)) && 0 <= c < g.maxCluster
    ensures |d| == |a| && AreaOf(g, d)[c] == Ops.Scribbled(OnDisk(g, a, freeCount, hint), AreaOf(g, d))[c]
  {
    hide FatTable, FatVolume.OnlyFree, SameBlocks, ClusterSlots;
    assert |d| == |a| by { FreeSize(g, a, d, FatTable(g, a)); }
    ShapedOnDisk(g, d, freeCount, hint);
    var t := FatTable(g, a);
    if c < 2 {
      SmallSlots(g, a, d, c);
    } else if t[c] != 0 {
      KeptBlocks(g, a, d, t, c);
      ClusterSame(g, a, d, c);
    }
  }

  lemma FreeSize(g: Geo, a: Disk, d: Disk, t: Table)
    requires FatVolume.OnlyFree(g, a, d, t)
    ensures |d| == |a|
  {
  }

  lemma SmallSlots(g: Geo, a: Disk, d: Disk, c: int)
    requires Sound(g, |a|) && |d| == |a| && c < 2
    ensures ClusterSlots(g, d, c) == ClusterSlots(g, a, c)
  {
  }

  // ----- The entry has changed -----

  /** The entry's slot is slot `k` of cluster `c`, which is in use. */
  ghost predicate SlotOf(g: Geo, a: Disk, c: int, k: nat, lba: nat, off: nat)
    requires Sound(g, |a|)
  {
    && 2 <= c < g.maxCluster && FatTable(g, a)[c] != 0 && k < 16 * g.secPerClus && lba < |a| && off + 32 <= 512
    && |Path.ClusterPlaces(g, c, 0)| == 16 * g.secPerClus && Path.ClusterPlaces(g, c, 0)[k] == (lba, off)
  }

  lemma SlotInside(g: Geo, a: Disk, c: int, k: nat, lba: nat, off: nat)
    requires Sound(g, |a|) && SlotOf(g, a, c, k, lba, off)
    ensures Contents.InCluster(g, lba, c) && off <= 480 && c !in Crash.FreeOf(FatTable(g, a))
    ensures ClusterSlots(g, a, c)[k] == a[lba][off..off + 32]
  {
    Path.ClusterPlacesIn(g, |a|, c, 0);
    assert Path.ClusterPlaces(g, c, 0)[k] in Path.ClusterPlaces(g, c, 0);
  }

  /** The disk with nothing but the entry overwritten. */
  function Switched(a: Disk, lba: nat, off: nat, f: u32, size: u32, date: u16, time: u16): Disk
    requires lba < |a| && off + 32 <= 512
  {
    a[lba := Contents.PatchEntry(a[lba], off, f, size, date, time)]
  }

  lemma SwitchedBlock(a: Disk, lba: nat, off: nat, f: u32, size: u32, date: u16, time: u16)
    requires lba < |a| && off + 32 <= 512
    ensures var d := Switched(a, lba, off, f, size, date, time);
            && |d| == |a| && (forall b :: 0 <= b < |a| && b != lba ==> d[b] == a[b])
            && (forall i :: 0 <= i < 512 && !(off <= i < off + 32) ==> d[lba][i] == a[lba][i])
            && d[lba][off..off + 32] == Runs.Repointed(a[lba][off..off + 32], f, size, date, time)
  {
    hide Contents.PatchEntry, Runs.Repointed;
    Contents.PatchedEntry(a[lba], off, f, size, date, time);
    PatchIsRepoint(a[lba], off, f, size, date, time);
  }

  /** The cluster with the entry: one slot is overwritten. */
  lemma EntryCluster(g: Geo, a: Disk, d: Disk, c: int, k: nat, lba: nat, off: nat, f: u32, size: u32, date: u16,
                     time: u16)
    requires Sound(g, |a|) && SlotOf(g, a, c, k, lba, off)
    requires FatVolume.OnlyFree(g, Switched(a, lba, off, f, size, date, time), d, FatTable(g, a))
    ensures |d| == |a| && k < |ClusterSlots(g, a, c)|
    ensures ClusterSlots(g, d, c)
         == SetSlot(ClusterSlots(g, a, c), k, Runs.Repointed(ClusterSlots(g, a, c)[k], f, size, date, time))
  {
    hide FatTable, FatVolume.OnlyFree, Switched, Runs.Repointed, ClusterSlots, Contents.InCluster;
    var m := Switched(a, lba, off, f, size, date, time);
    SwitchedBlock(a, lba, off, f, size, date, time);
    SlotInside(g, a, c, k, lba, off);
    KeptBlocks(g, m, d, FatTable(g, a), c);
    ClusterPatched(g, a, d, c, k, lba, off);
  }

  /** Any other cluster in use. */
  lemma OtherCluster(g: Geo, a: Disk, d: Disk, c: int, k: nat, lba: nat, off: nat, f: u32, size: u32, date: u16,
                     time: u16, e: int)
    requires Sound(g, |a|) && SlotOf(g, a, c, k, lba, off)
    requires FatVolume.OnlyFree(g, Switched(a, lba, off, f, size, date, time), d, FatTable(g, a))
    requires 2 <= e < g.maxCluster && FatTable(g, a)[e] != 0 && e != c
    ensures |d| == |a| && ClusterSlots(g, d, e) == ClusterSlots(g, a, e)
  {
    hide FatTable, FatVolume.OnlyFree, Switched, Runs.Repointed, ClusterSlots, Contents.InCluster;
    var m := Switched(a, lba, off, f, size, date, time);
    SwitchedBlock(a, lba, off, f, size, date, time);
    SlotInside(g, a, c, k, lba, off);
    KeptBlocks(g, m, d, FatTable(g, a), e);
    forall b | 0 <= b < |a| && Contents.InCluster(g, b, e)
      ensures d[b] == a[b]
    {
      if b == lba {
        OneOwner(g, b, c, e);
      }
    }
    ClusterSame(g, a, d, e);
  }

  /** The data area after a write that went through. */
  lemma AreaSwitched(g: Geo, a: Disk, d: Disk, freeCount: int, hint: int, c: int, k: nat, lba: nat, off: nat,
                     f: u32, size: u32, date: u16, time: u16)
    requires Sound(g, |a|) && g.secPerClus >= 1 && SlotOf(g, a, c, k, lba, off)
    requires FatVolume.OnlyFree(g, Switched(a, lba, off, f, size, date, time), d, FatTable(g, a))
    ensures |d| == |a|
    ensures var area := Ops.Scribbled(OnDisk(g, a, freeCount, hint), AreaOf(g, d));
            && c < |area| && k < |area[c]|
            && AreaOf(g, d) == area[c := SetSlot(area[c], k, Runs.Repointed(area[c][k], f, size, date, time))]
  {
    hide FatTable, FatVolume.OnlyFree, Switched, Runs.Repointed, ClusterSlots, SetSlot;
    EntryCluster(g, a, d, c, k, lba, off, f, size, date, time);
    ShapedOnDisk(g, d, freeCount, hint);
    var t, area := FatTable(g, a), Ops.Scribbled(OnDisk(g, a, freeCount, hint), AreaOf(g, d));
    forall e | 0 <= e < g.maxCluster && e != c
      ensures ClusterSlots(g, d, e) == area[e]
    {
      if e < 2 {
        SmallSlots(g, a, d, e);
      } else if t[e] != 0 {
        OtherCluster(g, a, d, c, k, lba, off, f, size, date, time, e);
      }
    }
  }

  /** A chain of clusters in use. */
  ghost predicate InUse(t: Table, q: seq<int>) {
    NoDup(q) && forall i :: 0 <= i < |q| ==> 2 <= q[i] < |t| && t[q[i]] != 0
  }

  /** ... as the directory with one slot overwritten, stored over its clusters. */
  lemma AreaStored(g: Geo, a: Disk, d: Disk, freeCount: int, hint: int, q: seq<int>, pos: nat, lba: nat, off: nat,
                   f: u32, size: u32, date: u16, time: u16)
    requires Sound(g, |a|) && g.secPerClus >= 1 && InUse(FatTable(g, a), q) && lba < |a| && off + 32 <= 512
    requires pos < |Path.Places(g, q)| && Path.Places(g, q)[pos] == (lba, off)
    requires FatVolume.OnlyFree(g, Switched(a, lba, off, f, size, date, time), d, FatTable(g, a))
    ensures |d| == |a|
    ensures var area := Ops.Scribbled(OnDisk(g, a, freeCount, hint), AreaOf(g, d));
            var dd := Flat(area, q);
            && pos < |dd|
            && AreaOf(g, d)
               == Stored(area, q, dd[pos := Runs.Repointed(dd[pos], f, size, date, time)], 16 * g.secPerClus)
  {
    hide FatTable, FatVolume.OnlyFree, Switched, Runs.Repointed, SetSlot, Path.Places, Path.ClusterPlaces, NoDup,
         Flat, Stored, Ops.Scribbled;
    FreeSize(g, Switched(a, lba, off, f, size, date, time), d, FatTable(g, a));
    SwitchedBlock(a, lba, off, f, size, date, time);
    var area := Ops.Scribbled(OnDisk(g, a, freeCount, hint), AreaOf(g, d));
    ScribbledArea(g, a, d, freeCount, hint, q);
    PlacesLength(g, q);
    FlatLength(area, q, 16 * g.secPerClus);
    var c, k := StoredOne(g, area, q, pos, Runs.Repointed(Flat(area, q)[pos], f, size, date, time));
    AreaSwitched(g, a, d, freeCount, hint, c, k, lba, off, f, size, date, time);
  }

  lemma ScribbledArea(g: Geo, a: Disk, d: Disk, freeCount: int, hint: int, q: seq<int>)
    requires Sound(g, |a|) && g.secPerClus >= 1 && |d| == |a| && InUse(FatTable(g, a), q)
    ensures InArea(Ops.Scribbled(OnDisk(g, a, freeCount, hint), AreaOf(g, d)), q, 16 * g.secPerClus)
  {
    hide FatTable, ClusterSlots, NoDup;
    ShapedOnDisk(g, a, freeCount, hint);
  }

  // ----- The step -----

  /** The path leads to directory `dir`, and the last component to the file with its entry
      at (lba, off). */
  ghost predicate FileAt(g: Geo, a: Disk, path: seq<Name>, leaf: Name, dir: int, lba: nat, off: nat)
    requires Sound(g, |a|)
  {
    && leaf != [] && lba < |a| && off + 32 <= 512 && Path.Walk(g, a, g.rootCluster, path) == Some(dir)
    && match Path.Lookup(g, a, dir, leaf)
       case None => false
       case Some(it) =>
         !Dir.IsDirItem(it) && it.pos < |Path.DirPlaces(g, a, dir)| && Path.DirPlaces(g, a, dir)[it.pos] == (lba, off)
  }

  /** What FatOps finds there. */
  lemma FoundThere(g: Geo, a: Disk, freeCount: int, hint: int, path: seq<Name>, leaf: Name, dir: int, lba: nat,
                   off: nat)
    requires Sound(g, |a|) && FileAt(g, a, path, leaf, dir, lba, off)
    ensures var s := OnDisk(g, a, freeCount, hint);
            && Walk(s, s.root, path) == Some(dir) && Lookup(s, dir, leaf).Some?
            && !Dir.IsDirItem(Lookup(s, dir, leaf).value)
            && Lookup(s, dir, leaf).value.clus == Contents.StartOf(a[lba], off)
            && Lookup(s, dir, leaf).value.pos < |Path.DirPlaces(g, a, dir)|
            && Path.DirPlaces(g, a, dir)[Lookup(s, dir, leaf).value.pos] == (lba, off)
  {
    hide FatTable, DirOf, Path.DirSlots, Path.DirPlaces, Dir.Items, Contents.StartOf;
    WalkOnDisk(g, a, freeCount, hint, g.rootCluster, path);
    DirOnDisk(g, a, freeCount, hint, dir);
    Path.FoundAt(g, a, dir, leaf);
  }

  /** The file's slot in the clusters of `dir` overwritten, and the old chain freed. */
  ghost function Overwritten(s: Volume, area: seq<Slots>, dir: int, op: Ops.Op, v: Vol, f: int, it: Dir.Item): Volume
    requires op.Write? && it.pos < |Flat(area, Chain(v.t, dir))|
  {
    var q := Chain(v.t, dir);
    var dd := Flat(area, q);
    var slot := Runs.Repointed(dd[it.pos], Ops.Cl(f), op.size, op.date, op.time);
    s.(v := FatFiles.Drop(v, it.clus), area := Stored(area, q, dd[it.pos := slot], s.per))
  }

  /** The operation that overwrites this file, on a volume on which it is found. */
  lemma WriteIs(s: Volume, dir: int, op: Ops.Op)
    requires Shaped(s) && op.Write? && op.leaf != [] && Walk(s, s.root, op.path) == Some(dir)
    requires Lookup(s, dir, op.leaf).Some? && !Dir.IsDirItem(Lookup(s, dir, op.leaf).value)
    ensures var r, area, it := AllocMore(s.v, 0, 0, op.n), Ops.Scribbled(s, op.junk), Lookup(s, dir, op.leaf).value;
            var dd := Flat(area, Chain(r.0.t, dir));
            && (r.1.Full? ==> Ops.Step(s, op) == s.(v := r.0, area := area))
            && (r.1.Granted? && it.pos < |dd| ==> Ops.Step(s, op) == Overwritten(s, area, dir, op, r.0, r.1.first, it))
  {
    Ops.StepIs(s, op);
    hide Shaped, Walk, Lookup, AllocMore, Ops.Scribbled, Stored, Flat, Chain, Runs.Repointed, Ops.Step, Ops.Cl,
         FatFiles.Drop;
    var r := AllocMore(s.v, 0, 0, op.n);
    if r.1.Granted? {
      var b := s.(v := r.0, area := Ops.Scribbled(s, op.junk));
      assert Ops.StepIn(s, dir, op) == Ops.Commit(s, b, dir, op, r.1.first);
    }
  }

  /** Overwriting a file on the disk is the step of FatOps, for whatever the write leaves in
      the data area. */
  lemma OverwriteIsStep(g: Geo, a: Disk, d: Disk, v0: Vol, v: Vol, path: seq<Name>, leaf: Name, dir: int,
                        lba: nat, off: nat, n: nat, size: u32, date: u16, time: u16, chains: Chains)
    requires Sound(g, |a|) && g.secPerClus >= 1 && FileAt(g, a, path, leaf, dir, lba, off)
    requires v0.t == FatTable(g, a) && Neat(v0.t, chains) && dir in chains
    requires |d| == |a| && v.t == FatTable(g, d) && FatVolume.Rewrote(g, a, d, v0, v, lba, off, n, size, date, time)
    ensures Shaped(OnDisk(g, a, v0.freeCount, v0.nextFree))
    ensures OnDisk(g, d, v.freeCount, v.nextFree)
         == Ops.Step(OnDisk(g, a, v0.freeCount, v0.nextFree), Ops.Write(path, leaf, n, size, date, time, AreaOf(g, d)))
  {
    assert leaf != [];
    hide FatTable, Neat, OnDisk, AreaOf, AllocMore, Lookup, Shaped, Ops.Step, Ops.Scribbled, Walk, FileAt, Overwritten;
    ShapedOnDisk(g, a, v0.freeCount, v0.nextFree);
    hide FatVolume.Rewrote, Flat, Chain, Contents.StartOf;
    var s, op := OnDisk(g, a, v0.freeCount, v0.nextFree), Ops.Write(path, leaf, n, size, date, time, AreaOf(g, d));
    FoundThere(g, a, v0.freeCount, v0.nextFree, path, leaf, dir, lba, off);
    StartState(g, a, v0);
    WriteIs(s, dir, op);
    if AllocMore(v0, 0, 0, n).1.Full? {
      RefusedState(g, a, d, v0, v, lba, off, n, size, date, time);
    } else {
      SwitchedState(g, a, d, v0, v, op, dir, Lookup(s, dir, leaf).value, lba, off, chains);
    }
  }

  lemma StartState(g: Geo, a: Disk, v0: Vol)
    requires Sound(g, |a|) && v0.t == FatTable(g, a)
    ensures OnDisk(g, a, v0.freeCount, v0.nextFree).v == v0
  {
  }

  lemma RefusedState(g: Geo, a: Disk, d: Disk, v0: Vol, v: Vol, lba: nat, off: nat, n: nat, size: u32, date: u16,
                     time: u16)
    requires Sound(g, |a|) && g.secPerClus >= 1 && v0.t == FatTable(g, a) && lba < |a| && off + 32 <= 512
    requires |d| == |a| && v.t == FatTable(g, d) && FatVolume.Rewrote(g, a, d, v0, v, lba, off, n, size, date, time)
    requires AllocMore(v0, 0, 0, n).1.Full?
    ensures var s := OnDisk(g, a, v0.freeCount, v0.nextFree);
            OnDisk(g, d, v.freeCount, v.nextFree)
            == s.(v := AllocMore(v0, 0, 0, n).0, area := Ops.Scribbled(s, AreaOf(g, d)))
  {
    hide FatTable, FatVolume.OnlyFree, AreaOf, AllocMore, Ops.Scribbled;
    AreaRefused(g, a, d, v0.freeCount, v0.nextFree);
  }

  lemma SwitchedState(g: Geo, a: Disk, d: Disk, v0: Vol, v: Vol, op: Ops.Op, dir: int, it: Dir.Item,
                      lba: nat, off: nat, chains: Chains)
    requires Sound(g, |a|) && g.secPerClus >= 1 && v0.t == FatTable(g, a) && lba < |a| && off + 32 <= 512
    requires |d| == |a| && v.t == FatTable(g, d) && op.Write?
    requires FatVolume.Rewrote(g, a, d, v0, v, lba, off, op.n, op.size, op.date, op.time)
    requires AllocMore(v0, 0, 0, op.n).1.Granted? && Neat(v0.t, chains) && dir in chains
    requires it.clus == Contents.StartOf(a[lba], off)
    requires it.pos < |Path.DirPlaces(g, a, dir)| && Path.DirPlaces(g, a, dir)[it.pos] == (lba, off)
    ensures var s, r := OnDisk(g, a, v0.freeCount, v0.nextFree), AllocMore(v0, 0, 0, op.n);
            var area := Ops.Scribbled(s, AreaOf(g, d));
            && it.pos < |Flat(area, Chain(r.0.t, dir))|
            && OnDisk(g, d, v.freeCount, v.nextFree) == Overwritten(s, area, dir, op, r.0, r.1.first, it)
  {
    hide FatTable, FatVolume.OnlyFree, Neat, AreaOf, AllocMore, Chain, Ops.Scribbled, Stored, Flat, Path.DirPlaces;
    hide Path.Places, FatFiles.Drop, Contents.StartOf, Contents.PatchEntry, Runs.Repointed;
    StillChain(v0, chains, op.n, dir);
    DirChain(g, a, chains, dir);
    AreaStored(g, a, d, v0.freeCount, v0.nextFree, chains[dir], it.pos, lba, off,
               AllocMore(v0, 0, 0, op.n).1.first, op.size, op.date, op.time);
  }

  lemma DirChain(g: Geo, a: Disk, chains: Chains, dir: int)
    requires Sound(g, |a|) && Neat(FatTable(g, a), chains) && dir in chains
    ensures InUse(FatTable(g, a), chains[dir]) && Path.DirPlaces(g, a, dir) == Path.Places(g, chains[dir])
  {
    hide FatTable, Neat, Path.Places;
    NeatChain(FatTable(g, a), chains, dir);
  }

  // ----- The method -----

  /** On a volume in order the entry is the one of a live file. */
  lemma EntryInOrder(g: Geo, a: Disk, v0: Vol, path: seq<Name>, leaf: Name, dir: int, lba: nat, off: nat)
    returns (chains: Chains, dirClus: int)
    requires Sound(g, |a|) && FileAt(g, a, path, leaf, dir, lba, off) && v0.t == FatTable(g, a)
    requires WellKept(OnDisk(g, a, v0.freeCount, v0.nextFree))
    ensures Own(v0, chains) && Crash.IsEntryOf(g, a, chains, lba, off, dir, dirClus)
  {
    hide Good, Proper, FatTable, Walk, Lookup, OnDisk, Path.DirPlaces, Own, Crash.Live, Contents.StartOf;
    var s := OnDisk(g, a, v0.freeCount, v0.nextFree);
    var cs: Chains, names: Names, rank: map<int, nat> :| Good(s, cs, names, rank) && Proper(names, s.root);
    hide WellKept;
    chains := cs;
    StartState(g, a, v0);
    FoundThere(g, a, v0.freeCount, v0.nextFree, path, leaf, dir, lba, off);
    GoodNamed(s, chains, names, rank);
    RootNamed(s, names, chains.Keys, rank);
    ProperDots(names, s.root);
    WalkInTree(s, names, chains.Keys, rank, s.root, path);
    Ops.FoundFile(s, chains, names, rank, dir, leaf);
    DirOwned(s, chains, names, rank, dir);
    assert Crash.Live(g, a, chains) by { OwnLive(g, a, v0, chains); }
    dirClus := Recovery.PlaceInChain(g, a, chains, dir, Lookup(s, dir, leaf).value.pos);
  }

  lemma DirOwned(s: Volume, chains: Chains, names: Names, rank: map<int, nat>, dir: int)
    requires Good(s, chains, names, rank) && dir in names
    ensures dir in chains
  {
    hide Own, AllHold, Shaped, TreeOk;
  }

  lemma OwnLive(g: Geo, a: Disk, v: Vol, chains: Chains)
    requires Sound(g, |a|) && v.t == FatTable(g, a) && Own(v, chains)
    ensures Crash.Live(g, a, chains)
  {
    hide Neat, Crash.Live;
    FatVolume.LiveIsNeat(g, a, chains);
  }

  /** A file that is found is written without a new name. */
  lemma StaysInOrder(s: Volume, dir: int, op: Ops.Op)
    requires WellKept(s) && Shaped(s) && op.Write? && IsString(op.leaf) && Walk(s, s.root, op.path) == Some(dir)
    requires Lookup(s, dir, op.leaf).Some?
    ensures WellKept(Ops.Step(s, op)) && Owns(Ops.Step(s, op))
  {
    hide WellKept, Shaped, Walk, Lookup, Ops.Step, Owns, Vanish.Stored, IsString;
    Vanish.StepExactlyIf(s, op);
  }

  /** The mounted volume as FatLive sees it. */
  ghost function Whole(v: FatVolume.Volume): Volume
    requires v.Valid()
    reads v
  {
    OnDisk(v.geo, v.disk, v.freeCount, v.nextFree)
  }

  /** fat32_write_file on a file that is there: what the method of FatVolume makes of the
      blocks is the step of FatOps, so a volume in order is in order afterwards, with
      exactly the clusters in use that reachable entries name. */
  method OverwriteFile(v: FatVolume.Volume, lba: nat, off: nat, src: seq<u8>, date: u16, time: u16,
                       ghost path: seq<Name>, ghost leaf: Name, ghost dir: int) returns (ok: bool)
    requires v.Valid() && v.geo.secPerClus >= 1 && FileAt(v.geo, v.disk, path, leaf, dir, lba, off) && IsString(leaf)
    requires |src| < 0x1_0000_0000 && |src| <= Contents.Base(v.geo, Contents.ClustersFor(|src|, v.geo.secPerClus))
    requires WellKept(Whole(v))
    modifies v
    ensures v.Valid() && lba < |v.disk| == |old(v.disk)| && off + 32 <= 512 && Shaped(old(Whole(v)))
    ensures Whole(v)
         == Ops.Step(old(Whole(v)),
                     Ops.Write(path, leaf, Contents.ClustersFor(|src|, v.geo.secPerClus), |src|, date, time,
                               AreaOf(v.geo, v.disk)))
    ensures WellKept(Whole(v)) && Owns(Whole(v))
    ensures ok <==> Contents.ClustersFor(|src|, v.geo.secPerClus) <= |FreeSet(old(v.State()).t)|
    ensures ok ==> Contents.ReadEntry(v.geo, v.disk, lba, off) == Some(src)
  {
    hide WellKept, Owns, Own, FatTable, OnDisk, Ops.Step, Contents.ReadEntry, Contents.Base, Contents.ClustersFor,
         FreeSet;
    hide FileAt, Crash.IsEntryOf, Crash.Live, FatVolume.Rewrote, FatVolume.OwnsNow, Crash.OldOrNew, Shaped, AreaOf;
    ghost var a, v0 := v.disk, v.State();
    ghost var n := Contents.ClustersFor(|src|, v.geo.secPerClus);
    ghost var chains, dirClus := EntryInOrder(v.geo, a, v0, path, leaf, dir, lba, off);
    FileThere(v.geo, a, v0, chains, path, leaf, dir, dirClus, lba, off);
    ok := v.Overwrite(lba, off, src, date, time, chains, dir, dirClus);
    OverwriteIsStep(v.geo, a, v.disk, v0, v.State(), path, leaf, dir, lba, off, n, |src|, date, time, chains);
    FoundThere(v.geo, a, v0.freeCount, v0.nextFree, path, leaf, dir, lba, off);
    StaysInOrder(OnDisk(v.geo, a, v0.freeCount, v0.nextFree), dir,
                 Ops.Write(path, leaf, n, |src|, date, time, AreaOf(v.geo, v.disk)));
  }

  lemma FileThere(g: Geo, a: Disk, v: Vol, chains: Chains, path: seq<Name>, leaf: Name, dir: int, dirClus: int,
                  lba: nat, off: nat)
    requires Sound(g, |a|) && FileAt(g, a, path, leaf, dir, lba, off) && v.t == FatTable(g, a) && Own(v, chains)
    requires Crash.IsEntryOf(g, a, chains, lba, off, dir, dirClus)
    ensures leaf != [] && lba < |a| && off + 32 <= 512 && dir in chains && Neat(v.t, chains) && Crash.Live(g, a, chains)
  {
    hide Neat, Crash.Live;
    OwnLive(g, a, v, chains);
  }
}
