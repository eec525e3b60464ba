/** Several overwrites of fs/fat32.c in a row, each cut off by a crash or completed: every
    file always reads as it was or as some overwrite of it was meant to leave it. */
module FatRecovery {
  import opened Basics
  import opened Words
  import opened FatChain
  import opened FatOwner
  import opened FatDisk
  import opened FatContents
  import opened FatCrash
  import opened FatLfn
  import Dir = FatDir
  import Path = FatPath
  import FatVolume

  /** A file's directory entry: its place, and the directory and cluster it is in. */
  datatype Entry = Entry(lba: nat, off: nat, dir: int, dirClus: int)

  function Start(d: Disk, e: Entry): int
    requires e.lba < |d| && e.off + 32 <= 512
  {
    StartOf(d[e.lba], e.off)
  }

  ghost predicate IsPlaced(g: Geo, d: Disk, chains: Chains, e: Entry) {
    IsEntryOf(g, d, chains, e.lba, e.off, e.dir, e.dirClus)
  }

  /** Two entries share no byte and name different files. */
  predicate Separate(d: Disk, e: Entry, f: Entry)
    requires e.lba < |d| && e.off + 32 <= 512 && f.lba < |d| && f.off + 32 <= 512
  {
    && (e.lba != f.lba || e.off + 32 <= f.off || f.off + 32 <= e.off)
    && (Start(d, e) >= 2 ==> Start(d, e) != Start(d, f))
  }

  /** Entries of live files on the disk `d`, none of them a directory's chain. */
  ghost predicate Placed(g: Geo, d: Disk, chains: Chains, es: set<Entry>) {
    && Sound(g, |d|) && Live(g, d, chains)
    && (forall e :: e in es ==> IsPlaced(g, d, chains, e))
    && (forall e, f :: e in es && f in es && e != f ==> Separate(d, e, f))
    && (forall e, f :: e in es && f in es && Start(d, e) >= 2 ==> Start(d, e) != f.dir)
  }

  /** `d` is left behind on the way from `a` to new contents `src` of `e`. */
  ghost predicate Crashed(g: Geo, a: Disk, d: Disk, chains: Chains, e: Entry, src: seq<u8>, more: Chains)
    requires Sound(g, |a|) && e.lba < |a| && e.off + 32 <= 512
  {
    OldOrNew(g, a, d, chains, e.lba, e.off, src) && Recovered(g, a, d, chains, e.lba, e.off, more)
  }

  function Contents(g: Geo, d: Disk, e: Entry): Option<seq<u8>>
    requires Sound(g, |d|) && e.lba < |d| && e.off + 32 <= 512
  {
    ReadEntry(g, d, e.lba, e.off)
  }

  lemma DirHead(g: Geo, d: Disk, chains: Chains, h: int)
    requires Sound(g, |d|) && Live(g, d, chains) && h in chains
    ensures h >= 2
  {
    hide FatTable, NoDup, Linked;
    ChainLive(g, d, chains, h);
  }

  // ----- Another entry -----

  /** The slot of another entry is untouched. */
  lemma SlotKept(g: Geo, a: Disk, d: Disk, chains: Chains, es: set<Entry>, e: Entry, f: Entry, src: seq<u8>)
    requires Placed(g, a, chains, es) && e in es && f in es && f != e
    requires OldOrNew(g, a, d, chains, e.lba, e.off, src)
    ensures |d| == |a| && Start(d, f) == Start(a, f) && SizeOf(d[f.lba], f.off) == SizeOf(a[f.lba], f.off)
  {
    hide AgreesOff, FatTable, Live, StartOf, SizeOf, Loose;
    assert IsPlaced(g, a, chains, e) && IsPlaced(g, a, chains, f) && Separate(a, e, f);
    var touch := Loose(FatTable(g, a), chains, Start(a, e));
    assert |d| == |a|;
    if f.lba == e.lba {
      SameFields(a[e.lba], d[e.lba], e.off, f.off);
    } else {
      DirHead(g, a, chains, f.dir);
      Path.NotTouched(g, a, chains, e.lba, e.off, f.dir);
      BlockSame(g, a[e.lba := d[e.lba]], d, touch, f.lba, f.dirClus);
    }
  }

  lemma SameFields(x: Block, y: Block, off: nat, at: nat)
    requires off + 32 <= 512 && at + 32 <= 512 && (at + 32 <= off || off + 32 <= at)
    requires forall i :: 0 <= i < 512 && !(off + 18 <= i < off + 32) ==> y[i] == x[i]
    ensures StartOf(y, at) == StartOf(x, at) && SizeOf(y, at) == SizeOf(x, at)
  {
  }

  /** Another file reads as before. */
  lemma ReadsKept(g: Geo, a: Disk, d: Disk, chains: Chains, es: set<Entry>, e: Entry, f: Entry, src: seq<u8>)
    requires Placed(g, a, chains, es) && e in es && f in es && f != e
    requires OldOrNew(g, a, d, chains, e.lba, e.off, src)
    ensures |d| == |a| && Contents(g, d, f) == Contents(g, a, f)
  {
    hide AgreesOff, FatTable, Live, StartOf, SizeOf, Loose, OldOrNew, Read;
    SlotKept(g, a, d, chains, es, e, f, src);
    assert IsPlaced(g, a, chains, e) && IsPlaced(g, a, chains, f) && Separate(a, e, f);
    var n := SizeOf(a[f.lba], f.off);
    if Start(a, f) >= 2 {
      StartsDiffer(a, es, e, f);
      OthersUntouched(g, a, d, chains, e.lba, e.off, e.dir, e.dirClus, src, Start(a, f), n);
    } else {
      ReadOutside(g, a, d, Start(a, f), n);
    }
  }

  lemma StartsDiffer(d: Disk, es: set<Entry>, e: Entry, f: Entry)
    requires e in es && f in es && e != f && forall x :: x in es ==> x.lba < |d| && x.off + 32 <= 512
    requires forall x, y :: x in es && y in es && x != y ==> Separate(d, x, y)
    ensures Start(d, f) >= 2 ==> Start(d, f) != Start(d, e)
  {
    assert Separate(d, f, e);
  }

  // ----- The entries on the crashed disk -----

  lemma StillPlaced(g: Geo, a: Disk, d: Disk, chains: Chains, more: Chains, es: set<Entry>, e: Entry, f: Entry,
                    src: seq<u8>)
    requires Placed(g, a, chains, es) && e in es && f in es
    requires Crashed(g, a, d, chains, e, src, more)
    ensures |d| == |a| && IsPlaced(g, d, more, f)
  {
    hide AgreesOff, FatTable, Live, StartOf, SizeOf, Loose, OldOrNew;
    assert IsPlaced(g, a, chains, e) && IsPlaced(g, a, chains, f);
    DirHead(g, a, chains, f.dir);
    if f != e {
      SlotKept(g, a, d, chains, es, e, f, src);
      StartsDiffer(a, es, e, f);
    }
  }

  lemma StillSeparate(g: Geo, a: Disk, d: Disk, chains: Chains, more: Chains, es: set<Entry>, e: Entry, src: seq<u8>,
                      x: Entry, y: Entry)
    requires Placed(g, a, chains, es) && e in es && x in es && y in es
    requires Crashed(g, a, d, chains, e, src, more)
    ensures |d| == |a| && (x != y ==> Separate(d, x, y)) && (Start(d, x) >= 2 ==> Start(d, x) != y.dir)
  {
    hide AgreesOff, FatTable, Live, StartOf, SizeOf, Loose, OldOrNew;
    assert IsPlaced(g, a, chains, e) && IsPlaced(g, a, chains, x) && IsPlaced(g, a, chains, y);
    if x != y {
      assert Separate(a, x, y);
    }
    if x != e {
      SlotKept(g, a, d, chains, es, e, x, src);
      StartsDiffer(a, es, e, x);
    }
    if y != e {
      SlotKept(g, a, d, chains, es, e, y, src);
      StartsDiffer(a, es, e, y);
    }
  }

  /** One overwrite, wherever it stops: the entries are still entries of live files, the
      file overwritten reads as before or as meant, the others as before. */
  lemma OneCrash(g: Geo, a: Disk, d: Disk, chains: Chains, more: Chains, es: set<Entry>, e: Entry, src: seq<u8>)
    requires Placed(g, a, chains, es) && e in es && Crashed(g, a, d, chains, e, src, more)
    ensures |d| == |a| && Placed(g, d, more, es)
    ensures forall f :: f in es ==> Contents(g, d, f) == Contents(g, a, f) || (f == e && Contents(g, d, f) == Some(src))
  {
    hide FatTable, Live, StartOf, SizeOf, Loose, OldOrNew, Contents, IsPlaced, Separate;
    InRange(g, a, chains, es);
    forall f | f in es
      ensures IsPlaced(g, d, more, f)
      ensures Contents(g, d, f) == Contents(g, a, f) || (f == e && Contents(g, d, f) == Some(src))
    {
      StillPlaced(g, a, d, chains, more, es, e, f, src);
      if f != e {
        ReadsKept(g, a, d, chains, es, e, f, src);
      } else {
        ReadsOldOrNew(g, a, d, chains, e, src);
      }
    }
    forall x, y | x in es && y in es
      ensures (x != y ==> Separate(d, x, y)) && (Start(d, x) >= 2 ==> Start(d, x) != y.dir)
    {
      StillSeparate(g, a, d, chains, more, es, e, src, x, y);
    }
  }

  lemma InRange(g: Geo, d: Disk, chains: Chains, es: set<Entry>)
    requires Placed(g, d, chains, es)
    ensures forall e :: e in es ==> e.lba < |d| && e.off + 32 <= 512
  {
    hide Live, FatTable;
    forall e | e in es
      ensures e.lba < |d| && e.off + 32 <= 512
    {
      assert IsPlaced(g, d, chains, e);
    }
  }

  lemma ReadsOldOrNew(g: Geo, a: Disk, d: Disk, chains: Chains, e: Entry, src: seq<u8>)
    requires Sound(g, |a|) && e.lba < |a| && e.off + 32 <= 512 && OldOrNew(g, a, d, chains, e.lba, e.off, src)
    ensures |d| == |a| && (Contents(g, d, e) == Contents(g, a, e) || Contents(g, d, e) == Some(src))
  {
    hide AgreesOff, FatTable, Read, Loose;
  }

  // ----- Many crashes -----

  datatype Try = Try(e: Entry, src: seq<u8>)

  /** One overwrite from each disk to the next, begun after a mount that knows the chains. */
  ghost predicate Tries(g: Geo, ds: seq<Disk>, cs: seq<Chains>, ws: seq<Try>, es: set<Entry>) {
    && |ds| == |cs| == |ws| + 1
    && forall i :: 0 <= i < |ws| ==> TriedAt(g, ds, cs, ws, es, i)
  }

  ghost predicate TriedAt(g: Geo, ds: seq<Disk>, cs: seq<Chains>, ws: seq<Try>, es: set<Entry>, i: nat)
    requires |ds| == |cs| == |ws| + 1 && i < |ws|
  {
    var e := ws[i].e;
    && e in es && Sound(g, |ds[i]|) && e.lba < |ds[i]| && e.off + 32 <= 512
    && Crashed(g, ds[i], ds[i + 1], cs[i], e, ws[i].src, cs[i + 1])
  }

  /** The contents one of the first `n` overwrites of `e` was to leave. */
  ghost predicate TriedFor(ws: seq<Try>, n: nat, e: Entry, r: Option<seq<u8>>) {
    exists i :: 0 <= i < n && i < |ws| && ws[i].e == e && r == Some(ws[i].src)
  }

  /** However many overwrites are cut off one after the other: each file reads as at the
      beginning or as one of its overwrites meant, and the volume can take the next. */
  lemma {:induction false} ManyCrashes(g: Geo, ds: seq<Disk>, cs: seq<Chains>, ws: seq<Try>, es: set<Entry>, n: nat)
    requires Tries(g, ds, cs, ws, es) && Placed(g, ds[0], cs[0], es) && n <= |ws|
    ensures |ds[n]| == |ds[0]| && Placed(g, ds[n], cs[n], es)
    ensures forall e :: e in es ==> e.lba < |ds[0]| && e.off + 32 <= 512
    ensures forall e :: e in es ==>
              Contents(g, ds[n], e) == Contents(g, ds[0], e) || TriedFor(ws, n, e, Contents(g, ds[n], e))
    decreases n
  {
    hide Contents, Crashed, Placed, Sound;
    PlacedSound(g, ds[0], cs[0], es);
    if n > 0 {
      var m := n - 1;
      ManyCrashes(g, ds, cs, ws, es, m);
      assert TriedAt(g, ds, cs, ws, es, m);
      OneCrash(g, ds[m], ds[m + 1], cs[m], cs[m + 1], es, ws[m].e, ws[m].src);
      forall e | e in es
        ensures Contents(g, ds[n], e) == Contents(g, ds[0], e) || TriedFor(ws, n, e, Contents(g, ds[n], e))
      {
        if e == ws[m].e && Contents(g, ds[n], e) == Some(ws[m].src) {
          assert ws[m].e == e;
        } else if TriedFor(ws, m, e, Contents(g, ds[m], e)) {
          var i :| 0 <= i < m && i < |ws| && ws[i].e == e && Contents(g, ds[m], e) == Some(ws[i].src);
          assert ws[i].e == e;
        }
      }
    }
  }

  lemma PlacedSound(g: Geo, d: Disk, chains: Chains, es: set<Entry>)
    requires Placed(g, d, chains, es)
    ensures Sound(g, |d|) && forall e :: e in es ==> e.lba < |d| && e.off + 32 <= 512
  {
    InRange(g, d, chains, es);
  }

  // ----- What a mounted volume records are such disks -----

  /** Disk `d` is one an overwrite of `e` may leave, and the next mount finds the files. */
  ghost predicate LeftBy(g: Geo, a: Disk, d: Disk, chains: Chains, es: set<Entry>, e: Entry, src: seq<u8>, more: Chains)
    requires Sound(g, |a|) && e.lba < |a| && e.off + 32 <= 512
  {
    Crashed(g, a, d, chains, e, src, more) && Placed(g, d, more, es)
  }

  ghost predicate AllLeft(g: Geo, a: Disk, hist: seq<Disk>, chains: Chains, es: set<Entry>, e: Entry, src: seq<u8>)
    requires Sound(g, |a|) && e.lba < |a| && e.off + 32 <= 512
  {
    forall i :: 0 <= i < |hist| ==> MayBeLeft(g, a, hist[i], chains, es, e, src)
  }

  ghost predicate MayBeLeft(g: Geo, a: Disk, d: Disk, chains: Chains, es: set<Entry>, e: Entry, src: seq<u8>)
    requires Sound(g, |a|) && e.lba < |a| && e.off + 32 <= 512
  {
    exists more: Chains :: LeftBy(g, a, d, chains, es, e, src, more)
  }

  lemma RecordedAreLeft(g: Geo, a: Disk, hist: seq<Disk>, chains: Chains, es: set<Entry>, e: Entry, src: seq<u8>)
    requires Placed(g, a, chains, es) && e in es && Sound(g, |a|) && e.lba < |a| && e.off + 32 <= 512
    requires AllOldOrNew(g, a, hist, 0, chains, e.lba, e.off, src) && AllRecover(g, a, hist, 0, chains, e.lba, e.off)
    ensures AllLeft(g, a, hist, chains, es, e, src)
  {
    hide Placed, Sound, LeftBy, AllOldOrNew, AllRecover;
    forall i | 0 <= i < |hist|
      ensures MayBeLeft(g, a, hist[i], chains, es, e, src)
    {
      var more := RecordedIsLeft(g, a, hist, chains, es, e, src, i);
    }
  }

  lemma RecordedIsLeft(g: Geo, a: Disk, hist: seq<Disk>, chains: Chains, es: set<Entry>, e: Entry, src: seq<u8>, i: nat)
    returns (more: Chains)
    requires Placed(g, a, chains, es) && e in es && Sound(g, |a|) && e.lba < |a| && e.off + 32 <= 512
    requires AllOldOrNew(g, a, hist, 0, chains, e.lba, e.off, src) && AllRecover(g, a, hist, 0, chains, e.lba, e.off)
    requires i < |hist|
    ensures LeftBy(g, a, hist[i], chains, es, e, src, more)
  {
    hide OldOrNew, Recovered, Placed, Sound;
    assert OldOrNew(g, a, hist[i], chains, e.lba, e.off, src) && Recovers(g, a, hist[i], chains, e.lba, e.off);
    more :| Recovered(g, a, hist[i], chains, e.lba, e.off, more);
    OneCrash(g, a, hist[i], chains, more, es, e, src);
  }

  /** A mount of the disk `a`, with whatever free count, and one overwrite: every disk state
      it passes through, the last included, is one such an overwrite may leave. */
  method Attempt(g: Geo, a: Disk, freeCount: int, nextFree: int, e: Entry, src: seq<u8>, date: u16, time: u16,
                 ghost chains: Chains, ghost es: set<Entry>) returns (v: FatVolume.Volume, ok: bool)
    requires Placed(g, a, chains, es) && e in es && Sound(g, |a|) && |src| < 0x1_0000_0000
    requires |src| <= Base(g, ClustersFor(|src|, g.secPerClus))
    ensures e.lba < |a| && e.off + 32 <= 512 && v.geo == g
    ensures AllLeft(g, a, v.hist, chains, es, e, src)
    ensures |v.disk| == |a| && (ok ==> Contents(g, v.disk, e) == Some(src))
  {
    hide Live, IsEntryOf, Sound, OldOrNew, AllOldOrNew, AllRecover, AllLeft, Base, ClustersFor, ReadEntry,
         FatVolume.Volume.State;
    PlacedHere(g, a, chains, es, e);
    hide Placed;
    v := new FatVolume.Volume(g, a, freeCount, nextFree);
    ok := v.Overwrite(e.lba, e.off, src, date, time, chains, e.dir, e.dirClus);
    RecordedAreLeft(g, a, v.hist, chains, es, e, src);
  }

  lemma PlacedHere(g: Geo, a: Disk, chains: Chains, es: set<Entry>, e: Entry)
    requires Placed(g, a, chains, es) && e in es
    ensures Sound(g, |a|) && Live(g, a, chains) && IsPlaced(g, a, chains, e) && e.lba < |a| && e.off + 32 <= 512
  {
    InRange(g, a, chains, es);
  }

  /** A recorded disk may be the next in the row. */
  lemma TryFollows(g: Geo, ds: seq<Disk>, cs: seq<Chains>, ws: seq<Try>, es: set<Entry>, e: Entry, src: seq<u8>,
                   d: Disk, more: Chains)
    requires Tries(g, ds, cs, ws, es) && e in es && Sound(g, |ds[|ws|]|) && e.lba < |ds[|ws|]| && e.off + 32 <= 512
    requires LeftBy(g, ds[|ws|], d, cs[|ws|], es, e, src, more)
    ensures Tries(g, ds + [d], cs + [more], ws + [Try(e, src)], es)
  {
    hide Crashed, Placed, Sound;
    var ds1, cs1, ws1 := ds + [d], cs + [more], ws + [Try(e, src)];
    forall i | 0 <= i < |ws1|
      ensures TriedAt(g, ds1, cs1, ws1, es, i)
    {
      if i < |ws| {
        assert TriedAt(g, ds, cs, ws, es, i);
      }
    }
  }

  // ----- By path -----

  /** The entry a path leads to is the entry of a live file. */
  lemma EntryByPath(g: Geo, a: Disk, chains: Chains, dirs: set<int>, comps: seq<Name>, leaf: Name,
                    lba: nat, off: nat) returns (e: Entry)
    requires Sound(g, |a|) && Live(g, a, chains) && lba < |a| && off + 32 <= 512
    requires Path.Tree(g, a, chains, dirs, lba, off) && Path.LeadsTo(g, a, comps, leaf, lba, off)
    ensures e.lba == lba && e.off == off && e.dir in dirs && IsPlaced(g, a, chains, e)
  {
    hide Path.Lookup, Path.DirPlaces, StartOf, SizeOf, Live, FatTable, Path.InTree, Path.DirSlots, Path.Tree;
    var dir := Path.Walk(g, a, g.rootCluster, comps).value;
    WalkInTree(g, a, chains, dirs, lba, off, g.rootCluster, comps);
    FoundInTree(g, a, chains, dirs, lba, off, dir, leaf);
    var dirClus := PlaceInChain(g, a, chains, dir, Path.Lookup(g, a, dir, leaf).value.pos);
    TargetStart(g, a, chains, dirs, lba, off, dir, leaf);
    e := Entry(lba, off, dir, dirClus);
  }

  /** A slot of a live directory is in one of its clusters. */
  lemma PlaceInChain(g: Geo, a: Disk, chains: Chains, dir: int, pos: nat) returns (dirClus: int)
    requires Sound(g, |a|) && Live(g, a, chains) && dir in chains && pos < |Path.DirPlaces(g, a, dir)|
    ensures dirClus in chains[dir] && InCluster(g, Path.DirPlaces(g, a, dir)[pos].0, dirClus)
    ensures 2 <= dirClus < g.maxCluster && g.dataLba <= Path.DirPlaces(g, a, dir)[pos].0
  {
    hide Path.DirPlaces, Live, FatTable;
    ChainLive(g, a, chains, dir);
    ChainShort(FatTable(g, a), chains[dir]);
    var p := Path.DirPlaces(g, a, dir)[pos];
    assert Path.PlaceOf(g, |a|, p, chains[dir]);
    dirClus :| dirClus in chains[dir] && InCluster(g, p.0, dirClus);
    hide InCluster, IsChain;
    ChainUsed(FatTable(g, a), chains[dir], dirClus);
  }

  /** The entry names a live file, or none. */
  lemma TargetStart(g: Geo, a: Disk, chains: Chains, dirs: set<int>, lba: nat, off: nat, dir: int, leaf: Name)
    requires Sound(g, |a|) && lba < |a| && off + 32 <= 512 && dir in dirs && Path.Lookup(g, a, dir, leaf).Some?
    requires Path.Tree(g, a, chains, dirs, lba, off)
    requires var it := Path.Lookup(g, a, dir, leaf).value;
             it.pos < |Path.DirPlaces(g, a, dir)| && Path.DirPlaces(g, a, dir)[it.pos] == (lba, off)
    ensures StartOf(a[lba], off) < 2 || (StartOf(a[lba], off) in chains && StartOf(a[lba], off) != dir)
  {
    hide Path.Lookup, Path.DirPlaces, StartOf, SizeOf, FatTable, Path.DirSlots;
    Path.FoundAt(g, a, dir, leaf);
    Path.RootLive(g, a, chains, dirs, lba, off);
    FoundInTree(g, a, chains, dirs, lba, off, dir, leaf);
    Path.FoundFile(g, a, dir, leaf, lba, off);
  }

  lemma {:induction false} WalkInTree(g: Geo, a: Disk, chains: Chains, dirs: set<int>, lba: nat, off: nat, h: int,
                                      comps: seq<Name>)
    requires Sound(g, |a|) && lba < |a| && off + 32 <= 512 && Path.Tree(g, a, chains, dirs, lba, off)
    ensures g.rootCluster in dirs
    ensures h in dirs && Path.Walk(g, a, h, comps).Some? ==> Path.Walk(g, a, h, comps).value in dirs
    decreases |comps|
  {
    hide Path.Tree, Path.Lookup;
    Path.RootLive(g, a, chains, dirs, lba, off);
    if h in dirs && comps != [] && Path.Lookup(g, a, h, comps[0]).Some? {
      var it := Path.Lookup(g, a, h, comps[0]).value;
      FoundInTree(g, a, chains, dirs, lba, off, h, comps[0]);
      if Dir.IsDirItem(it) {
        WalkInTree(g, a, chains, dirs, lba, off, if it.clus != 0 then it.clus else g.rootCluster, comps[1..]);
      }
    }
  }

  lemma FoundInTree(g: Geo, a: Disk, chains: Chains, dirs: set<int>, lba: nat, off: nat, dir: int, leaf: Name)
    requires Sound(g, |a|) && lba < |a| && off + 32 <= 512 && dir in dirs && Path.Lookup(g, a, dir, leaf).Some?
    requires Path.Tree(g, a, chains, dirs, lba, off)
    ensures dir in chains && Path.InTree(g, a, chains, dirs, lba, off, dir, Path.Lookup(g, a, dir, leaf).value)
  {
    hide Path.InTree, Path.DirSlots, Dir.Items, StartOf;
  }

  /** An item of the crashed disk and its item before. */
  lemma ItemBefore(g: Geo, a: Disk, d: Disk, chains: Chains, dirs: set<int>, lba: nat, off: nat, dir: int, dirClus: int,
                   src: seq<u8>, h: int, it: Dir.Item) returns (was: Dir.Item)
    requires Sound(g, |a|) && lba < |a| && off + 32 <= 512 && |d| == |a|
    requires IsEntryOf(g, a, chains, lba, off, dir, dirClus) && Live(g, a, chains)
    requires OldOrNew(g, a, d, chains, lba, off, src) && Path.Tree(g, a, chains, dirs, lba, off) && h in dirs
    requires it in Dir.Items(Path.DirSlots(g, d, h))
    ensures Path.DirPlaces(g, d, h) == Path.DirPlaces(g, a, h) && it.pos < |Path.DirPlaces(g, a, h)|
    ensures was in Dir.Items(Path.DirSlots(g, a, h)) && Path.AlikeItem(was, it)
    ensures Path.DirPlaces(g, a, h)[it.pos] != (lba, off) ==> it == was
  {
    hide Path.DirSlots, Path.DirPlaces, Path.InTree, Path.Alike, Path.AlikeItem, OldOrNew, Live, IsEntryOf, Dir.Scan;
    Path.DirAlike(g, a, d, chains, dirs, lba, off, dir, dirClus, src, h);
    var x, y := Path.DirSlots(g, a, h), Path.DirSlots(g, d, h);
    Path.ScanAlike(x, y, Idle, 0);
    var k :| 0 <= k < |Dir.Items(y)| && Dir.Items(y)[k] == it;
    was := Dir.Items(x)[k];
    Path.SameSlotSameItem(x, y, was, it);
    SamePos(was, it);
  }

  lemma SamePos(s: Dir.Item, t: Dir.Item)
    requires Path.AlikeItem(s, t)
    ensures s.pos == t.pos && s.attr == t.attr
  {
  }

  /** The live tree of a crashed disk is that of before, with the entry where it was: the
      next overwrite finds a volume like the one the last one found. */
  lemma TreeKept(g: Geo, a: Disk, d: Disk, chains: Chains, more: Chains, dirs: set<int>, e: Entry, src: seq<u8>)
    requires Sound(g, |a|) && e.lba < |a| && e.off + 32 <= 512
    requires IsPlaced(g, a, chains, e) && Live(g, a, chains) && e.dir in dirs
    requires Path.Tree(g, a, chains, dirs, e.lba, e.off)
    requires Crashed(g, a, d, chains, e, src, more)
    ensures |d| == |a| && Path.Tree(g, d, more, dirs, e.lba, e.off)
  {
    hide Path.DirSlots, Path.DirPlaces, Path.InTree, OldOrNew, Live, IsEntryOf, Dir.Items, StartOf, FatTable,
         IsShort, IsDir;
    ReadsOldOrNew(g, a, d, chains, e, src);
    forall h, it | h in dirs && it in Dir.Items(Path.DirSlots(g, d, h))
      ensures Path.InTree(g, d, more, dirs, e.lba, e.off, h, it)
    {
      var was := ItemBefore(g, a, d, chains, dirs, e.lba, e.off, e.dir, e.dirClus, src, h, it);
      assert Path.InTree(g, a, chains, dirs, e.lba, e.off, h, was);
      ItemInTree(g, a, d, chains, more, dirs, e, src, h, was, it);
    }
    SlotStays(g, a, d, chains, e, src);
    DirsStay(g, a, d, chains, more, dirs, e);
  }

  lemma SlotStays(g: Geo, a: Disk, d: Disk, chains: Chains, e: Entry, src: seq<u8>)
    requires Sound(g, |a|) && e.lba < |a| && e.off + 32 <= 512 && OldOrNew(g, a, d, chains, e.lba, e.off, src)
    requires e.off % 32 == 0 && IsShort(a[e.lba][e.off..e.off + 32]) && !IsDir(a[e.lba][e.off..e.off + 32])
    ensures |d| == |a| && IsShort(d[e.lba][e.off..e.off + 32]) && !IsDir(d[e.lba][e.off..e.off + 32])
  {
    hide AgreesOff, FatTable, Loose;
    Path.EntryAlike(a[e.lba], d[e.lba], e.off, e.off);
  }

  lemma DirsStay(g: Geo, a: Disk, d: Disk, chains: Chains, more: Chains, dirs: set<int>, e: Entry)
    requires e.lba < |a| && e.off + 32 <= 512 && Recovered(g, a, d, chains, e.lba, e.off, more) && Live(g, a, chains)
    requires dirs <= chains.Keys && StartOf(a[e.lba], e.off) !in dirs
    ensures dirs <= more.Keys && StartOf(d[e.lba], e.off) !in dirs
  {
    hide Live, StartOf, FatTable;
    var s := StartOf(d[e.lba], e.off);
    if s in dirs {
      DirHead(g, a, chains, s);
    }
    forall h | h in dirs
      ensures h in more
    {
      assert h in chains.Keys;
    }
  }

  lemma ItemInTree(g: Geo, a: Disk, d: Disk, chains: Chains, more: Chains, dirs: set<int>, e: Entry, src: seq<u8>,
                   h: int, was: Dir.Item, it: Dir.Item)
    requires Sound(g, |a|) && |d| == |a| && e.lba < |a| && e.off + 32 <= 512 && Live(g, a, chains)
    requires Recovered(g, a, d, chains, e.lba, e.off, more) && dirs <= chains.Keys && StartOf(a[e.lba], e.off) !in dirs
    requires Path.InTree(g, a, chains, dirs, e.lba, e.off, h, was) && Path.AlikeItem(was, it)
    requires Path.DirPlaces(g, d, h) == Path.DirPlaces(g, a, h) && it.pos < |Path.DirPlaces(g, a, h)|
    requires Path.DirPlaces(g, a, h)[it.pos] != (e.lba, e.off) ==> it == was
    requires it in Dir.Items(Path.DirSlots(g, d, h))
    ensures Path.InTree(g, d, more, dirs, e.lba, e.off, h, it)
  {
    hide Path.DirPlaces, Live, StartOf, FatTable, Dir.Scan;
    DirsStay(g, a, d, chains, more, dirs, e);
    if Path.DirPlaces(g, a, h)[it.pos] == (e.lba, e.off) && !Dir.IsDirItem(it) {
      StartAt(g, d, h, it);
    }
  }

  /** What an item says is what its slot says. */
  lemma StartAt(g: Geo, d: Disk, h: int, it: Dir.Item)
    requires Sound(g, |d|) && it in Dir.Items(Path.DirSlots(g, d, h)) && it.pos < |Path.DirPlaces(g, d, h)|
    ensures var p := Path.DirPlaces(g, d, h)[it.pos];
            p.0 < |d| && p.1 <= 480 && it.clus == StartOf(d[p.0], p.1)
  {
    hide Path.DirPlaces, Path.PlaceOf, Dir.Scan;
    Path.ItemAt(Path.DirSlots(g, d, h), Idle, 0, it);
    var p := Path.DirPlaces(g, d, h)[it.pos];
    Path.PlaceFits(g, |d|, p, Chain(FatTable(g, d), h));
    Path.SlotFields(d[p.0], p.1);
  }
}
