/** Overwriting a file of fs/fat32.c is crash-atomic: whatever prefix of its block
    writes reaches the disk, the entry reads as the old contents or as exactly the
    new ones, and nothing else that is live changes. */
module FatCrash {
  import opened Basics
  import opened Words
  import opened FatChain
  import opened FatOwner
  import opened FatDisk
  import opened FatContents

  /** The entry at (lba, off) lies in cluster `dirClus` of the live directory `dir`
      and names a live file, or an empty one. */
  ghost predicate IsEntryOf(g: Geo, d: Disk, chains: Chains, lba: nat, off: nat, dir: int, dirClus: int) {
    && Sound(g, |d|) && g.dataLba <= lba < |d| && off + 32 <= 512
    && 2 <= dirClus < g.maxCluster && InCluster(g, lba, dirClus)
    && dir in chains && dirClus in chains[dir]
    && (StartOf(d[lba], off) < 2 || (StartOf(d[lba], off) in chains && StartOf(d[lba], off) != dir))
  }

  /** The live chains, on the disk `d`. */
  ghost predicate Live(g: Geo, d: Disk, chains: Chains)
    requires Sound(g, |d|)
  {
    Chained(FatTable(g, d), chains) && Disjoint(chains)
  }

  /** The clusters that an overwrite of the file at `e` may use: free ones before,
      and those of the old contents. */
  ghost function Loose(t: Table, chains: Chains, e: int): iset<int> {
    iset c | (Valid(t, c) && t[c] == 0) || (e in chains && c in chains[e])
  }

  /** Apart from start, size and times of one entry, only `touch` has changed. */
  ghost predicate UpToEntry(g: Geo, a: Disk, d: Disk, lba: nat, off: nat, touch: iset<int>)
    requires lba < |a|
  {
    && |d| == |a| && AgreesOff(g, a[lba := d[lba]], d, touch)
    && forall i :: 0 <= i < 512 && !(off + 18 <= i < off + 32) ==> d[lba][i] == a[lba][i]
  }

  /** What a crash may show in the state `d` of an overwrite that began on `a`. */
  ghost predicate OldOrNew(g: Geo, a: Disk, d: Disk, chains: Chains, lba: nat, off: nat, src: seq<u8>)
    requires Sound(g, |a|) && lba < |a| && off + 32 <= 512
  {
    && UpToEntry(g, a, d, lba, off, Loose(FatTable(g, a), chains, StartOf(a[lba], off)))
    && (ReadEntry(g, d, lba, off) == ReadEntry(g, a, lba, off) || ReadEntry(g, d, lba, off) == Some(src))
  }

  /** Every state recorded since `from` shows old or new contents. */
  ghost predicate AllOldOrNew(g: Geo, a: Disk, hist: seq<Disk>, from: nat, chains: Chains, lba: nat, off: nat,
                              src: seq<u8>)
    requires Sound(g, |a|) && lba < |a| && off + 32 <= 512
  {
    forall i :: from <= i < |hist| ==> OldOrNew(g, a, hist[i], chains, lba, off, src)
  }

  /** The live chains on the state `d` of an overwrite: those of before but for the
      entry's own, which is the old one or one of clusters that were free. */
  ghost predicate Recovered(g: Geo, a: Disk, d: Disk, chains: Chains, lba: nat, off: nat, more: Chains)
    requires lba < |a| && off + 32 <= 512
  {
    && Sound(g, |a|) && |d| == |a| && Live(g, d, more)
    && (forall h :: h in chains && h != StartOf(a[lba], off) ==> h in more && more[h] == chains[h])
    && (StartOf(d[lba], off) >= 2 ==>
          StartOf(d[lba], off) in more
          && (StartOf(d[lba], off) !in chains || StartOf(d[lba], off) == StartOf(a[lba], off)))
  }

  /** A volume mounted on any of these states has such chains. */
  ghost predicate AllRecover(g: Geo, a: Disk, hist: seq<Disk>, from: nat, chains: Chains, lba: nat, off: nat)
    requires lba < |a| && off + 32 <= 512
  {
    forall i :: from <= i < |hist| ==> Recovers(g, a, hist[i], chains, lba, off)
  }

  ghost predicate Recovers(g: Geo, a: Disk, d: Disk, chains: Chains, lba: nat, off: nat)
    requires lba < |a| && off + 32 <= 512
  {
    exists more: Chains :: Recovered(g, a, d, chains, lba, off, more)
  }

  /** Every other live file then reads exactly as before. */
  lemma OthersUntouched(g: Geo, a: Disk, d: Disk, chains: Chains, lba: nat, off: nat, dir: int, dirClus: int,
                        src: seq<u8>, h: int, n: nat)
    requires IsEntryOf(g, a, chains, lba, off, dir, dirClus) && Live(g, a, chains)
    requires OldOrNew(g, a, d, chains, lba, off, src)
    requires h in chains && h != dir && h != StartOf(a[lba], off)
    ensures Read(g, d, h, n) == Read(g, a, h, n)
  {
    var touch := Loose(FatTable(g, a), chains, StartOf(a[lba], off));
    var b := a[lba := d[lba]];
    EntryWrite(g, a, lba, dirClus, d[lba]);
    ChainLive(g, a, chains, h);
    forall c | c in chains[h]
      ensures c !in touch && c != dirClus
    {
      ChainUsed(FatTable(g, a), chains[h], c);
    }
    hide Live, IsEntryOf, OldOrNew, FatTable, Loose, AgreesOff, IsChain;
    ReadSame(g, a, b, iset{dirClus}, chains[h], n);
    SameChain(g, a, b, iset{dirClus}, chains[h]);
    ReadSame(g, b, d, touch, chains[h], n);
  }

  // ----- Chains on changed disks -----

  lemma ChainLive(g: Geo, d: Disk, chains: Chains, h: int)
    requires Sound(g, |d|) && Live(g, d, chains) && h in chains
    ensures IsChain(FatTable(g, d), chains[h]) && chains[h][0] == h
    ensures forall k, c :: k in chains && k != h && c in chains[h] ==> c !in chains[k]
  {
    hide NoDup, Linked, FatTable;
  }

  lemma SameChain(g: Geo, a: Disk, b: Disk, touch: iset<int>, q: seq<int>)
    requires AgreesOff(g, a, b, touch) && IsChain(FatTable(g, a), q) && forall c :: c in q ==> c !in touch
    ensures IsChain(FatTable(g, b), q)
  {
    hide FatTable, Inside;
    forall c | c in q
      ensures FatTable(g, b)[c] == FatTable(g, a)[c]
    {
      ChainUsed(FatTable(g, a), q, c);
    }
    ChainFrame(FatTable(g, a), q, FatTable(g, b));
  }

  /** Rewriting one sector of a directory. */
  lemma EntryWrite(g: Geo, a: Disk, lba: nat, dirClus: int, b: Block)
    requires Sound(g, |a|) && g.dataLba <= lba < |a| && 2 <= dirClus < g.maxCluster && InCluster(g, lba, dirClus)
    ensures AgreesOff(g, a, a[lba := b], iset{dirClus})
    ensures forall k :: 0 <= k < g.numFats ==> TableOf(g, a[lba := b], k) == TableOf(g, a, k)
  {
    DataAgrees(g, a, dirClus, lba - ClusterLba(g, dirClus), b);
  }

  /** A sector of an untouched cluster is as before. */
  lemma BlockSame(g: Geo, a: Disk, d: Disk, touch: iset<int>, lba: nat, dirClus: int)
    requires AgreesOff(g, a, d, touch) && dirClus !in touch
    requires g.dataLba <= lba < |a| && 2 <= dirClus < g.maxCluster && InCluster(g, lba, dirClus)
    ensures d[lba] == a[lba]
  {
    SectorSame(g, a, d, touch, dirClus, lba - ClusterLba(g, dirClus));
  }

  /** The directory's cluster is neither free nor part of the old contents. */
  lemma DirNotLoose(g: Geo, a: Disk, chains: Chains, lba: nat, off: nat, dir: int, dirClus: int)
    requires IsEntryOf(g, a, chains, lba, off, dir, dirClus) && Live(g, a, chains)
    ensures dirClus !in Loose(FatTable(g, a), chains, StartOf(a[lba], off))
  {
    hide NoDup, Linked, FatTable, StartOf;
    ChainLive(g, a, chains, dir);
    ChainUsed(FatTable(g, a), chains[dir], dirClus);
  }

  // ----- Before the entry is written -----

  ghost function FreeOf(t: Table): iset<int> {
    iset c | Valid(t, c) && t[c] == 0
  }

  lemma BeforeSwitch(g: Geo, a: Disk, d: Disk, chains: Chains, lba: nat, off: nat, dir: int, dirClus: int, src: seq<u8>)
    requires IsEntryOf(g, a, chains, lba, off, dir, dirClus) && Live(g, a, chains)
    requires AgreesOff(g, a, d, FreeOf(FatTable(g, a)))
    ensures d[lba] == a[lba] && OldOrNew(g, a, d, chains, lba, off, src)
    ensures StartOf(a[lba], off) in chains ==> IsChain(FatTable(g, d), chains[StartOf(a[lba], off)])
  {
    hide AgreesOff, FatTable, IsChain, StartOf, SizeOf, Live;
    var t, e := FatTable(g, a), StartOf(a[lba], off);
    AgreesSize(g, a, d, FreeOf(t));
    DirNotLoose(g, a, chains, lba, off, dir, dirClus);
    BlockSame(g, a, d, FreeOf(t), lba, dirClus);
    assert a[lba := d[lba]] == a;
    AgreesWider(g, a, d, FreeOf(t), Loose(t, chains, e));
    OldReads(g, a, d, chains, e, SizeOf(a[lba], off));
  }

  /** As long as only free clusters change, a live file reads as before. */
  lemma OldReads(g: Geo, a: Disk, d: Disk, chains: Chains, e: int, n: nat)
    requires Sound(g, |a|) && Live(g, a, chains) && AgreesOff(g, a, d, FreeOf(FatTable(g, a)))
    requires e < 2 || e in chains
    ensures |d| == |a| && Read(g, d, e, n) == Read(g, a, e, n)
    ensures e in chains ==> IsChain(FatTable(g, d), chains[e])
  {
    hide AgreesOff, FatTable, NoDup, Linked, Live;
    var t := FatTable(g, a);
    AgreesSize(g, a, d, FreeOf(t));
    if e in chains {
      ChainLive(g, a, chains, e);
      forall c | c in chains[e]
        ensures c !in FreeOf(t)
      {
        ChainUsed(t, chains[e], c);
      }
      ReadSame(g, a, d, FreeOf(t), chains[e], n);
      SameChain(g, a, d, FreeOf(t), chains[e]);
    } else {
      ReadOutside(g, a, d, e, n);
    }
  }

  // ----- The entry is written -----

  /** The new contents, complete on clusters that were free, before the switch. */
  ghost predicate Ready(g: Geo, a: Disk, d: Disk, q: seq<int>, src: seq<u8>)
    requires Sound(g, |a|)
  {
    && AgreesOff(g, a, d, FreeOf(FatTable(g, a)))
    && |src| <= Base(g, |q|) && LaidOut(g, d, q, src)
    && (q != [] ==> IsChain(FatTable(g, d), q) && forall c :: c in q ==> c in FreeOf(FatTable(g, a)))
  }

  /** Once the contents are laid out, any disk that keeps the new clusters and the
      patched entry reads the new contents. */
  lemma ReadsNew(g: Geo, d: Disk, e: Disk, touch: iset<int>, q: seq<int>, src: seq<u8>, lba: nat, off: nat)
    requires AgreesOff(g, d, e, touch) && (forall c :: c in q ==> c !in touch)
    requires LaidOut(g, d, q, src) && |src| <= Base(g, |q|) && (q != [] ==> IsChain(FatTable(g, d), q))
    requires lba < |e| && off + 32 <= 512 && StartOf(e[lba], off) == First(q) && SizeOf(e[lba], off) == |src|
    ensures ReadEntry(g, e, lba, off) == Some(src)
  {
    hide AgreesOff, FatTable, IsChain, StartOf, SizeOf, LaidOut;
    AgreesSize(g, d, e, touch);
    if q != [] {
      LaidOutSame(g, d, e, touch, q, src);
      SameChain(g, d, e, touch, q);
      ReadBack(g, e, q, src, 0);
      assert src[0..] == src;
    } else {
      ReadNone(g, e, 0);
      assert src == [];
    }
  }

  /** Patching the entry on both disks keeps them in agreement. */
  lemma PatchBoth(g: Geo, a: Disk, d: Disk, touch: iset<int>, lba: nat, b: Block)
    requires AgreesOff(g, a, d, touch) && g.dataLba <= lba < |a|
    ensures AgreesOff(g, a[lba := b], d[lba := b], touch)
  {
    hide TableOf;
    TableIgnores(g, a, lba, b, 0);
    TableIgnores(g, d, lba, b, 0);
    FatTableIs(g, a);
    FatTableIs(g, d);
    FatTableIs(g, a[lba := b]);
    FatTableIs(g, d[lba := b]);
    hide FatTable;
  }

  lemma FatTableIs(g: Geo, d: Disk)
    requires Sound(g, |d|)
    ensures FatTable(g, d) == TableOf(g, d, 0)
  {
  }

  lemma Switched(g: Geo, a: Disk, d: Disk, chains: Chains, lba: nat, off: nat, dir: int, dirClus: int,
                 q: seq<int>, src: seq<u8>, b: Block)
    requires IsEntryOf(g, a, chains, lba, off, dir, dirClus) && Live(g, a, chains) && Ready(g, a, d, q, src)
    requires StartOf(b, off) == First(q) && SizeOf(b, off) == |src|
    requires forall i :: 0 <= i < 512 && !(off + 18 <= i < off + 32) ==> b[i] == a[lba][i]
    ensures OldOrNew(g, a, d[lba := b], chains, lba, off, src)
  {
    hide AgreesOff, FatTable, LaidOut, IsChain, StartOf, SizeOf;
    var t, e := FatTable(g, a), StartOf(a[lba], off);
    DirNotLoose(g, a, chains, lba, off, dir, dirClus);
    AgreesWider(g, a, d, FreeOf(t), Loose(t, chains, e));
    PatchBoth(g, a, d, Loose(t, chains, e), lba, b);
    AgreesSize(g, a, d, FreeOf(t));
    EntryWrite(g, d, lba, dirClus, b);
    ReadsNew(g, d, d[lba := b], iset{dirClus}, q, src, lba, off);
  }

  lemma AgreesSize(g: Geo, a: Disk, d: Disk, touch: iset<int>)
    requires AgreesOff(g, a, d, touch)
    ensures |a| == |d| && Sound(g, |a|)
  {
  }

  // ----- The old contents are freed -----

  lemma AfterSwitch(g: Geo, a: Disk, d: Disk, f: Disk, chains: Chains, lba: nat, off: nat, dir: int, dirClus: int,
              q: seq<int>, src: seq<u8>, b: Block, part: iset<int>)
    requires IsEntryOf(g, a, chains, lba, off, dir, dirClus) && Live(g, a, chains) && Ready(g, a, d, q, src)
    requires StartOf(b, off) == First(q) && SizeOf(b, off) == |src|
    requires forall i :: 0 <= i < 512 && !(off + 18 <= i < off + 32) ==> b[i] == a[lba][i]
    requires |d| == |a| && AgreesOff(g, d[lba := b], f, part)
    requires forall c :: c in part ==> StartOf(a[lba], off) in chains && c in chains[StartOf(a[lba], off)]
    ensures OldOrNew(g, a, f, chains, lba, off, src)
  {
    hide AgreesOff, FatTable, LaidOut, NoDup, Linked, StartOf, SizeOf;
    var t, e := FatTable(g, a), StartOf(a[lba], off);
    var touch := Loose(t, chains, e);
    DirNotLoose(g, a, chains, lba, off, dir, dirClus);
    AgreesWider(g, a, d, FreeOf(t), touch);
    PatchBoth(g, a, d, touch, lba, b);
    AgreesSize(g, d[lba := b], f, part);
    BlockSame(g, d[lba := b], f, part, lba, dirClus);
    assert touch + part == touch;
    AgreesTrans(g, a[lba := b], d[lba := b], f, touch, part);
    EntryWrite(g, d, lba, dirClus, b);
    AgreesTrans(g, d, d[lba := b], f, iset{dirClus}, part);
    forall c | c in q
      ensures c !in iset{dirClus} + part
    {
      NotOld(g, a, chains, e, c);
    }
    ReadsNew(g, d, f, iset{dirClus} + part, q, src, lba, off);
  }

  /** A cluster that was free belonged to no file. */
  lemma NotOld(g: Geo, a: Disk, chains: Chains, e: int, c: int)
    requires Sound(g, |a|) && Live(g, a, chains) && c in FreeOf(FatTable(g, a))
    ensures e in chains ==> c !in chains[e]
  {
    hide NoDup, Linked, FatTable;
    if e in chains && c in chains[e] {
      ChainUsed(FatTable(g, a), chains[e], c);
    }
  }

  // ----- The chains after a crash -----

  /** As long as only free clusters have changed, the chains are those of before. */
  lemma BeforeRecovers(g: Geo, a: Disk, d: Disk, chains: Chains, lba: nat, off: nat, dir: int, dirClus: int)
    requires IsEntryOf(g, a, chains, lba, off, dir, dirClus) && Live(g, a, chains)
    requires AgreesOff(g, a, d, FreeOf(FatTable(g, a)))
    ensures Recovers(g, a, d, chains, lba, off)
  {
    hide AgreesOff, FatTable, StartOf, SizeOf, Live, IsChain;
    AgreesSize(g, a, d, FreeOf(FatTable(g, a)));
    DirNotLoose(g, a, chains, lba, off, dir, dirClus);
    BlockSame(g, a, d, FreeOf(FatTable(g, a)), lba, dirClus);
    forall h | h in chains
      ensures IsChain(FatTable(g, d), chains[h]) && |chains[h]| > 0 && chains[h][0] == h
    {
      ChainLive(g, a, chains, h);
      OldReads(g, a, d, chains, h, 0);
      ChainFirst(FatTable(g, d), chains[h]);
    }
    LiveDisjoint(g, a, chains);
    LiveFrom(g, d, chains);
    assert Recovered(g, a, d, chains, lba, off, chains);
  }

  /** Once the entry has switched, the new chain takes the place of the old one. */
  lemma AfterRecovers(g: Geo, a: Disk, d: Disk, f: Disk, chains: Chains, lba: nat, off: nat, dir: int, dirClus: int,
                      q: seq<int>, src: seq<u8>, b: Block, part: iset<int>)
    requires IsEntryOf(g, a, chains, lba, off, dir, dirClus) && Live(g, a, chains) && Ready(g, a, d, q, src)
    requires StartOf(b, off) == First(q)
    requires |d| == |a| && AgreesOff(g, d[lba := b], f, part)
    requires forall c :: c in part ==> StartOf(a[lba], off) in chains && c in chains[StartOf(a[lba], off)]
    ensures Recovers(g, a, f, chains, lba, off)
  {
    hide AgreesOff, FatTable, LaidOut, IsChain, StartOf, SizeOf, Live;
    var t, e := FatTable(g, a), StartOf(a[lba], off);
    var d2 := d[lba := b];
    DirNotLoose(g, a, chains, lba, off, dir, dirClus);
    AgreesSize(g, d2, f, part);
    BlockSame(g, d2, f, part, lba, dirClus);
    EntryWrite(g, d, lba, dirClus, b);
    FatTableIs(g, d);
    FatTableIs(g, d2);
    var more := With(chains - {e}, q);
    NewLive(g, a, d, d2, f, chains, e, q, src, part);
    NewHead(g, a, chains, q);
    assert Recovered(g, a, f, chains, lba, off, more);
  }

  /** A cluster that was free heads no live chain. */
  lemma NewHead(g: Geo, a: Disk, chains: Chains, q: seq<int>)
    requires Sound(g, |a|) && Live(g, a, chains)
    requires q != [] ==> q[0] in FreeOf(FatTable(g, a))
    ensures q != [] ==> q[0] !in chains
  {
    hide FatTable, NoDup, Linked;
    if q != [] && q[0] in chains {
      ChainLive(g, a, chains, q[0]);
      assert q[0] in chains[q[0]];
      NotOld(g, a, chains, q[0], q[0]);
    }
  }

  lemma NewLive(g: Geo, a: Disk, d: Disk, d2: Disk, f: Disk, chains: Chains, e: int, q: seq<int>, src: seq<u8>,
                part: iset<int>)
    requires Sound(g, |a|) && Live(g, a, chains) && Ready(g, a, d, q, src) && (e < 2 || e in chains)
    requires |d2| == |d| == |a| && FatTable(g, d2) == FatTable(g, d) && AgreesOff(g, d2, f, part)
    requires forall c :: c in part ==> e in chains && c in chains[e]
    ensures |f| == |a| && Live(g, f, With(chains - {e}, q))
  {
    hide AgreesOff, FatTable, LaidOut, IsChain, Live;
    AgreesSize(g, d2, f, part);
    var more := With(chains - {e}, q);
    forall h | h in more
      ensures IsChain(FatTable(g, f), more[h]) && |more[h]| > 0 && more[h][0] == h
    {
      if q != [] && h == q[0] {
        forall c | c in q
          ensures c !in part
        {
          NotOld(g, a, chains, e, c);
        }
        SameChain(g, d2, f, part, q);
        ChainFirst(FatTable(g, f), q);
      } else {
        ChainLive(g, a, chains, h);
        OldReads(g, a, d, chains, h, 0);
        SameChain(g, d2, f, part, chains[h]);
        ChainFirst(FatTable(g, f), chains[h]);
      }
    }
    hide Ready;
    NewDisjoint(g, a, chains, e, q);
    LiveFrom(g, f, more);
  }

  lemma LiveDisjoint(g: Geo, d: Disk, chains: Chains)
    requires Sound(g, |d|) && Live(g, d, chains)
    ensures Disjoint(chains)
  {
  }

  lemma ChainFirst(t: Table, q: seq<int>)
    requires IsChain(t, q)
    ensures |q| > 0
  {
  }

  lemma LiveFrom(g: Geo, d: Disk, chains: Chains)
    requires Sound(g, |d|) && Disjoint(chains)
    requires forall h :: h in chains ==> IsChain(FatTable(g, d), chains[h]) && chains[h][0] == h
    ensures Live(g, d, chains)
  {
    hide IsChain, FatTable, Disjoint;
  }

  lemma NewDisjoint(g: Geo, a: Disk, chains: Chains, e: int, q: seq<int>)
    requires Sound(g, |a|) && Live(g, a, chains) && forall c :: c in q ==> c in FreeOf(FatTable(g, a))
    ensures Disjoint(With(chains - {e}, q))
  {
    hide FatTable, FreeOf;
    var more := With(chains - {e}, q);
    forall h, k, c | h in more && k in more && c in more[h] && c in more[k]
      ensures h == k
    {
      if q != [] && h == q[0] && k != q[0] {
        NotOld(g, a, chains, k, c);
      } else if q != [] && k == q[0] && h != q[0] {
        NotOld(g, a, chains, h, c);
      }
    }
  }

  // ----- Every prefix -----

  /** All states of an overwrite: writing the new contents (`a` to `d1`), the entry
      (`d2`), freeing the old chain (to `d3`). */
  lemma EveryPrefix(g: Geo, a: Disk, h: seq<Disk>, d1: Disk, h1: seq<Disk>, d3: Disk, h3: seq<Disk>,
                    chains: Chains, lba: nat, off: nat, dir: int, dirClus: int,
                    q: seq<int>, src: seq<u8>, b: Block, part: iset<int>)
    requires IsEntryOf(g, a, chains, lba, off, dir, dirClus) && Live(g, a, chains)
    requires Since(g, a, h, d1, h1, FreeOf(FatTable(g, a))) && Ready(g, a, d1, q, src)
    requires StartOf(b, off) == First(q) && SizeOf(b, off) == |src|
    requires forall i :: 0 <= i < 512 && !(off + 18 <= i < off + 32) ==> b[i] == a[lba][i]
    requires |d1| == |a| && Since(g, d1[lba := b], h1 + [d1[lba := b]], d3, h3, part)
    requires forall c :: c in part ==> StartOf(a[lba], off) in chains && c in chains[StartOf(a[lba], off)]
    ensures OldOrNew(g, a, d3, chains, lba, off, src) && ReadEntry(g, d3, lba, off) == Some(src)
    ensures h <= h3 && AllOldOrNew(g, a, h3, |h|, chains, lba, off, src)
    ensures AllRecover(g, a, h3, |h|, chains, lba, off)
  {
    hide AgreesOff, FatTable, LaidOut, IsChain, StartOf, SizeOf, OldOrNew, Live, Ready, Recovers;
    var d2 := d1[lba := b];
    forall i | |h| <= i < |h3|
      ensures OldOrNew(g, a, h3[i], chains, lba, off, src) && Recovers(g, a, h3[i], chains, lba, off)
    {
      if i < |h1| {
        assert h3[i] == h1[i];
        BeforeSwitch(g, a, h1[i], chains, lba, off, dir, dirClus, src);
        BeforeRecovers(g, a, h1[i], chains, lba, off, dir, dirClus);
      } else if i == |h1| {
        assert h3[i] == d2;
        Switched(g, a, d1, chains, lba, off, dir, dirClus, q, src, b);
        NothingSince(g, d2);
        AfterRecovers(g, a, d1, d2, chains, lba, off, dir, dirClus, q, src, b, iset{});
      } else {
        AfterSwitch(g, a, d1, h3[i], chains, lba, off, dir, dirClus, q, src, b, part);
        AfterRecovers(g, a, d1, h3[i], chains, lba, off, dir, dirClus, q, src, b, part);
      }
    }
    AfterSwitch(g, a, d1, d3, chains, lba, off, dir, dirClus, q, src, b, part);
    EndsNew(g, a, d1, d3, chains, lba, off, dir, dirClus, q, src, b, part);
  }

  lemma NothingSince(g: Geo, d: Disk)
    requires Sound(g, |d|)
    ensures AgreesOff(g, d, d, iset{})
  {
    AgreesSame(g, d);
  }

  lemma EndsNew(g: Geo, a: Disk, d: Disk, f: Disk, chains: Chains, lba: nat, off: nat, dir: int, dirClus: int,
                q: seq<int>, src: seq<u8>, b: Block, part: iset<int>)
    requires IsEntryOf(g, a, chains, lba, off, dir, dirClus) && Live(g, a, chains) && Ready(g, a, d, q, src)
    requires StartOf(b, off) == First(q) && SizeOf(b, off) == |src|
    requires |d| == |a| && AgreesOff(g, d[lba := b], f, part)
    requires forall c :: c in part ==> StartOf(a[lba], off) in chains && c in chains[StartOf(a[lba], off)]
    ensures lba < |f| && Sound(g, |f|) && ReadEntry(g, f, lba, off) == Some(src)
  {
    hide AgreesOff, FatTable, LaidOut, NoDup, Linked, StartOf, SizeOf;
    var e := StartOf(a[lba], off);
    DirNotLoose(g, a, chains, lba, off, dir, dirClus);
    AgreesSize(g, d[lba := b], f, part);
    BlockSame(g, d[lba := b], f, part, lba, dirClus);
    EntryWrite(g, d, lba, dirClus, b);
    AgreesTrans(g, d, d[lba := b], f, iset{dirClus}, part);
    forall c | c in q
      ensures c !in iset{dirClus} + part
    {
      NotOld(g, a, chains, e, c);
    }
    ReadsNew(g, d, f, iset{dirClus} + part, q, src, lba, off);
  }
}
