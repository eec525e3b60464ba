/** Reading by path in fs/fat32.c, down from directory slots to contents, and the
    crash guarantee in those terms: while a file is overwritten, at every block
    write, each path reads as before, or leads to that file and reads the new
    contents. */
module FatPath {
  import opened Basics
  import opened Words
  import opened FatChain
  import opened FatOwner
  import opened FatDisk
  import opened FatContents
  import opened FatLfn
  import Dir = FatDir
  import opened FatCrash

  /** Where a slot sits: block and byte offset. */
  type Place = (nat, nat)

  function SectorPlaces(lba: nat): seq<Place> {
    seq(16, k requires 0 <= k < 16 => (lba, 32 * k))
  }

  function ClusterPlaces(g: Geo, c: int, s: nat): seq<Place>
    requires s <= g.secPerClus && c >= 2
    decreases g.secPerClus - s
  {
    if s == g.secPerClus then []
    else
      MulMono(0, c - 2, g.secPerClus);
      SectorPlaces(ClusterLba(g, c) + s) + ClusterPlaces(g, c, s + 1)
  }

  /** The slots of a directory in chain order. */
  function Places(g: Geo, q: seq<int>): seq<Place>
    requires forall i :: 0 <= i < |q| ==> q[i] >= 2
    decreases |q|
  {
    if q == [] then [] else ClusterPlaces(g, q[0], 0) + Places(g, q[1..])
  }

  predicate PlaceIn(g: Geo, n: nat, p: Place) {
    g.dataLba <= p.0 < n && p.1 % 32 == 0 && p.1 <= 480
  }

  ghost predicate PlaceOf(g: Geo, n: nat, p: Place, q: seq<int>) {
    PlaceIn(g, n, p) && exists c :: c in q && InCluster(g, p.0, c)
  }

  lemma {:induction false} ClusterPlacesIn(g: Geo, n: nat, c: int, s: nat)
    requires Sound(g, n) && 2 <= c < g.maxCluster && s <= g.secPerClus
    ensures forall p :: p in ClusterPlaces(g, c, s) ==> PlaceIn(g, n, p) && InCluster(g, p.0, c)
    decreases g.secPerClus - s
  {
    if s < g.secPerClus {
      ClusterPlacesIn(g, n, c, s + 1);
      ClusterInside(g, n, c, s);
      var lba := ClusterLba(g, c) + s;
      hide ClusterLba;
      assert forall p :: p in SectorPlaces(lba) ==> p.0 == lba && p.1 % 32 == 0 && p.1 <= 480;
    }
  }

  lemma {:induction false} PlacesIn(g: Geo, n: nat, q: seq<int>)
    requires Sound(g, n) && forall i :: 0 <= i < |q| ==> 2 <= q[i] < g.maxCluster
    ensures forall p :: p in Places(g, q) ==> PlaceOf(g, n, p, q)
    decreases |q|
  {
    if q != [] {
      hide InCluster, PlaceIn;
      ClusterPlacesIn(g, n, q[0], 0);
      PlacesIn(g, n, q[1..]);
      forall p | p in Places(g, q)
        ensures PlaceOf(g, n, p, q)
      {
        if p in ClusterPlaces(g, q[0], 0) {
          assert q[0] in q;
        } else {
          assert PlaceOf(g, n, p, q[1..]);
        }
      }
    }
  }

  function SlotAt(d: Disk, p: Place): Slot
    requires p.0 < |d| && p.1 <= 480
  {
    d[p.0][p.1..p.1 + 32]
  }

  /** The places of the slots of a directory, following its chain. */
  function DirPlaces(g: Geo, d: Disk, dir: int): (ps: seq<Place>)
    requires Sound(g, |d|)
    ensures forall i :: 0 <= i < |ps| ==> PlaceOf(g, |d|, ps[i], Chain(FatTable(g, d), dir))
  {
    var q := Chain(FatTable(g, d), dir);
    PathIsNth(FatTable(g, d), dir, |FatTable(g, d)|);
    PlacesIn(g, |d|, q);
    Places(g, q)
  }

  lemma PlaceFits(g: Geo, n: nat, p: Place, q: seq<int>)
    requires PlaceOf(g, n, p, q)
    ensures p.0 < n && p.1 <= 480
  {
  }

  function DirSlots(g: Geo, d: Disk, dir: int): Dir.Slots
    requires Sound(g, |d|)
  {
    var ps := DirPlaces(g, d, dir);
    seq(|ps|, i requires 0 <= i < |ps| => SlotAt(d, ps[i]))
  }

  /** dir_lookup on the disk. */
  function Lookup(g: Geo, d: Disk, dir: int, name: Name): Option<Dir.Item>
    requires Sound(g, |d|)
  {
    Dir.Find(Dir.Items(DirSlots(g, d, dir)), name)
  }

  /** walk_to_parent: every component has to be a directory; cluster 0 is the root. */
  function Walk(g: Geo, d: Disk, dir: int, comps: seq<Name>): Option<int>
    requires Sound(g, |d|)
    decreases |comps|
  {
    if comps == [] then Some(dir)
    else
      match Lookup(g, d, dir, comps[0])
      case None => None
      case Some(it) =>
        if !Dir.IsDirItem(it) then None
        else Walk(g, d, if it.clus != 0 then it.clus else g.rootCluster, comps[1..])
  }

  /** fat32_read_file: the contents behind a path, if there is a file. */
  function ReadPath(g: Geo, d: Disk, comps: seq<Name>, leaf: Name): Option<seq<u8>>
    requires Sound(g, |d|)
  {
    match Walk(g, d, g.rootCluster, comps)
    case None => None
    case Some(dir) =>
      match Lookup(g, d, dir, leaf)
      case None => None
      case Some(it) => ReadItem(g, d, it)
  }

  /** Does the path lead to the entry at (lba, off)? */
  predicate LeadsTo(g: Geo, d: Disk, comps: seq<Name>, leaf: Name, lba: nat, off: nat)
    requires Sound(g, |d|)
  {
    match Walk(g, d, g.rootCluster, comps)
    case None => false
    case Some(dir) =>
      match Lookup(g, d, dir, leaf)
      case None => false
      case Some(it) => it.pos < |DirPlaces(g, d, dir)| && DirPlaces(g, d, dir)[it.pos] == (lba, off)
  }

  // ----- Slots that differ only in start, size and times of a file -----

  predicate Alike(s: Slot, t: Slot) {
    s == t || (IsShort(s) && IsShort(t) && !IsDir(s) && s[..18] == t[..18])
  }

  predicate AlikeItem(a: Dir.Item, b: Dir.Item) {
    a == b || (a.pos == b.pos && a.raw == b.raw && a.long == b.long && a.attr == b.attr && !Dir.IsDirItem(a))
  }

  lemma AlikeSlot(st: LfnState, s: Slot, t: Slot, pos: nat)
    requires Sane(st) && Alike(s, t)
    ensures After(st, s) == After(st, t) && (s[0] == 0 <==> t[0] == 0) && (IsShort(s) <==> IsShort(t))
    ensures AlikeItem(Dir.ItemOf(st, s, pos), Dir.ItemOf(st, t, pos))
  {
    if s != t {
      assert s[..18][0] == t[..18][0] && s[..18][11] == t[..18][11];
      assert s[..11] == s[..18][..11] && t[..11] == t[..18][..11];
      hide AfterLfn, Checksum, Cluster, Size;
    }
  }

  lemma {:induction false} ScanAlike(a: Dir.Slots, b: Dir.Slots, st: LfnState, base: nat)
    requires Sane(st) && |a| == |b| && forall i :: 0 <= i < |a| ==> Alike(a[i], b[i])
    ensures var x, y := Dir.Scan(a, st, base), Dir.Scan(b, st, base);
            |x| == |y| && forall i :: 0 <= i < |x| ==> AlikeItem(x[i], y[i])
    decreases |a|
  {
    hide Alike, AlikeItem, Dir.ItemOf, IsShort, After;
    if a != [] {
      AlikeSlot(st, a[0], b[0], base);
      ScanAlike(a[1..], b[1..], After(st, a[0]), base + 1);
    }
  }

  lemma {:induction false} FindAlike(a: seq<Dir.Item>, b: seq<Dir.Item>, w: Name)
    requires |a| == |b| && forall i :: 0 <= i < |a| ==> AlikeItem(a[i], b[i])
    ensures match Dir.Find(a, w)
            case None => Dir.Find(b, w).None?
            case Some(it) => Dir.Find(b, w).Some? && AlikeItem(it, Dir.Find(b, w).value)
    decreases |a|
  {
    if a != [] {
      FindAlike(a[1..], b[1..], w);
    }
  }

  /** An item repeats what its slot says. */
  lemma {:induction false} ItemAt(d: Dir.Slots, st: LfnState, base: nat, it: Dir.Item)
    requires Sane(st) && it in Dir.Scan(d, st, base)
    ensures base <= it.pos < base + |d|
    ensures var s := d[it.pos - base];
            it.clus == Cluster(s) && it.size == Size(s) && it.attr == s[11] && IsShort(s)
    decreases |d|
  {
    hide After, LongName;
    if it in Dir.Scan(d[1..], After(st, d[0]), base + 1) {
      ItemAt(d[1..], After(st, d[0]), base + 1, it);
    }
  }

  // ----- The live tree -----

  /** `dirs` are the live directories: closed under subdirectories, each file entry
      names a live file of its own, and the overwritten one is named only there. */
  ghost predicate Tree(g: Geo, a: Disk, chains: Chains, dirs: set<int>, lba: nat, off: nat)
    requires Sound(g, |a|) && lba < |a| && off + 32 <= 512
  {
    && g.rootCluster in dirs && dirs <= chains.Keys && StartOf(a[lba], off) !in dirs
    && off % 32 == 0 && IsShort(a[lba][off..off + 32]) && !IsDir(a[lba][off..off + 32])
    && forall h, it :: h in dirs && it in Dir.Items(DirSlots(g, a, h)) ==> InTree(g, a, chains, dirs, lba, off, h, it)
  }

  ghost predicate InTree(g: Geo, a: Disk, chains: Chains, dirs: set<int>, lba: nat, off: nat, h: int, it: Dir.Item)
    requires Sound(g, |a|) && lba < |a| && off + 32 <= 512
  {
    if Dir.IsDirItem(it) then it.clus == 0 || it.clus in dirs
    else
      && (it.clus < 2 || (it.clus in chains && it.clus !in dirs))
      && (it.clus >= 2 && it.clus == StartOf(a[lba], off) ==>
            it.pos < |DirPlaces(g, a, h)| && DirPlaces(g, a, h)[it.pos] == (lba, off))
  }

  /** A live directory keeps its places; its slots stay alike. */
  lemma DirAlike(g: Geo, a: Disk, d: Disk, chains: Chains, dirs: set<int>, lba: nat, off: nat, dir: int, dirClus: int,
                 src: seq<u8>, h: int)
    requires Sound(g, |a|) && lba < |a| && off + 32 <= 512 && |d| == |a|
    requires IsEntryOf(g, a, chains, lba, off, dir, dirClus) && Live(g, a, chains)
    requires OldOrNew(g, a, d, chains, lba, off, src) && Tree(g, a, chains, dirs, lba, off) && h in dirs
    ensures DirPlaces(g, d, h) == DirPlaces(g, a, h)
    ensures var x, y := DirSlots(g, a, h), DirSlots(g, d, h);
            |x| == |y| == |DirPlaces(g, a, h)|
            && forall i :: 0 <= i < |x| ==> Alike(x[i], y[i]) && (DirPlaces(g, a, h)[i] != (lba, off) ==> x[i] == y[i])
  {
    hide AgreesOff, FatTable, Live, IsEntryOf, Loose, Alike, PlaceOf, Chain, IsChain, InTree, StartOf, IsShort, IsDir;
    var e := StartOf(a[lba], off);
    var touch := Loose(FatTable(g, a), chains, e);
    ChainLive(g, a, chains, h);
    NotTouched(g, a, chains, lba, off, h);
    DirChainSame(g, a, d, chains, lba, off, dir, dirClus, h, touch);
    ChainShort(FatTable(g, a), chains[h]);
    ChainShort(FatTable(g, d), chains[h]);
    hide Tree, OldOrNew;
    assert DirPlaces(g, d, h) == DirPlaces(g, a, h);
    SlotsAlike(g, a, d, lba, off, touch, DirPlaces(g, a, h), chains[h]);
  }

  lemma SlotsAlike(g: Geo, a: Disk, d: Disk, lba: nat, off: nat, touch: iset<int>, ps: seq<Place>, q: seq<int>)
    requires Sound(g, |a|) && lba < |a| && off + 32 <= 512 && off % 32 == 0 && |d| == |a|
    requires UpToEntry(g, a, d, lba, off, touch) && forall i :: 0 <= i < |ps| ==> PlaceOf(g, |a|, ps[i], q)
    requires forall c :: c in q ==> c !in touch && 2 <= c < g.maxCluster
    requires IsShort(a[lba][off..off + 32]) && !IsDir(a[lba][off..off + 32])
    ensures forall i :: 0 <= i < |ps| ==> ps[i].0 < |a| && ps[i].1 <= 480 && Alike(SlotAt(a, ps[i]), SlotAt(d, ps[i]))
                                          && (ps[i] != (lba, off) ==> SlotAt(a, ps[i]) == SlotAt(d, ps[i]))
  {
    hide AgreesOff, Alike, PlaceOf, UpToEntry, IsShort, IsDir;
    forall i | 0 <= i < |ps|
      ensures ps[i].0 < |a| && ps[i].1 <= 480 && Alike(SlotAt(a, ps[i]), SlotAt(d, ps[i]))
      ensures ps[i] != (lba, off) ==> SlotAt(a, ps[i]) == SlotAt(d, ps[i])
    {
      PlaceFits(g, |a|, ps[i], q);
      SlotAlike(g, a, d, lba, off, touch, ps[i], q);
    }
  }

  lemma NotTouched(g: Geo, a: Disk, chains: Chains, lba: nat, off: nat, h: int)
    requires Sound(g, |a|) && lba < |a| && off + 32 <= 512 && Live(g, a, chains)
    requires h in chains && h != StartOf(a[lba], off)
    ensures forall c :: c in chains[h] ==> c !in Loose(FatTable(g, a), chains, StartOf(a[lba], off))
    ensures forall c :: c in chains[h] ==> 2 <= c < g.maxCluster
  {
    hide FatTable, StartOf, NoDup, Linked;
    ChainLive(g, a, chains, h);
    forall c | c in chains[h]
      ensures c !in Loose(FatTable(g, a), chains, StartOf(a[lba], off)) && 2 <= c < g.maxCluster
    {
      ChainUsed(FatTable(g, a), chains[h], c);
    }
  }

  /** The directory's chain is the same on both disks. */
  lemma DirChainSame(g: Geo, a: Disk, d: Disk, chains: Chains, lba: nat, off: nat, dir: int, dirClus: int,
                     h: int, touch: iset<int>)
    requires IsEntryOf(g, a, chains, lba, off, dir, dirClus) && h in chains && IsChain(FatTable(g, a), chains[h])
    requires |d| == |a| && AgreesOff(g, a[lba := d[lba]], d, touch) && forall c :: c in chains[h] ==> c !in touch
    ensures IsChain(FatTable(g, d), chains[h])
  {
    hide AgreesOff, FatTable, IsChain;
    EntryWrite(g, a, lba, dirClus, d[lba]);
    var b := a[lba := d[lba]];
    assert FatTable(g, b) == FatTable(g, a) by {
      FatTableIs(g, a);
      FatTableIs(g, b);
    }
    SameChain(g, b, d, touch, chains[h]);
  }

  lemma SlotAlike(g: Geo, a: Disk, d: Disk, lba: nat, off: nat, touch: iset<int>, p: Place, q: seq<int>)
    requires Sound(g, |a|) && lba < |a| && off + 32 <= 512 && off % 32 == 0
    requires UpToEntry(g, a, d, lba, off, touch) && PlaceOf(g, |a|, p, q) && p.0 < |a| == |d| && p.1 <= 480
    requires forall c :: c in q ==> c !in touch && 2 <= c < g.maxCluster
    requires IsShort(a[lba][off..off + 32]) && !IsDir(a[lba][off..off + 32])
    ensures Alike(SlotAt(a, p), SlotAt(d, p)) && (p != (lba, off) ==> SlotAt(a, p) == SlotAt(d, p))
  {
    hide AgreesOff, InCluster;
    var c :| c in q && InCluster(g, p.0, c);
    var b := a[lba := d[lba]];
    BlockSame(g, b, d, touch, p.0, c);
    if p.0 == lba {
      EntryAlike(a[lba], d[lba], off, p.1);
    }
  }

  lemma EntryAlike(x: Block, y: Block, off: nat, at: nat)
    requires off <= 480 && off % 32 == 0 && at <= 480 && at % 32 == 0
    requires forall i :: 0 <= i < 512 && !(off + 18 <= i < off + 32) ==> y[i] == x[i]
    requires IsShort(x[off..off + 32]) && !IsDir(x[off..off + 32])
    ensures Alike(x[at..at + 32], y[at..at + 32]) && (at != off ==> x[at..at + 32] == y[at..at + 32])
  {
    if at != off {
      assert at + 32 <= off || off + 32 <= at;
      assert x[at..at + 32] == y[at..at + 32];
    } else {
      var s, t := x[off..off + 32], y[off..off + 32];
      assert s[..18] == t[..18];
      assert s[0] == t[0] && s[11] == t[11];
    }
  }

  // ----- Walking and reading -----

  lemma LookupAlike(g: Geo, a: Disk, d: Disk, chains: Chains, dirs: set<int>, lba: nat, off: nat, dir: int,
                    dirClus: int, src: seq<u8>, h: int, name: Name)
    requires Sound(g, |a|) && lba < |a| && off + 32 <= 512 && |d| == |a|
    requires IsEntryOf(g, a, chains, lba, off, dir, dirClus) && Live(g, a, chains)
    requires OldOrNew(g, a, d, chains, lba, off, src) && Tree(g, a, chains, dirs, lba, off) && h in dirs
    ensures DirPlaces(g, d, h) == DirPlaces(g, a, h)
    ensures match Lookup(g, a, h, name)
            case None => Lookup(g, d, h, name).None?
            case Some(it) => Lookup(g, d, h, name).Some? && AlikeItem(it, Lookup(g, d, h, name).value)
                             && InTree(g, a, chains, dirs, lba, off, h, it)
                             && it.pos < |DirPlaces(g, a, h)|
                             && (DirPlaces(g, a, h)[it.pos] != (lba, off) ==> it == Lookup(g, d, h, name).value)
  {
    hide DirSlots, DirPlaces, InTree, Alike, AlikeItem, OldOrNew, Live, IsEntryOf;
    DirAlike(g, a, d, chains, dirs, lba, off, dir, dirClus, src, h);
    var x, y := DirSlots(g, a, h), DirSlots(g, d, h);
    ScanAlike(x, y, Idle, 0);
    FindAlike(Dir.Items(x), Dir.Items(y), name);
    if Lookup(g, a, h, name).Some? {
      SameSlotSameItem(x, y, Lookup(g, a, h, name).value, Lookup(g, d, h, name).value);
    }
  }

  lemma SameSlotSameItem(x: Dir.Slots, y: Dir.Slots, s: Dir.Item, t: Dir.Item)
    requires s in Dir.Items(x) && t in Dir.Items(y) && AlikeItem(s, t) && |x| == |y|
    ensures s.pos < |x| && (x[s.pos] == y[s.pos] ==> s == t)
  {
    hide Dir.Scan;
    ItemAt(x, Idle, 0, s);
    ItemAt(y, Idle, 0, t);
  }

  lemma {:induction false} WalkSame(g: Geo, a: Disk, d: Disk, chains: Chains, dirs: set<int>, lba: nat, off: nat,
                                    dir: int, dirClus: int, src: seq<u8>, h: int, comps: seq<Name>)
    requires Sound(g, |a|) && lba < |a| && off + 32 <= 512 && |d| == |a|
    requires IsEntryOf(g, a, chains, lba, off, dir, dirClus) && Live(g, a, chains)
    requires OldOrNew(g, a, d, chains, lba, off, src) && Tree(g, a, chains, dirs, lba, off) && h in dirs
    ensures Walk(g, d, h, comps) == Walk(g, a, h, comps)
    ensures Walk(g, a, h, comps).Some? ==> Walk(g, a, h, comps).value in dirs
    decreases |comps|
  {
    if comps == [] {
      LookupAlike(g, a, d, chains, dirs, lba, off, dir, dirClus, src, h, []);
    } else {
      LookupAlike(g, a, d, chains, dirs, lba, off, dir, dirClus, src, h, comps[0]);
      hide Lookup, OldOrNew, Live, IsEntryOf;
      if Lookup(g, a, h, comps[0]).Some? && Dir.IsDirItem(Lookup(g, a, h, comps[0]).value) {
        var it := Lookup(g, a, h, comps[0]).value;
        var next := if it.clus != 0 then it.clus else g.rootCluster;
        WalkSame(g, a, d, chains, dirs, lba, off, dir, dirClus, src, next, comps[1..]);
      }
    }
  }

  /** An item that is not the overwritten one names the same file on both disks. */
  lemma ItemReads(g: Geo, a: Disk, d: Disk, chains: Chains, dirs: set<int>, lba: nat, off: nat, dir: int, dirClus: int,
                  src: seq<u8>, h: int, it: Dir.Item, n: nat)
    requires Sound(g, |a|) && lba < |a| && off + 32 <= 512 && |d| == |a|
    requires IsEntryOf(g, a, chains, lba, off, dir, dirClus) && Live(g, a, chains) && dir in dirs
    requires OldOrNew(g, a, d, chains, lba, off, src) && InTree(g, a, chains, dirs, lba, off, h, it)
    requires !Dir.IsDirItem(it)
    requires it.clus < 2 || it.clus != StartOf(a[lba], off)
    ensures Read(g, d, it.clus, n) == Read(g, a, it.clus, n)
  {
    hide IsEntryOf, OldOrNew, Live, DirPlaces, StartOf;
    if it.clus >= 2 {
      OthersUntouched(g, a, d, chains, lba, off, dir, dirClus, src, it.clus, n);
    } else {
      ReadOutside(g, a, d, it.clus, n);
    }
  }

  /** What the found item says is what its slot on that disk says. */
  lemma FoundAt(g: Geo, d: Disk, h: int, name: Name)
    requires Sound(g, |d|) && Lookup(g, d, h, name).Some?
    ensures var it := Lookup(g, d, h, name).value;
            && it.pos < |DirPlaces(g, d, h)|
            && DirPlaces(g, d, h)[it.pos].0 < |d| && DirPlaces(g, d, h)[it.pos].1 <= 480
            && it.clus == StartOf(d[DirPlaces(g, d, h)[it.pos].0], DirPlaces(g, d, h)[it.pos].1)
            && it.size == SizeOf(d[DirPlaces(g, d, h)[it.pos].0], DirPlaces(g, d, h)[it.pos].1)
  {
    hide DirPlaces, PlaceOf;
    var it := Lookup(g, d, h, name).value;
    ItemAt(DirSlots(g, d, h), Idle, 0, it);
    var p := DirPlaces(g, d, h)[it.pos];
    PlaceFits(g, |d|, p, Chain(FatTable(g, d), h));
    SlotFields(d[p.0], p.1);
  }

  lemma SlotFields(b: Block, off: nat)
    requires off <= 480
    ensures Cluster(b[off..off + 32]) == StartOf(b, off) && Size(b[off..off + 32]) == SizeOf(b, off)
  {
  }

  /** The crash guarantee by path: after any prefix of the block writes, a path reads
      as before, or it leads to the overwritten entry and reads exactly the new
      contents; a path to the entry read its old contents before. */
  lemma PathIsAtomic(g: Geo, a: Disk, d: Disk, chains: Chains, dirs: set<int>, lba: nat, off: nat, dir: int,
                     dirClus: int, src: seq<u8>, comps: seq<Name>, leaf: Name)
    requires Sound(g, |a|) && lba < |a| && off + 32 <= 512 && |d| == |a|
    requires IsEntryOf(g, a, chains, lba, off, dir, dirClus) && Live(g, a, chains) && dir in dirs
    requires OldOrNew(g, a, d, chains, lba, off, src) && Tree(g, a, chains, dirs, lba, off)
    ensures ReadPath(g, d, comps, leaf) == ReadPath(g, a, comps, leaf)
         || (LeadsTo(g, a, comps, leaf, lba, off) && ReadPath(g, d, comps, leaf) == Some(src))
    ensures LeadsTo(g, a, comps, leaf, lba, off) ==>
              ReadPath(g, a, comps, leaf) == ReadEntry(g, a, lba, off)
              && ReadPath(g, d, comps, leaf) == ReadEntry(g, d, lba, off)
  {
    hide IsEntryOf, Live, Lookup, DirPlaces, StartOf, SizeOf, Read, OldOrNew, Tree, Walk, InTree, AlikeItem,
         Dir.IsDirItem;
    var root := g.rootCluster;
    RootLive(g, a, chains, dirs, lba, off);
    WalkSame(g, a, d, chains, dirs, lba, off, dir, dirClus, src, root, comps);
    if Walk(g, a, root, comps).Some? {
      var h := Walk(g, a, root, comps).value;
      LookupAlike(g, a, d, chains, dirs, lba, off, dir, dirClus, src, h, leaf);
      if Lookup(g, a, h, leaf).Some? {
        LeafAtomic(g, a, d, chains, dirs, lba, off, dir, dirClus, src, h, leaf);
      }
    }
  }

  lemma RootLive(g: Geo, a: Disk, chains: Chains, dirs: set<int>, lba: nat, off: nat)
    requires Sound(g, |a|) && lba < |a| && off + 32 <= 512 && Tree(g, a, chains, dirs, lba, off)
    ensures g.rootCluster in dirs && off <= 480 && off % 32 == 0
    ensures IsShort(a[lba][off..off + 32]) && !IsDir(a[lba][off..off + 32])
  {
    hide InTree;
  }

  /** What ReadPath makes of a found item. */
  function ReadItem(g: Geo, d: Disk, it: Dir.Item): Option<seq<u8>>
    requires Sound(g, |d|)
  {
    if Dir.IsDirItem(it) || it.size < 0 then None else Read(g, d, it.clus, it.size)
  }

  lemma LeafAtomic(g: Geo, a: Disk, d: Disk, chains: Chains, dirs: set<int>, lba: nat, off: nat, dir: int, dirClus: int,
                   src: seq<u8>, h: int, leaf: Name)
    requires Sound(g, |a|) && lba < |a| && off + 32 <= 512 && |d| == |a|
    requires IsEntryOf(g, a, chains, lba, off, dir, dirClus) && Live(g, a, chains) && dir in dirs
    requires OldOrNew(g, a, d, chains, lba, off, src) && Tree(g, a, chains, dirs, lba, off) && h in dirs
    requires Lookup(g, a, h, leaf).Some? && Lookup(g, d, h, leaf).Some?
    requires var x, y := Lookup(g, a, h, leaf).value, Lookup(g, d, h, leaf).value;
             && AlikeItem(x, y) && InTree(g, a, chains, dirs, lba, off, h, x) && x.pos < |DirPlaces(g, a, h)|
             && (DirPlaces(g, a, h)[x.pos] != (lba, off) ==> x == y)
    requires DirPlaces(g, d, h) == DirPlaces(g, a, h)
    ensures var x, y := Lookup(g, a, h, leaf).value, Lookup(g, d, h, leaf).value;
            if DirPlaces(g, a, h)[x.pos] == (lba, off)
            then && ReadItem(g, a, x) == ReadEntry(g, a, lba, off) && ReadItem(g, d, y) == ReadEntry(g, d, lba, off)
                 && (ReadItem(g, d, y) == ReadItem(g, a, x) || ReadItem(g, d, y) == Some(src))
            else ReadItem(g, d, y) == ReadItem(g, a, x)
  {
    hide IsEntryOf, Live, Lookup, DirPlaces, StartOf, SizeOf, Read, Loose, UpToEntry, Tree, InTree;
    var x, y := Lookup(g, a, h, leaf).value, Lookup(g, d, h, leaf).value;
    FoundAt(g, a, h, leaf);
    FoundAt(g, d, h, leaf);
    if DirPlaces(g, a, h)[x.pos] == (lba, off) {
      RootLive(g, a, chains, dirs, lba, off);
      FoundFile(g, a, h, leaf, lba, off);
    } else if !Dir.IsDirItem(x) {
      hide OldOrNew;
      NotTarget(g, a, chains, dirs, lba, off, h, x);
      ItemReads(g, a, d, chains, dirs, lba, off, dir, dirClus, src, h, x, x.size);
    }
  }

  /** The item at the overwritten entry is a file. */
  lemma FoundFile(g: Geo, d: Disk, h: int, leaf: Name, lba: nat, off: nat)
    requires Sound(g, |d|) && lba < |d| && off <= 480 && Lookup(g, d, h, leaf).Some?
    requires !IsDir(d[lba][off..off + 32])
    requires var it := Lookup(g, d, h, leaf).value;
             it.pos < |DirPlaces(g, d, h)| && DirPlaces(g, d, h)[it.pos] == (lba, off)
    ensures !Dir.IsDirItem(Lookup(g, d, h, leaf).value)
  {
    hide DirPlaces, PlaceOf;
    ItemAt(DirSlots(g, d, h), Idle, 0, Lookup(g, d, h, leaf).value);
  }

  lemma NotTarget(g: Geo, a: Disk, chains: Chains, dirs: set<int>, lba: nat, off: nat, h: int, it: Dir.Item)
    requires Sound(g, |a|) && lba < |a| && off + 32 <= 512 && InTree(g, a, chains, dirs, lba, off, h, it)
    requires !Dir.IsDirItem(it)
    requires it.pos < |DirPlaces(g, a, h)| && DirPlaces(g, a, h)[it.pos] != (lba, off)
    ensures it.clus < 2 || it.clus != StartOf(a[lba], off)
  {
  }
}
