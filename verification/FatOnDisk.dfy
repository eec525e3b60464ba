/** The volume of FatLive read off the blocks of a disk: directory slots are the bytes of
    the clusters, and the table is the first copy of the FAT. */
module FatOnDisk {
  import opened Words
  import opened FatChain
  import opened FatOwner
  import opened FatDisk
  import opened FatLfn
  import Dir = FatDir
  import Place = FatPlace
  import Path = FatPath
  import Runs = FatRuns
  import Contents = FatContents
  import opened FatLive

  /** The slots at these places of the disk. */
  function SlotsAt(d: Disk, ps: seq<Path.Place>): Dir.Slots
    requires forall i :: 0 <= i < |ps| ==> ps[i].0 < |d| && ps[i].1 <= 480
  {
    seq(|ps|, i requires 0 <= i < |ps| => Path.SlotAt(d, ps[i]))
  }

  function ClusterSlots(g: Geo, d: Disk, c: int): Dir.Slots
    requires FatDisk.Sound(g, |d|)
  {
    if 2 <= c < g.maxCluster then
      Path.ClusterPlacesIn(g, |d|, c, 0);
      SlotsAt(d, Path.ClusterPlaces(g, c, 0))
    else Place.BlankSlots(16 * g.secPerClus)
  }

  function AreaOf(g: Geo, d: Disk): (r: seq<Dir.Slots>)
    requires FatDisk.Sound(g, |d|)
    ensures |r| == g.maxCluster
  {
    seq(g.maxCluster, c requires 0 <= c < g.maxCluster => ClusterSlots(g, d, c))
  }

  /** The disk with this free count and hint in memory. */
  function OnDisk(g: Geo, d: Disk, freeCount: int, hint: int): Volume
    requires FatDisk.Sound(g, |d|)
  {
    Volume(Vol(FatTable(g, d), freeCount, hint), AreaOf(g, d), g.rootCluster, 16 * g.secPerClus)
  }

  lemma {:induction false} PlacesCount(g: Geo, c: int, s: nat)
    requires s <= g.secPerClus && c >= 2
    ensures |Path.ClusterPlaces(g, c, s)| == 16 * (g.secPerClus - s)
    decreases g.secPerClus - s
  {
    if s < g.secPerClus {
      PlacesCount(g, c, s + 1);
    }
  }

  lemma ShapedOnDisk(g: Geo, d: Disk, freeCount: int, hint: int)
    requires FatDisk.Sound(g, |d|) && g.secPerClus >= 1
    ensures Shaped(OnDisk(g, d, freeCount, hint))
  {
    var s := OnDisk(g, d, freeCount, hint);
    forall c | 0 <= c < |s.area|
      ensures |s.area[c]| == s.per
    {
      if c >= 2 {
        PlacesCount(g, c, 0);
      }
    }
  }

  lemma SlotsJoin(d: Disk, a: seq<Path.Place>, b: seq<Path.Place>)
    requires forall i :: 0 <= i < |a| ==> a[i].0 < |d| && a[i].1 <= 480
    requires forall i :: 0 <= i < |b| ==> b[i].0 < |d| && b[i].1 <= 480
    ensures forall i :: 0 <= i < |a + b| ==> (a + b)[i].0 < |d| && (a + b)[i].1 <= 480
    ensures SlotsAt(d, a + b) == SlotsAt(d, a) + SlotsAt(d, b)
  {
  }

  lemma {:induction false} FlatPlaces(g: Geo, d: Disk, q: seq<int>)
    requires FatDisk.Sound(g, |d|) && forall i :: 0 <= i < |q| ==> 2 <= q[i] < g.maxCluster
    ensures forall i :: 0 <= i < |Path.Places(g, q)| ==> Path.Places(g, q)[i].0 < |d| && Path.Places(g, q)[i].1 <= 480
    ensures SlotsAt(d, Path.Places(g, q)) == Flat(AreaOf(g, d), q)
    decreases |q|
  {
    if q != [] {
      FlatPlaces(g, d, q[1..]);
      Path.ClusterPlacesIn(g, |d|, q[0], 0);
      SlotsJoin(d, Path.ClusterPlaces(g, q[0], 0), Path.Places(g, q[1..]));
    }
  }

  /** A directory of the volume is the directory on the disk. */
  lemma DirOnDisk(g: Geo, d: Disk, freeCount: int, hint: int, h: int)
    requires FatDisk.Sound(g, |d|)
    ensures DirOf(OnDisk(g, d, freeCount, hint), h) == Path.DirSlots(g, d, h)
  {
    var q := Chain(FatTable(g, d), h);
    PathIsNth(FatTable(g, d), h, |FatTable(g, d)|);
    FlatPlaces(g, d, q);
    hide Flat, Path.Places;
    assert Path.DirPlaces(g, d, h) == Path.Places(g, q);
  }

  /** The path walk of the volume is the one on the disk. */
  lemma {:induction false} WalkOnDisk(g: Geo, d: Disk, freeCount: int, hint: int, h: int, comps: seq<Name>)
    requires FatDisk.Sound(g, |d|)
    ensures Walk(OnDisk(g, d, freeCount, hint), h, comps) == Path.Walk(g, d, h, comps)
    decreases |comps|
  {
    hide OnDisk, Dir.Items, Path.DirSlots, DirOf, Dir.Find;
    DirOnDisk(g, d, freeCount, hint, h);
    if comps != [] && Path.Lookup(g, d, h, comps[0]).Some? {
      var it := Path.Lookup(g, d, h, comps[0]).value;
      WalkOnDisk(g, d, freeCount, hint, if it.clus != 0 then it.clus else g.rootCluster, comps[1..]);
    }
    RootOnDisk(g, d, freeCount, hint);
  }

  lemma RootOnDisk(g: Geo, d: Disk, freeCount: int, hint: int)
    requires FatDisk.Sound(g, |d|)
    ensures OnDisk(g, d, freeCount, hint).root == g.rootCluster
  {
  }

  /** The words of an overwritten entry, in the block ... */
  lemma PatchedTimes(b: Block, off: nat, first: u32, len: u32, date: u16, time: u16)
    requires off + 32 <= 512
    ensures var r := Contents.PatchEntry(b, off, first, len, date, time);
            && r[off..off + 18] == b[off..off + 18] && r[off + 18..off + 20] == Word(date)
            && r[off + 22..off + 24] == Word(time) && r[off + 24..off + 26] == Word(date)
  {
  }

  lemma PatchedStart(b: Block, off: nat, first: u32, len: u32, date: u16, time: u16)
    requires off + 32 <= 512
    ensures var r := Contents.PatchEntry(b, off, first, len, date, time);
            && r[off + 20..off + 22] == Word(first / 0x1_0000) && r[off + 26..off + 28] == Word(first % 0x1_0000)
            && r[off + 28..off + 32] == Four(len)
  {
  }

  function Four(w: u32): seq<u8> {
    [w % 0x100, w / 0x100 % 0x100, w / 0x1_0000 % 0x100, w / 0x100_0000]
  }

  lemma TwoWords(w: u32)
    ensures Word(w % 0x1_0000) + Word(w / 0x1_0000) == Four(w)
  {
    var lo, hi := w % 0x1_0000, w / 0x1_0000;
    FourBytes(w, lo % 0x100, lo / 0x100, hi % 0x100, hi / 0x100);
  }

  lemma FourBytes(w: u32, a: u8, b: u8, c: u8, d: u8)
    requires w == a + 0x100 * b + 0x1_0000 * c + 0x100_0000 * d
    ensures w % 0x100 == a && w / 0x100 % 0x100 == b && w / 0x1_0000 % 0x100 == c && w / 0x100_0000 == d
  {
    assert w / 0x100 == b + 0x100 * c + 0x1_0000 * d && w / 0x1_0000 == c + 0x100 * d;
  }

  /** ... and overwriting an entry in its block is overwriting the slot. */
  lemma PatchIsRepoint(b: Block, off: nat, first: u32, len: u32, date: u16, time: u16)
    requires off + 32 <= 512
    ensures Contents.PatchEntry(b, off, first, len, date, time)[off..off + 32]
         == Runs.Repointed(b[off..off + 32], first, len, date, time)
  {
    var r, de := Contents.PatchEntry(b, off, first, len, date, time), b[off..off + 32];
    PatchedTimes(b, off, first, len, date, time);
    PatchedStart(b, off, first, len, date, time);
    TwoWords(len);
    assert de[..18] == b[off..off + 18];
    hide Contents.PatchEntry, Word, Four;
    SevenPieces(r, off);
  }

  lemma SevenPieces(r: seq<u8>, off: nat)
    requires off + 32 <= |r|
    ensures r[off..off + 32] == r[off..off + 18] + r[off + 18..off + 20] + r[off + 20..off + 22] + r[off + 22..off + 24]
                                + r[off + 24..off + 26] + r[off + 26..off + 28] + r[off + 28..off + 32]
  {
  }
}
