/** The on-disk side of fs/fat32.c: 512-byte blocks, little-endian words, the
    geometry fixed at mount, and the table a disk holds in each FAT copy. */
module FatDisk {
  import opened Basics
  import opened Words
  import opened FatChain

  type Block = b: seq<u8> | |b| == 512 witness seq(512, i => 0)

  type Disk = seq<Block>

  // ----- Words in a block -----

  function Rd16(b: seq<u8>, off: nat): (w: int)
    requires off + 2 <= |b|
    ensures 0 <= w < 0x1_0000
  {
    var lo: int, hi: int := b[off], b[off + 1];
    lo + 0x100 * hi
  }

  function Rd32(b: seq<u8>, off: nat): (w: u32)
    requires off + 4 <= |b|
  {
    var b0: int, b1: int, b2: int, b3: int := b[off], b[off + 1], b[off + 2], b[off + 3];
    b0 + 0x100 * b1 + 0x1_0000 * b2 + 0x100_0000 * b3
  }

  function Put32(b: seq<u8>, off: nat, w: u32): (r: seq<u8>)
    requires off + 4 <= |b|
    ensures |r| == |b|
  {
    b[off := w % 0x100][off + 1 := w / 0x100 % 0x100][off + 2 := w / 0x1_0000 % 0x100][off + 3 := w / 0x100_0000]
  }

  lemma WordRoundTrip(b: seq<u8>, off: nat, w: u32)
    requires off + 4 <= |b|
    ensures Rd32(Put32(b, off, w), off) == w
  {
    assert w == w % 0x100 + 0x100 * (w / 0x100);
    assert w / 0x100 == w / 0x100 % 0x100 + 0x100 * (w / 0x100 / 0x100);
    assert w / 0x100 / 0x100 == w / 0x1_0000;
    assert w / 0x1_0000 == w / 0x1_0000 % 0x100 + 0x100 * (w / 0x1_0000 / 0x100);
    assert w / 0x1_0000 / 0x100 == w / 0x100_0000;
  }

  lemma WordElsewhere(b: seq<u8>, off: nat, w: u32, o: nat)
    requires off + 4 <= |b| && o + 4 <= |b| && (o + 4 <= off || off + 4 <= o)
    ensures Rd32(Put32(b, off, w), o) == Rd32(b, o)
  {
  }

  // ----- Geometry -----

  /** What mounting fixes; fsinfoLba is 0 when there is no usable FSInfo sector. */
  datatype Geo = Geo(fatLba: nat, fatSize: nat, numFats: nat, dataLba: nat, secPerClus: nat,
                     maxCluster: nat, rootCluster: nat, fsinfoLba: nat)

  /** Every FAT entry of a valid cluster lies in each FAT copy, every sector of a
      valid cluster in the data area of a disk of `n` blocks. */
  predicate Bounded(g: Geo, n: nat) {
    && g.numFats >= 1 && g.secPerClus >= 1
    && g.dataLba == g.fatLba + g.numFats * g.fatSize
    && g.maxCluster <= g.fatSize * 128 && g.maxCluster <= 0x0FFF_FFF7
    && g.dataLba + (g.maxCluster - 2) * g.secPerClus <= n && g.dataLba <= n
  }

  /** ... and FSInfo lies before the FATs. */
  predicate Sound(g: Geo, n: nat) {
    Bounded(g, n) && g.fsinfoLba < g.fatLba
  }

  datatype MountError = BadBpb | Inconsistent

  datatype Result<T> = Ok(value: T) | Err(error: MountError)

  /** Sectors before the data area, counted from the partition start. */
  function UsedSectors(boot: Block): nat {
    var fats: nat, fatsz: nat := boot[16], Rd32(boot, 36);
    MulMono(0, fats, fatsz);
    Rd16(boot, 14) + fats * fatsz
  }

  /** Bounded by the sectors there are, by the entries there are, by FAT32. */
  function ClusterLimit(room: nat, spc: nat, fatsz: nat): nat
    requires spc > 0
  {
    var byData := room / spc + 2;
    var byFat := fatsz * 512 / 4;
    var maxc := if byData > byFat then byFat else byData;
    if maxc > 0x0FFF_FFF7 then 0x0FFF_FFF7 else maxc
  }

  /** fat32_mount: geometry from the boot sector of the partition at `part`. */
  function Geometry(boot: Block, part: nat): Result<Geo> {
    hide Rd16, Rd32, UsedSectors, ClusterLimit;
    var spc, fats := boot[13], boot[16];
    var fatsz, root, tot := Rd32(boot, 36), Rd32(boot, 44), Rd32(boot, 32);
    var used := UsedSectors(boot);
    if Rd16(boot, 11) != 512 || spc == 0 || fats == 0 || fatsz == 0 || root < 2 then Err(BadBpb)
    else if tot <= used then Err(Inconsistent)
    else
      var fsi := Rd16(boot, 48);
      Ok(Geo(part + Rd16(boot, 14), fatsz, fats, part + used, spc, ClusterLimit(tot - used, spc, fatsz), root,
             if fsi != 0 && fsi != 0xFFFF then part + fsi else 0))
  }

  /** However hostile the boot sector: whatever mounts keeps all cluster accesses
      inside the partition, and FSInfo apart from the FATs exactly if its sector lies
      in the reserved area. */
  lemma MountIsSound(boot: Block, part: nat)
    requires Geometry(boot, part).Ok?
    ensures var g := Geometry(boot, part).value;
            && Bounded(g, part + Rd32(boot, 32))
            && (Sound(g, part + Rd32(boot, 32)) <==> g.fsinfoLba < part + Rd16(boot, 14))
  {
    var g := Geometry(boot, part).value;
    var room := Rd32(boot, 32) - UsedSectors(boot);
    hide Rd32, Rd16;
    assert g.maxCluster - 2 <= room / g.secPerClus;
    QuotientFits(g.maxCluster - 2, room, g.secPerClus);
    hide ClusterLimit;
  }

  lemma QuotientFits(q: int, n: nat, d: nat)
    requires d >= 1 && q <= n / d
    ensures q * d <= n
  {
    assert n == n / d * d + n % d;
    MulMono(q, n / d, d);
  }

  /** First sector of a cluster. */
  function ClusterLba(g: Geo, c: int): int {
    g.dataLba + (c - 2) * g.secPerClus
  }

  /** Sector `s` of a valid cluster lies in the data area, and belongs to no other. */
  lemma ClusterInside(g: Geo, n: nat, c: int, s: nat)
    requires Sound(g, n) && 2 <= c < g.maxCluster && s < g.secPerClus
    ensures g.dataLba <= ClusterLba(g, c) + s < n
  {
    MulMono(c - 2 + 1, g.maxCluster - 2, g.secPerClus);
    MulMono(0, c - 2, g.secPerClus);
    assert (c - 2 + 1) * g.secPerClus == (c - 2) * g.secPerClus + g.secPerClus;
  }

  lemma ClustersApart(g: Geo, c: int, s: nat, d: int, r: nat)
    requires s < g.secPerClus && r < g.secPerClus && c != d
    ensures ClusterLba(g, c) + s != ClusterLba(g, d) + r
  {
    if c < d {
      MulMono(1, d - c, g.secPerClus);
      assert (d - 2) * g.secPerClus - (c - 2) * g.secPerClus == (d - c) * g.secPerClus;
    } else {
      MulMono(1, c - d, g.secPerClus);
      assert (c - 2) * g.secPerClus - (d - 2) * g.secPerClus == (c - d) * g.secPerClus;
    }
  }

  // ----- The table of a FAT copy -----

  function EntrySector(c: nat): nat {
    c * 4 / 512
  }

  function EntryOff(c: nat): (o: nat)
    ensures o + 4 <= 512
  {
    c * 4 % 512
  }

  lemma EntriesApart(c: nat, d: nat)
    requires c != d && EntrySector(c) == EntrySector(d)
    ensures EntryOff(c) + 4 <= EntryOff(d) || EntryOff(d) + 4 <= EntryOff(c)
  {
  }

  function EntryLba(g: Geo, k: nat, c: nat): nat {
    g.fatLba + k * g.fatSize + EntrySector(c)
  }

  /** Each entry lies in its own FAT copy. */
  lemma EntryInside(g: Geo, n: nat, k: nat, c: nat)
    requires Sound(g, n) && k < g.numFats && c < g.maxCluster
    ensures g.fatLba + k * g.fatSize <= EntryLba(g, k, c) < g.fatLba + (k + 1) * g.fatSize <= g.dataLba <= n
    ensures EntryLba(g, k, c) < n
  {
    MulMono(k + 1, g.numFats, g.fatSize);
    assert (k + 1) * g.fatSize == k * g.fatSize + g.fatSize;
  }

  lemma CopiesApart(g: Geo, n: nat, k: nat, c: nat, m: nat, d: nat)
    requires Sound(g, n) && k < g.numFats && m < g.numFats && c < g.maxCluster && d < g.maxCluster
    requires k != m
    ensures EntryLba(g, k, c) != EntryLba(g, m, d)
  {
    EntryInside(g, n, k, c);
    EntryInside(g, n, m, d);
    if k < m {
      MulMono(k + 1, m, g.fatSize);
    } else {
      MulMono(m + 1, k, g.fatSize);
    }
  }

  /** All 32 bits of the entry of `c` in copy `k`. */
  function RawEntry(g: Geo, d: Disk, k: nat, c: nat): u32
    requires Sound(g, |d|) && k < g.numFats && c < g.maxCluster
  {
    EntryInside(g, |d|, k, c);
    Rd32(d[EntryLba(g, k, c)], EntryOff(c))
  }

  /** The table of copy `k`: the low 28 bits of its entries. */
  function TableOf(g: Geo, d: Disk, k: nat): (t: Table)
    requires Sound(g, |d|) && k < g.numFats
    ensures |t| == g.maxCluster && Fits(t)
  {
    seq(g.maxCluster, c requires 0 <= c < g.maxCluster => RawEntry(g, d, k, c) % 0x1000_0000)
  }

  /** The table the driver reads. */
  function FatTable(g: Geo, d: Disk): (t: Table)
    requires Sound(g, |d|)
    ensures |t| == g.maxCluster && Fits(t)
  {
    TableOf(g, d, 0)
  }

  /** Read-modify-write of one entry: the top four bits stay. */
  function Patch(b: Block, c: nat, v: int): (r: Block) {
    var was := Rd32(b, EntryOff(c));
    Put32(b, EntryOff(c), was / 0x1000_0000 * 0x1000_0000 + v % 0x1000_0000)
  }

  lemma PatchSets(b: Block, c: nat, v: int)
    ensures Rd32(Patch(b, c, v), EntryOff(c)) % 0x1000_0000 == v % 0x1000_0000
    ensures Rd32(Patch(b, c, v), EntryOff(c)) / 0x1000_0000 == Rd32(b, EntryOff(c)) / 0x1000_0000
  {
    var was := Rd32(b, EntryOff(c));
    WordRoundTrip(b, EntryOff(c), was / 0x1000_0000 * 0x1000_0000 + v % 0x1000_0000);
  }

  lemma PatchElsewhere(b: Block, c: nat, v: int, d: nat)
    requires c != d && EntrySector(c) == EntrySector(d)
    ensures Rd32(Patch(b, c, v), EntryOff(d)) == Rd32(b, EntryOff(d))
  {
    EntriesApart(c, d);
    WordElsewhere(b, EntryOff(c), Rd32(b, EntryOff(c)) / 0x1000_0000 * 0x1000_0000 + v % 0x1000_0000, EntryOff(d));
  }

  /** fat_set_next after its first `n` copies. */
  function SetCopies(g: Geo, d: Disk, c: nat, v: int, n: nat): (r: Disk)
    requires Sound(g, |d|) && n <= g.numFats && c < g.maxCluster
    ensures |r| == |d|
    decreases n
  {
    if n == 0 then d
    else
      var e := SetCopies(g, d, c, v, n - 1);
      EntryInside(g, |d|, n - 1, c);
      e[EntryLba(g, n - 1, c) := Patch(e[EntryLba(g, n - 1, c)], c, v)]
  }

  /** Blocks outside the entry's sector in the first `n` copies are untouched. */
  lemma {:induction false} CopiesTouch(g: Geo, d: Disk, c: nat, v: int, n: nat, lba: nat)
    requires Sound(g, |d|) && n <= g.numFats && c < g.maxCluster && lba < |d|
    requires forall k :: 0 <= k < n ==> lba != EntryLba(g, k, c)
    ensures SetCopies(g, d, c, v, n)[lba] == d[lba]
    decreases n
  {
    if n > 0 {
      CopiesTouch(g, d, c, v, n - 1, lba);
      EntryInside(g, |d|, n - 1, c);
      assert lba != EntryLba(g, n - 1, c);
    }
  }

  /** Each of the first `n` copies holds the patched block. */
  lemma {:induction false} CopyPatched(g: Geo, d: Disk, c: nat, v: int, n: nat, k: nat)
    requires Sound(g, |d|) && k < n <= g.numFats && c < g.maxCluster
    ensures EntryLba(g, k, c) < |d|
    ensures SetCopies(g, d, c, v, n)[EntryLba(g, k, c)] == Patch(d[EntryLba(g, k, c)], c, v)
    decreases n
  {
    EntryInside(g, |d|, k, c);
    EntryInside(g, |d|, n - 1, c);
    if k == n - 1 {
      forall m | 0 <= m < n - 1
        ensures EntryLba(g, k, c) != EntryLba(g, m, c)
      {
        CopiesApart(g, |d|, k, c, m, c);
      }
      CopiesTouch(g, d, c, v, n - 1, EntryLba(g, k, c));
    } else {
      CopiesApart(g, |d|, k, c, n - 1, c);
      CopyPatched(g, d, c, v, n - 1, k);
    }
  }

  /** fat_set_next on one entry of one copy, seen from any entry of any copy. */
  lemma {:induction false} SetEntry(g: Geo, d: Disk, c: nat, v: int, n: nat, k: nat, x: nat)
    requires Sound(g, |d|) && n <= g.numFats && k < g.numFats && c < g.maxCluster && x < g.maxCluster
    ensures var r := RawEntry(g, SetCopies(g, d, c, v, n), k, x);
            && r / 0x1000_0000 == RawEntry(g, d, k, x) / 0x1000_0000
            && r % 0x1000_0000 == if k < n && x == c then v % 0x1000_0000 else RawEntry(g, d, k, x) % 0x1000_0000
  {
    hide Rd32, Patch, EntrySector, EntryOff;
    EntryInside(g, |d|, k, c);
    EntryInside(g, |d|, k, x);
    var e := SetCopies(g, d, c, v, n);
    if k < n && EntrySector(x) == EntrySector(c) {
      CopyPatched(g, d, c, v, n, k);
      assert EntryLba(g, k, x) == EntryLba(g, k, c);
      if x == c {
        PatchSets(d[EntryLba(g, k, c)], c, v);
      } else {
        PatchElsewhere(d[EntryLba(g, k, c)], c, v, x);
      }
    } else {
      forall m | 0 <= m < n
        ensures EntryLba(g, k, x) != EntryLba(g, m, c)
      {
        if m != k {
          CopiesApart(g, |d|, k, x, m, c);
        }
      }
      CopiesTouch(g, d, c, v, n, EntryLba(g, k, x));
    }
  }

  lemma CopiesStayInFats(g: Geo, d: Disk, c: nat, v: int, n: nat)
    requires Sound(g, |d|) && n <= g.numFats && c < g.maxCluster
    ensures forall lba :: 0 <= lba < |d| && (lba < g.fatLba || lba >= g.dataLba) ==>
              SetCopies(g, d, c, v, n)[lba] == d[lba]
  {
    hide SetCopies, EntryLba, Sound;
    forall lba | 0 <= lba < |d| && (lba < g.fatLba || lba >= g.dataLba)
      ensures SetCopies(g, d, c, v, n)[lba] == d[lba]
    {
      forall k | 0 <= k < n
        ensures lba != EntryLba(g, k, c)
      {
        EntryInside(g, |d|, k, c);
        MulMono(0, k, g.fatSize);
      }
      CopiesTouch(g, d, c, v, n, lba);
    }
  }

  /** The whole effect of fat_set_next: in every FAT copy already written exactly
      this entry changes, the top bits of all entries and every block outside the
      FATs stay. */
  lemma SetCopiesTable(g: Geo, d: Disk, c: nat, v: int, n: nat)
    requires Sound(g, |d|) && n <= g.numFats && c < g.maxCluster && 0 <= v < 0x1000_0000
    ensures forall k :: 0 <= k < g.numFats ==>
              TableOf(g, SetCopies(g, d, c, v, n), k) == if k < n then TableOf(g, d, k)[c := v] else TableOf(g, d, k)
    ensures forall lba :: 0 <= lba < |d| && (lba < g.fatLba || lba >= g.dataLba) ==>
              SetCopies(g, d, c, v, n)[lba] == d[lba]
  {
    hide RawEntry, SetCopies;
    CopiesStayInFats(g, d, c, v, n);
    var e := SetCopies(g, d, c, v, n);
    forall k | 0 <= k < g.numFats
      ensures TableOf(g, e, k) == if k < n then TableOf(g, d, k)[c := v] else TableOf(g, d, k)
    {
      OneCopy(g, d, c, v, n, k);
    }
  }

  lemma OneCopy(g: Geo, d: Disk, c: nat, v: int, n: nat, k: nat)
    requires Sound(g, |d|) && n <= g.numFats && c < g.maxCluster && 0 <= v < 0x1000_0000 && k < g.numFats
    ensures TableOf(g, SetCopies(g, d, c, v, n), k) == if k < n then TableOf(g, d, k)[c := v] else TableOf(g, d, k)
  {
    hide RawEntry, SetCopies;
    var e := SetCopies(g, d, c, v, n);
    forall x | 0 <= x < g.maxCluster
      ensures TableOf(g, e, k)[x] == if k < n && x == c then v else TableOf(g, d, k)[x]
    {
      SetEntry(g, d, c, v, n, k, x);
    }
  }

  /** A block outside the FATs does not show in any table. */
  lemma TableIgnores(g: Geo, d: Disk, lba: nat, b: Block, k: nat)
    requires Sound(g, |d|) && k < g.numFats && lba < |d| && (lba < g.fatLba || lba >= g.dataLba)
    ensures TableOf(g, d[lba := b], k) == TableOf(g, d, k)
  {
    var e := d[lba := b];
    forall x | 0 <= x < g.maxCluster
      ensures RawEntry(g, e, k, x) == RawEntry(g, d, k, x)
    {
      EntryInside(g, |d|, k, x);
    }
    hide RawEntry;
    assert TableOf(g, e, k) == TableOf(g, d, k);
  }
}
