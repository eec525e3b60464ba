/** Where the bytes of FAT32 stand, as fs/fat32.c reads and writes them: boot sector, FAT
    entries, directory entries and long-name slots, by their numbers. */
module FatFormat {
  import opened Words
  import opened Basics
  import opened FatChain
  import opened FatDisk
  import opened FatContents
  import opened FatLfn
  import opened FatDir
  import FatDelete
  import opened FatEntry

  // ----- The boot sector -----

  /** Bytes as a number, the low one first. */
  function Little(a: int, b: int, c: int, d: int): int {
    a + 0x100 * b + 0x1_0000 * c + 0x100_0000 * d
  }

  predicate Holds2(b: seq<u8>, off: nat, w: int)
    requires off + 2 <= |b|
  {
    w == Little(b[off], b[off + 1], 0, 0)
  }

  predicate Holds4(b: seq<u8>, off: nat, w: int)
    requires off + 4 <= |b|
  {
    w == Little(b[off], b[off + 1], b[off + 2], b[off + 3])
  }

  /** The fields of a boot sector that mounting looks at. */
  datatype Bpb = Bpb(bytesPerSec: int, secPerClus: int, reserved: int, fats: int, total: int, fatSize: int,
                     root: int, fsinfo: int)

  predicate IsBoot(boot: Block, f: Bpb) {
    && Holds2(boot, 11, f.bytesPerSec) && boot[13] == f.secPerClus && Holds2(boot, 14, f.reserved)
    && boot[16] == f.fats && Holds4(boot, 32, f.total) && Holds4(boot, 36, f.fatSize)
    && Holds4(boot, 44, f.root) && Holds2(boot, 48, f.fsinfo)
  }

  /** `m` is the most that fits the sectors, the entries of a FAT, and FAT32. */
  predicate Largest(m: int, room: int, spc: int, entries: int) {
    && (m - 2) * spc <= room && m <= entries && m <= 0x0FFF_FFF7
    && (m == entries || m == 0x0FFF_FFF7 || (m - 1) * spc > room)
  }

  /** A volume mounts exactly if it has 512-byte sectors, clusters, FATs, a root and room for
      data; then the data begin behind the FATs, and there are as many clusters as there can be. */
  lemma MountReads(boot: Block, part: nat, f: Bpb)
    requires IsBoot(boot, f)
    ensures Geometry(boot, part).Ok? <==>
              && f.bytesPerSec == 512 && f.secPerClus != 0 && f.fats != 0 && f.fatSize != 0 && f.root >= 2
              && f.reserved + f.fats * f.fatSize < f.total
    ensures Geometry(boot, part).Ok? ==>
              var g := Geometry(boot, part).value;
              && g.fatLba == part + f.reserved && g.dataLba == part + f.reserved + f.fats * f.fatSize
              && g.fatSize == f.fatSize && g.numFats == f.fats && g.secPerClus == f.secPerClus
              && g.rootCluster == f.root
              && g.fsinfoLba == (if f.fsinfo == 0 || f.fsinfo == 0xFFFF then 0 else part + f.fsinfo)
              && Largest(g.maxCluster, f.total - f.reserved - f.fats * f.fatSize, f.secPerClus, f.fatSize * 128)
  {
    BootFields(boot, f);
    hide Rd16, Rd32, IsBoot;
    if Geometry(boot, part).Ok? {
      LimitIs(f.total - f.reserved - f.fats * f.fatSize, f.secPerClus, f.fatSize);
    }
  }

  lemma BootFields(boot: Block, f: Bpb)
    requires IsBoot(boot, f)
    ensures Rd16(boot, 11) == f.bytesPerSec && boot[13] == f.secPerClus && Rd16(boot, 14) == f.reserved
    ensures boot[16] == f.fats && Rd32(boot, 32) == f.total && Rd32(boot, 36) == f.fatSize
    ensures Rd32(boot, 44) == f.root && Rd16(boot, 48) == f.fsinfo
  {
    hide Rd16, Rd32, Holds2, Holds4;
    Reads2(boot, 11);
    Reads2(boot, 14);
    Reads2(boot, 48);
    Reads4(boot, 32);
    Reads4(boot, 36);
    Reads4(boot, 44);
  }

  lemma Reads2(b: seq<u8>, off: nat)
    requires off + 2 <= |b|
    ensures forall w :: Holds2(b, off, w) <==> w == Rd16(b, off)
  {
  }

  lemma Reads4(b: seq<u8>, off: nat)
    requires off + 4 <= |b|
    ensures forall w :: Holds4(b, off, w) <==> w == Rd32(b, off)
  {
  }

  lemma LimitIs(room: nat, spc: nat, fatsz: nat)
    requires spc > 0 && fatsz > 0
    ensures Largest(ClusterLimit(room, spc, fatsz), room, spc, fatsz * 128)
  {
    assert fatsz * 512 / 4 == fatsz * 128;
    var q := room / spc;
    assert room == q * spc + room % spc;
    assert (q + 1) * spc == q * spc + spc;
    var m := ClusterLimit(room, spc, fatsz);
    QuotientFits(m - 2, room, spc);
  }

  // ----- FAT entries and clusters -----

  /** The entry of a cluster in the k-th copy: four bytes, 128 to a sector; the top four bits
      do not count. */
  lemma EntryAt(g: Geo, d: Disk, k: nat, c: nat)
    requires Sound(g, |d|) && k < g.numFats && c < g.maxCluster
    ensures var lba, off := g.fatLba + k * g.fatSize + c / 128, c % 128 * 4;
            && lba < |d|
            && TableOf(g, d, k)[c]
               == Little(d[lba][off], d[lba][off + 1], d[lba][off + 2], d[lba][off + 3]) % 0x1000_0000
  {
    EntryInside(g, |d|, k, c);
    EntryNumbers(c);
    hide EntrySector, EntryOff;
  }

  lemma EntryNumbers(c: nat)
    ensures EntrySector(c) == c / 128 && EntryOff(c) == c % 128 * 4
  {
  }

  // ----- Directory entries -----

  /** The 32 bytes of an entry. */
  lemma DirentBytes(raw: Raw, attr: u8, clus: u32, size: u32, date: u16, time: u16)
    ensures var de := Dirent(raw, attr, clus, size, date, time);
            && de[..11] == raw && de[11] == attr && de[12] == de[13] == 0
            && Holds2(de, 14, time) && Holds2(de, 16, date) && Holds2(de, 18, date)
            && Holds2(de, 22, time) && Holds2(de, 24, date) && Holds4(de, 28, size)
            && clus == Little(de[26], de[27], de[20], de[21])
  {
    var de := Dirent(raw, attr, clus, size, date, time);
    assert de[14..16] == Word(time) && de[16..18] == Word(date) && de[18..20] == Word(date);
    assert de[20..22] == Word(clus / 0x1_0000) && de[22..24] == Word(time) && de[24..26] == Word(date);
    assert de[26..28] == Word(clus % 0x1_0000);
    assert de[28..30] == Word(size % 0x1_0000) && de[30..32] == Word(size / 0x1_0000);
    WordHolds(de, 14, time);
    WordHolds(de, 16, date);
    WordHolds(de, 18, date);
    WordHolds(de, 20, clus / 0x1_0000);
    WordHolds(de, 22, time);
    WordHolds(de, 24, date);
    WordHolds(de, 26, clus % 0x1_0000);
    WordHolds(de, 28, size % 0x1_0000);
    WordHolds(de, 30, size / 0x1_0000);
    hide Dirent, Word;
  }

  lemma WordHolds(b: seq<u8>, off: nat, w: u16)
    requires off + 2 <= |b| && b[off..off + 2] == Word(w)
    ensures Holds2(b, off, w)
  {
    assert b[off] == b[off..off + 2][0] && b[off + 1] == b[off..off + 2][1];
  }

  /** Start cluster and size are read from there. */
  lemma FieldsRead(de: Slot)
    ensures Cluster(de) == Little(de[26], de[27], de[20], de[21])
    ensures Holds4(de, 28, Size(de))
  {
  }

  // ----- Long names -----

  /** The thirteen places of characters in a slot. */
  const LSLOT := [1, 3, 5, 7, 9, 14, 16, 18, 20, 22, 24, 28, 30]

  /** A slot of a long name: ordinal, attribute, checksum, and thirteen characters. */
  lemma LfnSlotBytes(ord: nat, isLast: bool, sum: u8, name: Name, j: nat)
    requires 1 <= ord < 32 && j < 13
    ensures var de, i := LfnSlot(ord, isLast, sum, name), (ord - 1) * 13 + j;
            && de[0] == ord + (if isLast then 0x40 else 0) && de[11] == 15 && de[13] == sum
            && Holds2(de, LSLOT[j], if i < |name| then name[i] else if i == |name| then 0 else 0xFFFF)
  {
    hide LfnFilled, Rd16;
    FilledChars(ord, isLast, sum, name, 13, j);
    PlaceOfChar(j);
    CharHolds(LfnSlot(ord, isLast, sum, name), j);
  }

  lemma PlaceOfChar(j: nat)
    requires j < 13
    ensures CharOff(j) == LSLOT[j]
  {
  }

  lemma CharHolds(de: Slot, j: nat)
    requires j < 13
    ensures Holds2(de, CharOff(j), Char(de, j))
  {
  }

  /** The checksum rotates right and adds, byte by byte, from 0. */
  lemma ChecksumStep(raw: Raw, n: nat)
    requires n < 11
    ensures Checksum(raw, 0) == 0
    ensures var c := Checksum(raw, n);
            Checksum(raw, n + 1) == (c / 2 + c % 2 * 128 + raw[n]) % 256
  {
  }

  // ----- What a scan reports -----

  /** A slot that names a file or directory: neither free nor deleted, no long-name slot, no
      volume label. */
  predicate Entry(de: Slot) {
    de[0] != 0 && de[0] != 0xE5 && de[11] % 16 != 15 && de[11] / 8 % 2 == 0
  }

  ghost predicate ReportsAt(items: seq<Item>, pos: nat) {
    exists it :: it in items && it.pos == pos
  }

  /** The item at this position says what the slot says. */
  ghost predicate SaysSo(items: seq<Item>, pos: nat, de: Slot) {
    forall it :: it in items && it.pos == pos ==>
      it.raw == de[..11] && it.attr == de[11] && it.clus == Cluster(de) && it.size == Size(de)
  }

  /** A scan reports exactly the entries before the first zero, each with its bytes. */
  lemma {:induction false} ScanReports(d: Slots, st: LfnState, base: nat, p: nat)
    requires Sane(st) && p < |d|
    ensures ReportsAt(Scan(d, st, base), base + p) <==> Entry(d[p]) && forall i :: 0 <= i <= p ==> d[i][0] != 0
    ensures SaysSo(Scan(d, st, base), base + p, d[p])
    decreases |d|
  {
    hide After, LongName, Cluster, Size;
    if d[0][0] != 0 {
      if p == 0 {
        ScanFirst(d, st, base);
      } else {
        ScanLater(d, st, base, p);
        ScanReports(d[1..], After(st, d[0]), base + 1, p - 1);
        Firsts(d, p);
      }
    }
  }

  lemma ScanFirst(d: Slots, st: LfnState, base: nat)
    requires Sane(st) && d != [] && d[0][0] != 0
    ensures ReportsAt(Scan(d, st, base), base) <==> Entry(d[0])
    ensures SaysSo(Scan(d, st, base), base, d[0])
  {
    hide After, LongName, Cluster, Size;
    Behind(d, st, base);
    if Entry(d[0]) {
      assert Scan(d, st, base)[0] == ItemOf(st, d[0], base);
    }
  }

  lemma ScanLater(d: Slots, st: LfnState, base: nat, p: nat)
    requires Sane(st) && 0 < p < |d| && d[0][0] != 0
    ensures forall it: Item :: it.pos == base + p ==>
              (it in Scan(d, st, base) <==> it in Scan(d[1..], After(st, d[0]), base + 1))
  {
    hide After, LongName, Cluster, Size;
  }

  lemma Firsts(d: Slots, p: nat)
    requires 0 < p < |d| && d[0][0] != 0
    ensures (forall i :: 0 <= i <= p ==> d[i][0] != 0) <==> (forall i :: 0 <= i <= p - 1 ==> d[1..][i][0] != 0)
  {
    if forall i :: 0 <= i <= p - 1 ==> d[1..][i][0] != 0 {
      forall i | 0 <= i <= p
        ensures d[i][0] != 0
      {
        if i > 0 {
          assert d[1..][i - 1] == d[i];
        }
      }
    }
  }

  /** Items stand at or behind the slot the scan began with. */
  lemma Behind(d: Slots, st: LfnState, base: nat)
    requires Sane(st) && d != []
    ensures forall it :: it in Scan(d[1..], After(st, d[0]), base + 1) ==> it.pos > base
  {
    forall it | it in Scan(d[1..], After(st, d[0]), base + 1)
      ensures it.pos > base
    {
      FatDelete.Located(d[1..], After(st, d[0]), base + 1, it);
    }
  }

  // ----- Contents -----

  /** The bytes a cluster gives: sector after sector, in order. */
  lemma {:induction false} ClusterBytes(g: Geo, d: Disk, c: int, s: nat, n: nat, r: nat, o: nat)
    requires Sound(g, |d|) && 2 <= c < g.maxCluster && s + r < g.secPerClus && o < 512 && 512 * r + o < n
    ensures var b := ReadCluster(g, d, c, s, n);
            && 512 * r + o < |b| && ClusterLba(g, c) + s + r < |d| && 0 <= ClusterLba(g, c)
            && b[512 * r + o] == d[ClusterLba(g, c) + s + r][o]
    decreases r
  {
    hide ClusterLba;
    ClusterInside(g, |d|, c, s);
    ClusterInside(g, |d|, c, 0);
    if r > 0 {
      ClusterBytes(g, d, c, s + 1, n - 512, r - 1, o);
    }
  }

  lemma {:induction false} ClusterSize(g: Geo, d: Disk, c: int, s: nat, n: nat)
    requires Sound(g, |d|) && 2 <= c < g.maxCluster && s <= g.secPerClus
    ensures |ReadCluster(g, d, c, s, n)| == if n < 512 * (g.secPerClus - s) then n else 512 * (g.secPerClus - s)
    decreases g.secPerClus - s
  {
    hide ClusterLba;
    if s < g.secPerClus && n > 0 {
      ClusterInside(g, |d|, c, s);
      ClusterSize(g, d, c, s + 1, if n < 512 then 0 else n - 512);
    }
  }

  /** Where a byte of a file is: byte `o` of sector `s` of the k-th cluster of its chain, and
      a cluster is where the BPB says. */
  lemma {:induction false} ReadBytes(g: Geo, d: Disk, c: int, n: nat, k: nat, s: nat, o: nat)
    requires Sound(g, |d|) && Read(g, d, c, n).Some? && s < g.secPerClus && o < 512
    requires k * (512 * g.secPerClus) + 512 * s + o < n
    ensures var b, e := Read(g, d, c, n).value, Nth(FatTable(g, d), c, k);
            && |b| == n && 2 <= e < g.maxCluster && 0 <= g.dataLba + (e - 2) * g.secPerClus + s < |d|
            && b[k * (512 * g.secPerClus) + 512 * s + o] == d[g.dataLba + (e - 2) * g.secPerClus + s][o]
    decreases k
  {
    hide FatTable, ReadCluster;
    ReadLength(g, d, c, n);
    ReadNeedsChain(g, d, c, n);
    ClusterInside(g, |d|, c, s);
    ClusterSize(g, d, c, 0, n);
    if k == 0 {
      ClusterBytes(g, d, c, 0, n, s, o);
    } else {
      var per := 512 * g.secPerClus;
      assert k * per == per + (k - 1) * per;
      MulMono(0, k - 1, per);
      ReadBytes(g, d, FatTable(g, d)[c], n - per, k - 1, s, o);
      NthShift(FatTable(g, d), c, k - 1);
    }
  }

  lemma ReadNeedsChain(g: Geo, d: Disk, c: int, n: nat)
    requires Sound(g, |d|) && Read(g, d, c, n).Some? && n > 0
    ensures 2 <= c < g.maxCluster
  {
  }

  lemma {:induction false} ReadLength(g: Geo, d: Disk, c: int, n: nat)
    requires Sound(g, |d|) && Read(g, d, c, n).Some?
    ensures |Read(g, d, c, n).value| == n
    decreases n
  {
    hide FatTable, ReadCluster;
    if n > 0 {
      ReadLength(g, d, FatTable(g, d)[c], n - |ReadCluster(g, d, c, 0, n)|);
    }
  }

  // ----- Short aliases -----

  /** Letters and digits in capitals, or the placeholder. */
  predicate AliasChar(c: u8) {
    0x41 <= c <= 0x5A || 0x30 <= c <= 0x39 || c == 0x5F
  }

  /** An alias: one to six such characters, a tilde and the number, filled with spaces, and an
      extension of up to three, filled with spaces. */
  lemma AliasForm(name: Name, n: nat) returns (k: nat, m: nat)
    requires n <= 9
    ensures var r := AliasRaw(name, n);
            && 1 <= k <= 6 && m <= 3 && (forall i :: 0 <= i < k ==> AliasChar(r[i]))
            && r[k] == 0x7E && r[k + 1] == 0x30 + n && (forall i :: k + 2 <= i < 8 ==> r[i] == SPACE)
            && (forall i :: 8 <= i < 8 + m ==> AliasChar(r[i])) && (forall i :: 8 + m <= i < 11 ==> r[i] == SPACE)
  {
    var dot := LastDot(name);
    var letters := Truncated(Letters(if dot < 0 then name else name[..dot]), 6);
    var stem := if letters == [] then [0x5F] else letters;
    var ext := if dot < 0 then [] else Truncated(Letters(name[dot + 1..]), 3);
    k, m := |stem|, |ext|;
    hide Letters, LastDot;
    forall i | 0 <= i < |letters|
      ensures AliasChar(letters[i])
    {
    }
    forall i | 0 <= i < |ext|
      ensures AliasChar(ext[i])
    {
    }
  }
}
