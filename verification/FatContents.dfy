/** File contents of fs/fat32.c on the disk: reading along a chain, laying new
    contents out on fresh clusters, and what other changes to the disk can and
    cannot do to what a reader sees. */
module FatContents {
  import opened Basics
  import opened Words
  import opened FatChain
  import opened FatOwner
  import opened FatDisk

  // ----- Disks that agree off some clusters -----

  /** Same table entry and same sectors for every cluster outside `touch`, and no
      block before the FATs or between them changed in the reader's copy. */
  ghost predicate AgreesOff(g: Geo, a: Disk, b: Disk, touch: iset<int>) {
    && |a| == |b| && Sound(g, |a|)
    && (forall c :: 2 <= c < g.maxCluster && c !in touch ==> FatTable(g, b)[c] == FatTable(g, a)[c])
    && (forall lba :: g.dataLba <= lba < |a| && !Inside(g, lba, touch) ==> b[lba] == a[lba])
  }

  /** Does the block belong to one of these clusters? */
  ghost predicate Inside(g: Geo, lba: int, touch: iset<int>) {
    exists c :: c in touch && InCluster(g, lba, c)
  }

  predicate InCluster(g: Geo, lba: int, c: int) {
    ClusterLba(g, c) <= lba < ClusterLba(g, c) + g.secPerClus
  }

  lemma AgreesTrans(g: Geo, a: Disk, b: Disk, c: Disk, t1: iset<int>, t2: iset<int>)
    requires AgreesOff(g, a, b, t1) && AgreesOff(g, b, c, t2)
    ensures AgreesOff(g, a, c, t1 + t2)
  {
    hide FatTable;
    forall lba | g.dataLba <= lba < |a| && !Inside(g, lba, t1 + t2)
      ensures c[lba] == a[lba]
    {
      InsideMono(g, lba, t1, t1 + t2);
      InsideMono(g, lba, t2, t1 + t2);
    }
  }

  lemma InsideMono(g: Geo, lba: int, t1: iset<int>, t2: iset<int>)
    requires t1 <= t2
    ensures Inside(g, lba, t1) ==> Inside(g, lba, t2)
  {
  }

  /** Every disk state recorded since `from` agrees with `a` off `touch`. */
  ghost predicate AllAgree(g: Geo, hist: seq<Disk>, from: nat, a: Disk, touch: iset<int>) {
    from <= |hist| && forall i :: from <= i < |hist| ==> AgreesOff(g, a, hist[i], touch)
  }

  lemma AllAgreeThen(g: Geo, hist: seq<Disk>, from: nat, mid: nat, a: Disk, b: Disk, t1: iset<int>, t2: iset<int>)
    requires from <= mid <= |hist|
    requires AllAgree(g, hist[..mid], from, a, t1)
    requires AgreesOff(g, a, b, t1) && AllAgree(g, hist, mid, b, t2)
    ensures AllAgree(g, hist, from, a, t1 + t2)
  {
    hide AgreesOff;
    forall i | from <= i < |hist|
      ensures AgreesOff(g, a, hist[i], t1 + t2)
    {
      if i < mid {
        assert hist[..mid][i] == hist[i];
        AgreesWider(g, a, hist[i], t1, t1 + t2);
      } else {
        AgreesTrans(g, a, b, hist[i], t1, t2);
      }
    }
  }

  /** The data area is the same, block by block. */
  ghost predicate SameData(g: Geo, a: Disk, b: Disk) {
    |a| == |b| && forall lba :: g.dataLba <= lba < |a| ==> b[lba] == a[lba]
  }

  /** The disk went from `a` to `d` and its history from `h` to `hist`; every state
      on the way agrees with `a` off `touch`. */
  ghost predicate Since(g: Geo, a: Disk, h: seq<Disk>, d: Disk, hist: seq<Disk>, touch: iset<int>) {
    h <= hist && AllAgree(g, hist, |h|, a, touch) && AgreesOff(g, a, d, touch)
  }

  lemma SinceThen(g: Geo, a: Disk, h: seq<Disk>, d1: Disk, h1: seq<Disk>, d2: Disk, h2: seq<Disk>,
                  touch: iset<int>, part: iset<int>)
    requires Since(g, a, h, d1, h1, touch) && Since(g, d1, h1, d2, h2, part) && part <= touch
    ensures Since(g, a, h, d2, h2, touch)
  {
    hide AgreesOff;
    assert touch + part == touch;
    AgreesTrans(g, a, d1, d2, touch, part);
    assert h2[..|h1|] == h1;
    AllAgreeThen(g, h2, |h|, |h1|, a, d1, touch, part);
  }

  lemma SinceStart(g: Geo, a: Disk, h: seq<Disk>, touch: iset<int>)
    requires Sound(g, |a|)
    ensures Since(g, a, h, a, h, touch)
  {
    hide FatTable;
    AgreesSame(g, a);
    AgreesWider(g, a, a, iset{}, touch);
  }

  lemma AgreesSame(g: Geo, a: Disk)
    requires Sound(g, |a|)
    ensures AgreesOff(g, a, a, iset{})
  {
  }

  lemma AgreesWider(g: Geo, a: Disk, b: Disk, t1: iset<int>, t2: iset<int>)
    requires AgreesOff(g, a, b, t1) && t1 <= t2
    ensures AgreesOff(g, a, b, t2)
  {
    hide FatTable;
    forall lba | g.dataLba <= lba < |a| && !Inside(g, lba, t2)
      ensures b[lba] == a[lba]
    {
      InsideMono(g, lba, t1, t2);
    }
  }

  /** Writing one sector of cluster `c`. */
  lemma DataAgrees(g: Geo, a: Disk, c: int, s: nat, b: Block)
    requires Sound(g, |a|) && 2 <= c < g.maxCluster && s < g.secPerClus
    ensures var lba := ClusterLba(g, c) + s;
            g.dataLba <= lba < |a| && AgreesOff(g, a, a[lba := b], iset{c})
            && forall k :: 0 <= k < g.numFats ==> TableOf(g, a[lba := b], k) == TableOf(g, a, k)
  {
    ClusterInside(g, |a|, c, s);
    var lba := ClusterLba(g, c) + s;
    hide TableOf, ClusterLba;
    forall k | 0 <= k < g.numFats
      ensures TableOf(g, a[lba := b], k) == TableOf(g, a, k)
    {
      TableIgnores(g, a, lba, b, k);
    }
    assert InCluster(g, lba, c);
  }

  /** Rewriting one table entry, in as many copies as already done. */
  lemma CopiesAgree(g: Geo, a: Disk, c: int, v: int, n: nat)
    requires Sound(g, |a|) && 2 <= c < g.maxCluster && n <= g.numFats && 0 <= v < 0x1000_0000
    ensures AgreesOff(g, a, SetCopies(g, a, c, v, n), iset{c})
  {
    hide SetCopies, TableOf;
    SetCopiesTable(g, a, c, v, n);
    assert FatTable(g, SetCopies(g, a, c, v, n)) == TableOf(g, SetCopies(g, a, c, v, n), 0);
  }

  // ----- Reading -----

  /** Up to `n` bytes from the sectors `s`, `s + 1`, ... of cluster `c`. */
  function ReadCluster(g: Geo, d: Disk, c: int, s: nat, n: nat): (r: seq<u8>)
    requires Sound(g, |d|) && 2 <= c < g.maxCluster && s <= g.secPerClus
    ensures |r| <= n && (n > 0 && s < g.secPerClus ==> |r| > 0)
    decreases g.secPerClus - s
  {
    if s == g.secPerClus || n == 0 then []
    else
      ClusterInside(g, |d|, c, s);
      var m := if n < 512 then n else 512;
      d[ClusterLba(g, c) + s][..m] + ReadCluster(g, d, c, s + 1, n - m)
  }

  /** The reading loop of fat32_read_file: `n` bytes along the chain from `c`, or
      nothing if the chain ends before that. */
  function Read(g: Geo, d: Disk, c: int, n: nat): Option<seq<u8>>
    requires Sound(g, |d|)
    decreases n
  {
    if n == 0 then Some([])
    else if !(2 <= c < g.maxCluster) then None
    else
      var got := ReadCluster(g, d, c, 0, n);
      match Read(g, d, FatTable(g, d)[c], n - |got|)
      case None => None
      case Some(rest) => Some(got + rest)
  }

  /** A cluster outside `touch` reads the same. */
  lemma {:induction false} ClusterSame(g: Geo, a: Disk, b: Disk, touch: iset<int>, c: int, s: nat, n: nat)
    requires AgreesOff(g, a, b, touch) && 2 <= c < g.maxCluster && c !in touch && s <= g.secPerClus
    ensures ReadCluster(g, a, c, s, n) == ReadCluster(g, b, c, s, n)
    decreases g.secPerClus - s
  {
    if s < g.secPerClus && n > 0 {
      SectorSame(g, a, b, touch, c, s);
      ClusterSame(g, a, b, touch, c, s + 1, n - if n < 512 then n else 512);
    }
  }

  lemma SectorSame(g: Geo, a: Disk, b: Disk, touch: iset<int>, c: int, s: nat)
    requires AgreesOff(g, a, b, touch) && 2 <= c < g.maxCluster && c !in touch && s < g.secPerClus
    ensures var lba := ClusterLba(g, c) + s;
            g.dataLba <= lba < |a| && b[lba] == a[lba]
  {
    hide FatTable;
    ClusterInside(g, |a|, c, s);
    var lba := ClusterLba(g, c) + s;
    if Inside(g, lba, touch) {
      var e :| e in touch && InCluster(g, lba, e);
      ClustersApart(g, c, s, e, lba - ClusterLba(g, e));
    }
  }

  /** A chain that keeps away from `touch` reads the same, whatever else happens. */
  lemma {:induction false} ReadSame(g: Geo, a: Disk, b: Disk, touch: iset<int>, q: seq<int>, n: nat)
    requires AgreesOff(g, a, b, touch) && IsChain(FatTable(g, a), q)
    requires forall c :: c in q ==> c !in touch
    ensures Read(g, a, q[0], n) == Read(g, b, q[0], n)
    decreases n
  {
    hide NoDup, Linked;
    var c := q[0];
    if n > 0 {
      ClusterSame(g, a, b, touch, c, 0, n);
      var got := ReadCluster(g, a, c, 0, n);
      var next := FatTable(g, a)[c];
      assert FatTable(g, b)[c] == next;
      if |q| > 1 {
        TailIsChain(FatTable(g, a), q);
        ReadSame(g, a, b, touch, q[1..], n - |got|);
      } else {
        assert c == q[|q| - 1];
      }
    }
  }

  /** Outside the data area a start cluster reads nothing anyway. */
  lemma ReadOutside(g: Geo, a: Disk, b: Disk, c: int, n: nat)
    requires Sound(g, |a|) && |b| == |a| && !(2 <= c < g.maxCluster)
    ensures Read(g, a, c, n) == Read(g, b, c, n)
  {
  }

  // ----- Laying out new contents -----

  /** One sector of the contents, zero-filled behind the last byte. */
  function Piece(src: seq<u8>, off: nat): (b: Block) {
    seq(512, i requires 0 <= i < 512 => if off + i < |src| then src[off + i] else 0)
  }

  /** The first `s` sectors of cluster `c` hold the contents from `base` on. */
  ghost predicate Holds(g: Geo, d: Disk, c: int, src: seq<u8>, base: nat, s: nat)
    requires Sound(g, |d|) && 2 <= c < g.maxCluster
  {
    forall r :: 0 <= r < s && r < g.secPerClus && base + 512 * r < |src| ==>
      Sector(g, d, c, r) == Piece(src, base + 512 * r)
  }

  function Sector(g: Geo, d: Disk, c: int, r: nat): Block
    requires Sound(g, |d|) && 2 <= c < g.maxCluster && r < g.secPerClus
  {
    ClusterInside(g, |d|, c, r);
    d[ClusterLba(g, c) + r]
  }

  /** The clusters `q` hold the contents in order. */
  ghost predicate LaidOut(g: Geo, d: Disk, q: seq<int>, src: seq<u8>)
    requires Sound(g, |d|)
  {
    forall i :: 0 <= i < |q| ==>
      2 <= q[i] < g.maxCluster && Holds(g, d, q[i], src, Base(g, i), g.secPerClus)
  }

  /** Position of the first byte of the i-th cluster. */
  function Base(g: Geo, i: nat): nat {
    i * (g.secPerClus * 512)
  }

  lemma BaseNext(g: Geo, i: nat)
    ensures Base(g, i + 1) == Base(g, i) + g.secPerClus * 512
  {
  }

  lemma {:induction false} HeldReads(g: Geo, d: Disk, c: int, src: seq<u8>, base: nat, s: nat)
    requires Sound(g, |d|) && 2 <= c < g.maxCluster && Holds(g, d, c, src, base, g.secPerClus)
    requires s <= g.secPerClus && base + 512 * s <= |src|
    ensures var end := base + 512 * g.secPerClus;
            ReadCluster(g, d, c, s, |src| - (base + 512 * s)) == src[base + 512 * s..if end < |src| then end else |src|]
    decreases g.secPerClus - s
  {
    var at := base + 512 * s;
    var n := |src| - at;
    if s < g.secPerClus && n > 0 {
      var m := if n < 512 then n else 512;
      ClusterInside(g, |d|, c, s);
      assert Sector(g, d, c, s) == Piece(src, at);
      assert Piece(src, at)[..m] == src[at..at + m];
      if n < 512 {
        assert ReadCluster(g, d, c, s + 1, n - m) == [];
      } else {
        HeldReads(g, d, c, src, base, s + 1);
      }
    }
  }

  /** What was laid out along a chain is what reading returns. */
  lemma {:induction false} ReadBack(g: Geo, d: Disk, q: seq<int>, src: seq<u8>, k: nat)
    requires Sound(g, |d|) && IsChain(FatTable(g, d), q) && LaidOut(g, d, q, src)
    requires k < |q| && Base(g, k) <= |src| <= Base(g, |q|)
    ensures Read(g, d, q[k], |src| - Base(g, k)) == Some(src[Base(g, k)..])
    decreases |q| - k
  {
    hide FatTable, Base, IsChain, Read, ReadCluster, Holds;
    var at := Base(g, k);
    BaseNext(g, k);
    ChainNext(FatTable(g, d), q, k);
    if at < |src| {
      HeldReads(g, d, q[k], src, at, 0);
      ReadStep(g, d, q[k], |src| - at);
      var got := ReadCluster(g, d, q[k], 0, |src| - at);
      if Base(g, k + 1) < |src| {
        assert k + 1 < |q|;
        ReadBack(g, d, q, src, k + 1);
        assert got + src[Base(g, k + 1)..] == src[at..];
      } else {
        assert got == src[at..];
        assert got + [] == got;
      }
    } else {
      ReadNone(g, d, q[k]);
      assert src[at..] == [];
    }
  }

  lemma ReadStep(g: Geo, d: Disk, c: int, n: nat)
    requires Sound(g, |d|) && 2 <= c < g.maxCluster && n > 0
    ensures var got, next := ReadCluster(g, d, c, 0, n), FatTable(g, d)[c];
            && (n == |got| ==> Read(g, d, c, n) == Some(got + []))
            && (Read(g, d, next, n - |got|).Some? ==>
                  Read(g, d, c, n) == Some(got + Read(g, d, next, n - |got|).value))
  {
  }

  function Behind(b: seq<u8>, rest: Option<seq<u8>>): Option<seq<u8>> {
    match rest
    case None => None
    case Some(r) => Some(b + r)
  }

  lemma ReadMore(g: Geo, d: Disk, c: int, n: nat, had: seq<u8>)
    requires Sound(g, |d|) && 2 <= c < g.maxCluster && n > 0
    ensures var got := ReadCluster(g, d, c, 0, n);
            Behind(had, Read(g, d, c, n)) == Behind(had + got, Read(g, d, FatTable(g, d)[c], n - |got|))
  {
    hide ReadCluster;
    var got := ReadCluster(g, d, c, 0, n);
    match Read(g, d, FatTable(g, d)[c], n - |got|) {
      case None =>
      case Some(rest) => assert had + (got + rest) == had + got + rest;
    }
  }

  lemma ReadEnd(g: Geo, d: Disk, c: int, n: nat)
    requires Sound(g, |d|) && (n == 0 || !(2 <= c < g.maxCluster))
    ensures Read(g, d, c, n) == if n == 0 then Some([]) else None
  {
  }

  lemma SectorStep(g: Geo, d: Disk, c: int, s: nat, n: nat, had: seq<u8>)
    requires Sound(g, |d|) && 2 <= c < g.maxCluster && s < g.secPerClus && n > 0
    ensures var m := if n < 512 then n else 512;
            0 <= ClusterLba(g, c) + s < |d| &&
            had + ReadCluster(g, d, c, s, n) == had + d[ClusterLba(g, c) + s][..m] + ReadCluster(g, d, c, s + 1, n - m)
  {
    ClusterInside(g, |d|, c, s);
  }

  lemma ClusterEnd(g: Geo, d: Disk, c: int, s: nat, n: nat)
    requires Sound(g, |d|) && 2 <= c < g.maxCluster && s <= g.secPerClus && (n == 0 || s == g.secPerClus)
    ensures ReadCluster(g, d, c, s, n) == []
  {
  }

  function PutSector(g: Geo, d: Disk, c: int, s: nat, b: Block): (r: Disk)
    requires Sound(g, |d|) && 2 <= c < g.maxCluster && s < g.secPerClus
    ensures |r| == |d|
  {
    ClusterInside(g, |d|, c, s);
    d[ClusterLba(g, c) + s := b]
  }

  lemma PutSectorIs(g: Geo, d: Disk, c: int, s: nat, b: Block)
    requires Sound(g, |d|) && 2 <= c < g.maxCluster && s < g.secPerClus
    ensures g.dataLba <= ClusterLba(g, c) + s < |d| && PutSector(g, d, c, s, b) == d[ClusterLba(g, c) + s := b]
    ensures AgreesOff(g, d, PutSector(g, d, c, s, b), iset{c})
    ensures forall k :: 0 <= k < g.numFats ==> TableOf(g, PutSector(g, d, c, s, b), k) == TableOf(g, d, k)
  {
    hide TableOf;
    ClusterInside(g, |d|, c, s);
    DataAgrees(g, d, c, s, b);
  }

  lemma BehindNothing(o: Option<seq<u8>>)
    ensures Behind([], o) == o
  {
    if o.Some? {
      assert [] + o.value == o.value;
    }
  }

  /** One more sector of cluster `c` is in place. */
  lemma SectorWritten(g: Geo, a: Disk, was: Disk, d: Disk, c: int, s: nat, src: seq<u8>, base: nat)
    requires Sound(g, |was|) && 2 <= c < g.maxCluster && s < g.secPerClus && Holds(g, was, c, src, base, s)
    requires d == PutSector(g, was, c, s, Piece(src, base + 512 * s))
    requires AgreesOff(g, a, was, iset{c})
    ensures Holds(g, d, c, src, base, s + 1) && AgreesOff(g, a, d, iset{c})
  {
    hide FatTable, Piece;
    DataAgrees(g, was, c, s, Piece(src, base + 512 * s));
    AgreesTrans(g, a, was, d, iset{c}, iset{c});
    assert iset{c} + iset{c} == iset{c};
    hide AgreesOff;
    forall r | 0 <= r < s
      ensures Sector(g, d, c, r) == Sector(g, was, c, r)
    {
      ClusterInside(g, |d|, c, r);
    }
    ClusterInside(g, |d|, c, s);
  }

  lemma ReadNone(g: Geo, d: Disk, c: int)
    requires Sound(g, |d|)
    ensures Read(g, d, c, 0) == Some([])
  {
  }

  lemma ChainNext(t: Table, q: seq<int>, k: nat)
    requires IsChain(t, q) && k < |q|
    ensures Valid(t, q[k]) && (k + 1 < |q| ==> t[q[k]] == q[k + 1])
  {
  }

  /** Contents stay laid out as long as the data area does not change. */
  lemma LaidOutData(g: Geo, a: Disk, b: Disk, q: seq<int>, src: seq<u8>)
    requires Sound(g, |a|) && SameData(g, a, b) && LaidOut(g, a, q, src)
    ensures LaidOut(g, b, q, src)
  {
    hide Base, Piece;
    forall i | 0 <= i < |q|
      ensures Holds(g, b, q[i], src, Base(g, i), g.secPerClus)
    {
      forall r | 0 <= r < g.secPerClus
        ensures Sector(g, b, q[i], r) == Sector(g, a, q[i], r)
      {
        ClusterInside(g, |a|, q[i], r);
      }
    }
  }

  /** One more cluster, written behind the others. */
  lemma LaidOutMore(g: Geo, d: Disk, q: seq<int>, c: int, src: seq<u8>)
    requires Sound(g, |d|) && LaidOut(g, d, q, src) && 2 <= c < g.maxCluster
    requires Holds(g, d, c, src, Base(g, |q|), g.secPerClus)
    ensures LaidOut(g, d, q + [c], src)
  {
    hide Base, Holds;
  }

  /** Changes elsewhere leave laid-out contents alone. */
  lemma LaidOutSame(g: Geo, a: Disk, b: Disk, touch: iset<int>, q: seq<int>, src: seq<u8>)
    requires AgreesOff(g, a, b, touch) && LaidOut(g, a, q, src) && forall c :: c in q ==> c !in touch
    ensures LaidOut(g, b, q, src)
  {
    hide FatTable, Base, Piece;
    forall i | 0 <= i < |q|
      ensures Holds(g, b, q[i], src, Base(g, i), g.secPerClus)
    {
      forall r | 0 <= r < g.secPerClus
        ensures Sector(g, b, q[i], r) == Sector(g, a, q[i], r)
      {
        SectorSame(g, a, b, touch, q[i], r);
      }
    }
  }

  // ----- The directory entry of a file -----

  function StartOf(b: Block, off: nat): int
    requires off + 32 <= 512
  {
    Rd16(b, off + 20) * 0x1_0000 + Rd16(b, off + 26)
  }

  function SizeOf(b: Block, off: nat): (n: nat)
    requires off + 32 <= 512
  {
    Rd32(b, off + 28)
  }

  function Put16(b: seq<u8>, off: nat, w: u16): (r: seq<u8>)
    requires off + 2 <= |b|
    ensures |r| == |b|
  {
    b[off := w % 0x100][off + 1 := w / 0x100]
  }

  /** The overwrite branch of fat32_write_file: start cluster, size, write time
      and write and access date of the entry at `off`. */
  function PatchEntry(b: Block, off: nat, first: u32, len: u32, date: u16, time: u16): (r: Block)
    requires off + 32 <= 512
  {
    var b1 := Put16(Put16(b, off + 20, first / 0x1_0000), off + 26, first % 0x1_0000);
    var b2 := Put32(b1, off + 28, len);
    Put16(Put16(Put16(b2, off + 22, time), off + 24, date), off + 18, date)
  }

  lemma Put16Holds(b: seq<u8>, off: nat, w: u16)
    requires off + 2 <= |b|
    ensures Rd16(Put16(b, off, w), off) == w
  {
  }

  /** The patched entry names the new chain and size; its first 18 bytes and all
      other entries of the sector are untouched. */
  lemma PatchedEntry(b: Block, off: nat, first: u32, len: u32, date: u16, time: u16)
    requires off + 32 <= 512
    ensures var r := PatchEntry(b, off, first, len, date, time);
            && StartOf(r, off) == first && SizeOf(r, off) == len
            && forall i :: 0 <= i < 512 && !(off + 18 <= i < off + 32) ==> r[i] == b[i]
  {
    var b0 := Put16(b, off + 20, first / 0x1_0000);
    var b1 := Put16(b0, off + 26, first % 0x1_0000);
    var b2 := Put32(b1, off + 28, len);
    var b3 := Put16(b2, off + 22, time);
    var b4 := Put16(b3, off + 24, date);
    var b5 := Put16(b4, off + 18, date);
    Put16Holds(b, off + 20, first / 0x1_0000);
    Put16Holds(b0, off + 26, first % 0x1_0000);
    WordRoundTrip(b1, off + 28, len);
    assert Rd16(b5, off + 20) == Rd16(b0, off + 20);
    assert Rd16(b5, off + 26) == Rd16(b1, off + 26);
    assert Rd32(b5, off + 28) == Rd32(b2, off + 28);
  }

  /** What reading the file behind the entry at (lba, off) yields. */
  function ReadEntry(g: Geo, d: Disk, lba: nat, off: nat): Option<seq<u8>>
    requires Sound(g, |d|) && lba < |d| && off + 32 <= 512
  {
    Read(g, d, StartOf(d[lba], off), SizeOf(d[lba], off))
  }

  // ----- How many clusters a write asks for -----

  function Quotient(n: nat, d: nat): (q: nat)
    requires d > 0
  {
    n / d
  }

  /** nclus of fat32_write_file, in 32-bit arithmetic. */
  function ClustersFor(len: u32, spc: nat): nat
    requires spc > 0
  {
    if len == 0 then 0 else Quotient(Wrap(len + spc * 512 - 1), spc * 512)
  }

  /** The count is enough for the contents exactly when its rounding up does not
      wrap around 2^32. */
  lemma EnoughClusters(len: u32, spc: nat)
    requires 0 < spc < 0x100
    ensures len <= ClustersFor(len, spc) * (spc * 512) <==> len == 0 || len + spc * 512 - 1 < 0x1_0000_0000
  {
    var cb := spc * 512;
    if len > 0 {
      var up := Wrap(len + cb - 1);
      assert up == up / cb * cb + up % cb;
      if len + cb - 1 >= 0x1_0000_0000 {
        assert up == len + cb - 1 - 0x1_0000_0000;
      }
    }
  }
}
