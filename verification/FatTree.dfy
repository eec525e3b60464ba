/** Making and removing directories in fs/fat32.c: what a fresh directory holds, and
    what the emptiness test of rmdir decides. */
module FatTree {
  import opened Basics
  import opened Words
  import opened FatLfn
  import opened FatDir
  import opened FatPlace
  import opened FatEntry

  /** The names dir_is_empty skips: it looks at the first three bytes only. */
  predicate DotRaw(raw: Raw) {
    raw[0] == DOT && (raw[1] == SPACE || (raw[1] == DOT && raw[2] == SPACE))
  }

  /** dir_is_empty on the slots from here on. */
  function IsEmpty(d: Slots): bool
    decreases |d|
  {
    if d == [] || d[0][0] == 0 then true
    else if IsShort(d[0]) && !DotRaw(d[0][..11]) then false
    else IsEmpty(d[1..])
  }

  /** A directory counts as empty exactly if every name the scan reports in it begins
      like "." or "..". */
  lemma {:induction false} EmptyMeansDotted(d: Slots, st: LfnState, base: nat)
    requires Sane(st)
    ensures IsEmpty(d) <==> forall it :: it in Scan(d, st, base) ==> DotRaw(it.raw)
    decreases |d|
  {
    hide After, LongName, DotRaw, Cluster, Size;
    if d != [] && d[0][0] != 0 {
      EmptyMeansDotted(d[1..], After(st, d[0]), base + 1);
      var rest := Scan(d[1..], After(st, d[0]), base + 1);
      if IsShort(d[0]) {
        var it := ItemOf(st, d[0], base);
        assert Scan(d, st, base) == [it] + rest && it.raw == d[0][..11];
        assert it in Scan(d, st, base);
        assert forall x :: x in Scan(d, st, base) <==> x == it || x in rest;
      }
    }
  }

  const DOT_RAW: Raw := [0x2E, 0x20, 0x20, 0x20, 0x20, 0x20, 0x20, 0x20, 0x20, 0x20, 0x20]
  const DOTDOT_RAW: Raw := [0x2E, 0x2E, 0x20, 0x20, 0x20, 0x20, 0x20, 0x20, 0x20, 0x20, 0x20]

  /** "." and "..", as fat32_mkdir writes them. */
  predicate Dot(raw: Raw) {
    raw == DOT_RAW || raw == DOTDOT_RAW
  }

  /** A name that passes for "." or ".." and is another. */
  predicate Hidden(raw: Raw) {
    DotRaw(raw) && !Dot(raw)
  }

  /** What passes the emptiness test holds nothing but "." and ".." exactly if none of
      its names hides behind their first bytes. */
  lemma EmptyMeansDotsOnly(d: Slots)
    requires IsEmpty(d)
    ensures (forall it :: it in Items(d) ==> Dot(it.raw)) <==> (forall it :: it in Items(d) ==> !Hidden(it.raw))
  {
    hide Scan, IsEmpty;
    EmptyMeansDotted(d, Idle, 0);
    assert Items(d) == Scan(d, Idle, 0);
    assert Dot(DOT_RAW) && !Hidden(DOT_RAW);
  }

  /** One directory entry for a file with the short name "." "XYZ", which dir_is_empty
      does not see. */
  function HiddenDir(clus: u32, size: u32, date: u16, time: u16): Slots {
    [Dirent(HIDDEN_RAW, 0x20, clus, size, date, time)]
  }

  const HIDDEN_RAW: Raw := [0x2E, 0x20, 0x20, 0x20, 0x20, 0x20, 0x20, 0x20, 0x58, 0x59, 0x5A]
  const HIDDEN_NAME: Name := [0x2E, 0x2E, 0x58, 0x59, 0x5A]

  /** A well-formed directory that counts as empty and still finds a file, "..XYZ". */
  lemma HiddenEntry(clus: u32, size: u32, date: u16, time: u16)
    ensures var d := HiddenDir(clus, size, date, time);
            && Tidy(d, Idle) && IsEmpty(d) && Hidden(HIDDEN_RAW)
            && Items(d) == [Item(0, HIDDEN_RAW, [], 0x20, clus, size)]
            && Find(Items(d), HIDDEN_NAME) == Some(Item(0, HIDDEN_RAW, [], 0x20, clus, size))
  {
    var m := Meta(0x20, clus, size, date, time);
    var d := HiddenDir(clus, size, date, time);
    HiddenNamed();
    assert d == [DirentOf(HIDDEN_RAW, m)];
    hide Dirent, Cluster, Size, ShortSlot, FormatName, Scan, Tidy, IsEmpty;
    DirentShort(HIDDEN_RAW, m);
    ShortReadsBack(d[0], HIDDEN_RAW, 0x20, clus, size, 0);
    ItemsIs(d);
    EmptyMeansDotted(d, Idle, 0);
  }

  lemma HiddenNamed()
    ensures FormatName(HIDDEN_RAW) == HIDDEN_NAME && SameName(HIDDEN_NAME, HIDDEN_NAME)
  {
    var a, b := HIDDEN_RAW[..8], HIDDEN_RAW[8..];
    assert Until(a[1..], SPACE, 7) == [];
    assert Until(a, SPACE, 8) == [a[0]] + Until(a[1..], SPACE, 7);
    assert Until(b[1..][1..][1..], SPACE, 0) == [];
    assert Until(b[1..][1..], SPACE, 1) == [b[2]];
    assert Until(b[1..], SPACE, 2) == [b[1], b[2]];
    assert Until(b, SPACE, 3) == [b[0], b[1], b[2]];
  }

  /** The slots fat32_mkdir writes: "." names the directory itself, ".." its parent, 0
      standing for the root. */
  function FreshDir(self: u32, parent: u32, root: u32, date: u16, time: u16, perClus: nat): Slots
    requires perClus >= 16
  {
    [DirentOf(DOT_RAW, Meta(0x10, self, 0, date, time)),
     DirentOf(DOTDOT_RAW, Meta(0x10, if parent == root then 0 else parent, 0, date, time))]
      + BlankSlots(perClus - 2)
  }

  /** A fresh directory is well-formed, empty, and finds its two entries where a path
      walk follows them. */
  lemma FreshDirIsEmpty(self: u32, parent: u32, root: u32, date: u16, time: u16, perClus: nat)
    requires perClus >= 16
    ensures var d := FreshDir(self, parent, root, date, time, perClus);
            && Tidy(d, Idle) && IsEmpty(d)
            && Items(d) == [Item(0, DOT_RAW, [], 0x10, self, 0),
                            Item(1, DOTDOT_RAW, [], 0x10, if parent == root then 0 else parent, 0)]
  {
    hide Dirent, Cluster, Size, ShortSlot, Scan, Tidy, EndState, IsEmpty;
    var up: u32 := if parent == root then 0 else parent;
    var m0, m1 := Meta(0x10, self, 0, date, time), Meta(0x10, up, 0, date, time);
    var a, b, z := DirentOf(DOT_RAW, m0), DirentOf(DOTDOT_RAW, m1), BlankSlots(perClus - 2);
    var d := FreshDir(self, parent, root, date, time, perClus);
    DirentShort(DOT_RAW, m0);
    DirentShort(DOTDOT_RAW, m1);
    ShortReadsBack(a, DOT_RAW, 0x10, self, 0, 0);
    ShortReadsBack(b, DOTDOT_RAW, 0x10, up, 0, 1);
    ScanBlank(z, Idle, 2);
    assert d == [a] + ([b] + z);
    ScanAppend([a], [b] + z, Idle, 0);
    ScanAppend([b], z, Idle, 1);
    ItemsIs(d);
    BlankTidy(z);
    EncTidy([b], z);
    EncTidy([a], [b] + z);
    EmptyMeansDotted(d, Idle, 0);
  }

  lemma BlankTidy(z: Slots)
    requires Blank(z)
    ensures Tidy(z, Idle)
  {
  }

  /** dir_is_empty as the loop it is. */
  method DirIsEmpty(d: Slots) returns (empty: bool)
    ensures empty == IsEmpty(d)
  {
    var i := 0;
    assert d[0..] == d;
    while i < |d|
      invariant 0 <= i <= |d| && IsEmpty(d) == IsEmpty(d[i..])
    {
      var de := d[i];
      assert d[i..][1..] == d[i + 1..];
      if de[0] == 0 { return true; }
      if !IsFree(de) && !IsLfn(de) && !IsLabel(de) && !DotRaw(de[..11]) { return false; }
      i := i + 1;
    }
    return true;
  }
}
