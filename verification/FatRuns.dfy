/** Long-name runs and clusters in the directories of fs/fat32.c: mark_deleted_with_lfn
    follows a run only inside its cluster, and dir_put_entry never lets one leave it.
    Also what an overwrite does to the slot it patches. */
module FatRuns {
  import opened Basics
  import opened Words
  import opened FatLfn
  import opened FatDir
  import opened FatPlace
  import opened FatEntry
  import opened FatDelete

  /** No long-name run goes on behind slot `i`. */
  ghost predicate Closed(d: Slots, i: nat) {
    i <= |d| ==> EndState(d[..i], Idle).Idle?
  }

  /** No long-name run crosses the border of a cluster of `per` slots. */
  ghost predicate Near(d: Slots, per: nat)
    requires per > 0
  {
    forall i: nat :: i % per == 0 ==> Closed(d, i)
  }

  /** Then every entry's run begins in its own cluster, and deleting it leaves no
      orphans. */
  lemma NearGroup(d: Slots, p: nat, per: nat)
    requires per > 0 && p < |d| && Near(d, per)
    ensures p - p % per <= GroupStart(d, p)
  {
    hide EndState;
    Floor(p, per);
    assert Closed(d, p - p % per);
    StartFrom(d, p, p - p % per);
  }

  lemma Floor(p: nat, per: nat)
    requires per > 0
    ensures 0 <= p - p % per <= p && (p - p % per) % per == 0
  {
    var q := p / per;
    assert p - p % per == q * per;
    ModTimes(q, per);
  }

  lemma {:induction false} ModTimes(q: nat, per: nat)
    requires per > 0
    ensures (q * per) % per == 0
    decreases q
  {
    if q > 0 {
      ModTimes(q - 1, per);
      assert q * per == (q - 1) * per + per;
      AddOne((q - 1) * per, per);
    }
  }

  lemma AddOne(x: nat, per: nat)
    requires per > 0
    ensures (x + per) % per == x % per
  {
    var q, r := x / per, x % per;
    assert x + per == (q + 1) * per + r;
    Unique(q + 1, r, per, x + per);
  }

  lemma Unique(q: int, r: int, per: nat, x: nat)
    requires per > 0 && 0 <= r < per && x == q * per + r
    ensures x % per == r && x / per == q
  {
    var q1, r1 := x / per, x % per;
    assert x == q1 * per + r1;
    assert (q - q1) * per == r1 - r && (q1 - q) * per == r - r1;
    if q - q1 >= 1 {
      TimesGrows(q - q1, per);
    } else if q1 - q >= 1 {
      TimesGrows(q1 - q, per);
    }
  }

  lemma TimesGrows(k: nat, per: nat)
    requires k >= 1
    ensures k * per >= per
  {
  }

  lemma {:induction false} StartFrom(d: Slots, p: nat, lo: nat)
    requires lo <= p <= |d| && EndState(d[..lo], Idle).Idle?
    ensures lo <= GroupStart(d, p)
    decreases p
  {
    if p > lo && !EndState(d[..p], Idle).Idle? {
      StartFrom(d, p - 1, lo);
    }
  }

  // ----- Slots that lead the scan on alike -----

  predicate SameStep(x: Slot, y: Slot) {
    y == x || (IsFree(x) && IsFree(y)) || (!IsFree(x) && !IsFree(y) && !IsLfn(x) && !IsLfn(y))
  }

  lemma {:induction false} SameEnd(a: Slots, b: Slots, st: LfnState)
    requires Sane(st) && |a| == |b| && forall i :: 0 <= i < |a| ==> SameStep(a[i], b[i])
    ensures EndState(a, st) == EndState(b, st)
    decreases |a|
  {
    if a != [] {
      assert SameStep(a[0], b[0]);
      hide AfterLfn;
      assert After(st, a[0]) == After(st, b[0]);
      SameEnd(a[1..], b[1..], After(st, a[0]));
    }
  }

  lemma SameNear(a: Slots, b: Slots, per: nat)
    requires per > 0 && |a| == |b| && Near(a, per) && forall i :: 0 <= i < |a| ==> SameStep(a[i], b[i])
    ensures Near(b, per)
  {
    hide EndState, SameStep;
    forall i: nat | i % per == 0
      ensures Closed(b, i)
    {
      if i <= |b| {
        assert Closed(a, i);
        SameEnd(a[..i], b[..i], Idle);
      }
    }
  }

  lemma {:induction false} FreeEnd(d: Slots)
    requires forall i :: 0 <= i < |d| ==> IsFree(d[i])
    ensures EndState(d, Idle) == Idle
    decreases |d|
  {
    if d != [] {
      assert IsFree(d[0]);
      FreeEnd(d[1..]);
    }
  }

  /** Blank clusters behind a directory. */
  lemma GrowNear(d: Slots, n: nat, per: nat)
    requires per > 0 && Near(d, per) && |d| % per == 0
    ensures Near(d + BlankSlots(n), per)
  {
    var z := BlankSlots(n);
    var g := d + z;
    assert Closed(d, |d|) && d[..|d|] == d;
    forall i: nat | i % per == 0
      ensures Closed(g, i)
    {
      if i <= |d| {
        assert Closed(d, i) && g[..i] == d[..i];
      } else if i <= |g| {
        assert g[..i] == d + z[..i - |d|];
        EndAppend(d, z[..i - |d|], Idle);
        FreeEnd(z[..i - |d|]);
      }
    }
  }

  // ----- Storing an entry -----

  /** The slots [p, p + n) lie between two borders. */
  ghost predicate Between(p: nat, n: nat, per: nat)
    requires per > 0
  {
    forall i: nat :: i % per == 0 ==> Beside(i, p, n)
  }

  predicate Beside(i: nat, p: nat, n: nat) {
    i <= p || p + n <= i
  }

  /** A complete entry written over free slots between two borders. */
  lemma OverNear(d: Slots, p: nat, enc: Slots, per: nat)
    requires per > 0 && Near(d, per) && Tidy(d, Idle)
    requires p + |enc| <= |d| && NoEnd(d[..p]) && RunAt(d, p, |enc|) && |enc| > 0 && Between(p, |enc|, per)
    requires EndState(enc, Idle) == Idle
    ensures Near(Over(d, p, enc), per)
  {
    hide Tidy, EndState, Near, IsFree, NoEnd, RunAt, Over, Between;
    OverParts(d, p, enc);
    PiecesNear(d[..p], d[p..p + |enc|], enc, d[p + |enc|..], per);
  }

  lemma OverParts(d: Slots, p: nat, enc: Slots)
    requires p + |enc| <= |d| && RunAt(d, p, |enc|)
    ensures d == d[..p] + (d[p..p + |enc|] + d[p + |enc|..])
    ensures Over(d, p, enc) == d[..p] + (enc + d[p + |enc|..])
    ensures AllFree(d[p..p + |enc|])
  {
    hide RunAt, AllFree;
    FreePart(d, p, |enc|);
  }

  lemma FreePart(d: Slots, p: nat, n: nat)
    requires RunAt(d, p, n)
    ensures p + n <= |d| && AllFree(d[p..p + n])
  {
    hide IsFree;
    forall i | p <= i < p + n
      ensures IsFree(d[i])
    {
    }
    var mid := d[p..p + n];
    assert forall i :: 0 <= i < |mid| ==> mid[i] == d[p + i];
  }

  lemma PiecesNear(pre: Slots, mid: Slots, enc: Slots, post: Slots, per: nat)
    requires per > 0 && Near(pre + (mid + post), per) && Tidy(pre + (mid + post), Idle) && NoEnd(pre) && AllFree(mid)
    requires |enc| == |mid| > 0 && Between(|pre|, |mid|, per) && EndState(enc, Idle) == Idle
    ensures Near(pre + (enc + post), per)
  {
    assert (mid + post)[0] == mid[0];
    FreeEnd(mid);
    hide Tidy, EndState, IsFree, NoEnd;
    PreIdle(pre, mid + post);
    forall i: nat | i % per == 0
      ensures Closed(pre + (enc + post), i)
    {
      assert Closed(pre + (mid + post), i) && Beside(i, |pre|, |mid|);
      ClosedBeside(pre, mid, enc, post, i);
    }
  }

  lemma ClosedBeside(pre: Slots, mid: Slots, enc: Slots, post: Slots, i: nat)
    requires |enc| == |mid| && EndState(pre, Idle) == EndState(mid, Idle) == EndState(enc, Idle) == Idle
    requires Closed(pre + (mid + post), i) && Beside(i, |pre|, |mid|)
    ensures Closed(pre + (enc + post), i)
  {
    hide EndState;
    var d, r := pre + (mid + post), pre + (enc + post);
    if i <= |pre| {
      assert r[..i] == d[..i];
    } else if i <= |r| {
      var k := i - (|pre| + |mid|);
      assert r[..i] == pre + (enc + post[..k]) && d[..i] == pre + (mid + post[..k]);
      EndAppend(pre, enc + post[..k], Idle);
      EndAppend(pre, mid + post[..k], Idle);
      EndAppend(enc, post[..k], Idle);
      EndAppend(mid, post[..k], Idle);
    }
  }

  /** Before a free slot of a tidy directory no run is open. */
  lemma PreIdle(pre: Slots, rest: Slots)
    requires NoEnd(pre) && rest != [] && IsFree(rest[0]) && Tidy(pre + rest, Idle)
    ensures EndState(pre, Idle) == Idle
  {
    hide EndState;
    TidyAppend(pre, rest, Idle);
  }

  lemma SectorBetween(at: nat, p: nat, n: nat, per: nat)
    requires per > 0 && per % 16 == 0 && at % 16 == 0 && at <= p && p + n <= at + 16
    ensures Between(p, n, per)
  {
    forall i: nat | i % per == 0
      ensures Beside(i, p, n)
    {
      Sixteen(i, per);
      assert i <= at || at + 16 <= i;
    }
  }

  /** A multiple of a multiple of 16. */
  lemma Sixteen(i: nat, per: nat)
    requires per > 0 && per % 16 == 0 && i % per == 0
    ensures i % 16 == 0
  {
    var q, m := i / per, per / 16;
    assert i == q * per && per == m * 16;
    assert i == (q * m) * 16 by { Assoc(q, m); }
  }

  lemma Assoc(q: nat, m: nat)
    ensures q * (m * 16) == (q * m) * 16
  {
  }

  lemma {:induction false} PlaceNear(d: Slots, count: nat, at: nat, per: nat)
    requires |d| % 16 == 0 && at % 16 == 0 && per > 0 && per % 16 == 0 && Near(d, per)
    ensures Near(Place(d, count, at).0, per)
    ensures Place(d, count, at).1.Some? ==> Between(Place(d, count, at).1.value, count, per)
    decreases |d| - at
  {
    if at < |d| {
      match FirstRun(d, at, at + 16, count) {
        case Some(p) => SectorBetween(at, p, count, per);
        case None =>
          var b := Blanked(d, at, at + 16);
          SameNear(d, b, per);
          PlaceNear(b, count, at + 16, per);
      }
    }
  }

  lemma AllocRunNear(d: Slots, count: nat, room: bool, per: nat)
    requires |d| % 16 == 0 && per > 0 && per % 16 == 0 && Near(d, per) && |d| % per == 0
    ensures var r := AllocRun(d, count, room, per);
            Near(r.0, per) && (r.1.Some? ==> Between(r.1.value, count, per))
  {
    hide Near, Between;
    PlaceNear(d, count, 0, per);
    if 1 <= count <= 16 && Place(d, count, 0).1.None? && room {
      GrowNear(Place(d, count, 0).0, per, per);
      hide BlankSlots;
      SectorBetween(|d|, |d|, count, per);
    }
  }

  /** Storing an entry, under whatever name, keeps every run in its cluster. */
  lemma PutNear(d: Slots, leaf: Name, m: Meta, room: bool, per: nat)
    requires |d| % 16 == 0 && per >= 16 && per % 16 == 0 && |d| % per == 0
    requires Tidy(d, Idle) && Near(d, per)
    requires IsString(leaf) && Find(Items(d), leaf).None? && FileOrDir(m.attr)
    ensures Near(PutEntry(d, leaf, m, room, per).0, per)
  {
    hide Tidy, Items, Near, FormatName, ParseName, NeedsLfn, Find, MakeAlias, PutLong, PutShort;
    if !NeedsLfn(leaf) {
      ShortNear(d, leaf, m, room, per);
    } else if |leaf| <= 194 && MakeAlias(d, leaf, 1).Some? {
      AliasFresh(d, leaf, 1);
      LongNear(d, leaf, MakeAlias(d, leaf, 1).value, m, room, per);
    }
  }

  lemma ShortNear(d: Slots, leaf: Name, m: Meta, room: bool, per: nat)
    requires |d| % 16 == 0 && per >= 16 && per % 16 == 0 && |d| % per == 0
    requires Tidy(d, Idle) && Near(d, per) && IsString(leaf) && FileOrDir(m.attr)
    requires Find(Items(d), leaf).None? && !NeedsLfn(leaf)
    ensures Near(PutShort(d, ParseName(leaf), m, room, per).0, per)
  {
    hide Tidy, Items, Near, FormatName, ParseName, Find, DirentOf, FindSlot, Scan;
    var raw := ParseName(leaf);
    RawFirst(leaf);
    var de := DirentOf(raw, m);
    DirentEnds(raw, m);
    ShortSpot(d, raw, m, room, per);
    var r := PutShort(d, raw, m, room, per);
    if r.1.Some? {
      var g := if FindSlot(d, raw, 0, None).Full? then d + BlankSlots(per) else d;
      GrowNear(d, per, per);
      OneBetween(r.1.value, per);
      OverNear(g, r.1.value, [de], per);
    }
  }

  lemma DirentEnds(raw: Raw, m: Meta)
    requires raw[0] != 0 && FileOrDir(m.attr)
    ensures EndState([DirentOf(raw, m)], Idle) == Idle
  {
    hide Dirent, Cluster, Size;
    if raw[0] == DELETED {
      DirentFirst(raw, m);
      OneSlot(DirentOf(raw, m), Idle);
    } else {
      DirentShort(raw, m);
      ShortReadsBack(DirentOf(raw, m), raw, m.attr, m.clus, m.size, 0);
    }
  }

  /** Where a short entry goes: over a free slot of a tidy directory. */
  lemma ShortSpot(d: Slots, raw: Raw, m: Meta, room: bool, per: nat)
    requires per >= 16 && Tidy(d, Idle) && Find(Items(d), FormatName(raw)).None?
    ensures var g := if FindSlot(d, raw, 0, None).Full? then d + BlankSlots(per) else d;
            var r := PutShort(d, raw, m, room, per);
            Tidy(g, Idle)
            && match r.1
               case None => r.0 == d
               case Some(p) => p < |g| && RunAt(g, p, 1) && NoEnd(g[..p]) && r.0 == Over(g, p, [DirentOf(raw, m)])
  {
    hide Tidy, Scan, Items, DirentOf;
    AbsentRaw(Items(d), raw);
    FindsVacant(d, raw, 0, None);
    FindSlotBound(d, raw, 0, None);
    if FindSlot(d, raw, 0, None).Full? {
      GrowKeeps(d, per);
      var g := d + BlankSlots(per);
      assert g[..|d|] == d && g[|d|] == BlankSlots(per)[0];
    }
  }

  lemma OneBetween(p: nat, per: nat)
    requires per > 0
    ensures Between(p, 1, per)
  {
    forall i: nat | i % per == 0
      ensures Beside(i, p, 1)
    {
    }
  }

  lemma LongNear(d: Slots, leaf: Name, raw: Raw, m: Meta, room: bool, per: nat)
    requires |d| % 16 == 0 && per >= 16 && per % 16 == 0 && |d| % per == 0
    requires Tidy(d, Idle) && Near(d, per) && IsString(leaf) && |leaf| <= 194 && FileOrDir(m.attr)
    requires raw[0] != 0 && raw[0] != DELETED
    ensures Near(PutLong(d, leaf, raw, m, room, per).0, per)
  {
    hide Tidy, Items, Near, AllocRun, Encoded, Over, RunAt, NoEnd, LfnSlots, EndState, IsString, FileOrDir, Between;
    var n := LfnSlots(|leaf|);
    FewSlots(|leaf|);
    AllocRunTidy(d, n + 1, room, per);
    AllocRunBound(d, n + 1, room, per);
    AllocRunNear(d, n + 1, room, per);
    var g := AllocRun(d, n + 1, room, per);
    if g.1.Some? {
      EncodedReads(leaf, raw, m, g.1.value);
      OverNear(g.0, g.1.value, Encoded(leaf, raw, m), per);
    }
  }

  // ----- Deleting an entry -----

  /** Deleting an entry with its run keeps the other runs in their clusters. */
  lemma DeleteNear(d: Slots, p: nat, per: nat)
    requires per > 0 && Near(d, per) && p < |d| && NoEnd(d[..p]) && Tidy(d, Idle) && IsShort(d[p])
    ensures p - p % per >= 0 && Near(Delete(d, p, p - p % per), per)
  {
    hide EndState, GroupStart, RunStart, Tidy, Checksum, IsShort, NoEnd, IsLfn;
    Floor(p, per);
    var lo := p - p % per;
    NearGroup(d, p, per);
    RunStartIs(d, p, lo);
    var s := GroupStart(d, p);
    var r := Delete(d, p, lo);
    assert r == Marked(d, s, p);
    forall i: nat | i % per == 0
      ensures Closed(r, i)
    {
      assert Closed(d, i);
      BorderOutside(i, p, per);
      if i <= s {
        if i <= |d| {
          assert r[..i] == d[..i];
        }
      } else if p < i <= |d| {
        MarkedEnd(d, s, p, i);
      }
    }
  }

  /** A border is not strictly inside the part of a cluster before slot `p`. */
  lemma BorderOutside(i: nat, p: nat, per: nat)
    requires per > 0 && i % per == 0
    ensures i <= p - p % per || p < i
  {
    var a, b := i / per, p / per;
    assert i == a * per && p - p % per == b * per;
    if a <= b {
      MulMono(a, b, per);
    } else {
      MulMono(b + 1, a, per);
      assert (b + 1) * per == b * per + per;
    }
  }

  /** Behind the deleted entry the scan goes on as before. */
  lemma MarkedEnd(d: Slots, s: nat, p: nat, i: nat)
    requires s <= p < i <= |d| && EndState(d[..s], Idle) == Idle && IsShort(d[p])
    ensures EndState(Marked(d, s, p)[..i], Idle) == EndState(d[..i], Idle)
  {
    hide EndState;
    var r, rest := Marked(d, s, p), d[p + 1..i];
    var run, dead := d[s..p + 1], r[s..p + 1];
    assert d[..i] == d[..s] + (d[s..p] + [d[p]] + rest);
    assert r[..i] == d[..s] + (dead + rest);
    EndAppend(d[..s], d[s..p] + [d[p]] + rest, Idle);
    EndAppend(d[..s], dead + rest, Idle);
    EndAppend(d[s..p] + [d[p]], rest, Idle);
    EndAppend(d[s..p], [d[p]], Idle);
    ShortScan(d[p], EndState(d[s..p], Idle), 0);
    EndAppend(dead, rest, Idle);
    assert forall k :: 0 <= k < |dead| ==> IsFree(dead[k]);
    FreeEnd(dead);
  }

  // ----- Overwriting: the patched slot -----

  /** The overwrite branch of fat32_write_file: start cluster, size, write time and
      write and access date of one slot. */
  function Repointed(de: Slot, clus: u32, size: u32, date: u16, time: u16): (r: Slot)
    ensures r[..18] == de[..18]
  {
    de[..18] + Word(date) + Word(clus / 0x1_0000) + Word(time) + Word(date)
      + Word(clus % 0x1_0000) + Word(size % 0x1_0000) + Word(size / 0x1_0000)
  }

  lemma RepointedFields(de: Slot, clus: u32, size: u32, date: u16, time: u16)
    ensures var r := Repointed(de, clus, size, date, time);
            && Cluster(r) == clus && Size(r) == size && r[0] == de[0] && r[11] == de[11] && r[..11] == de[..11]
  {
    var r := Repointed(de, clus, size, date, time);
    assert r[0] == r[..18][0] && r[11] == r[..18][11] && r[..11] == r[..18][..11] && de[..11] == de[..18][..11];
    assert r[20] == clus / 0x1_0000 % 0x100 && r[21] == clus / 0x1_0000 / 0x100;
    assert r[26] == clus % 0x1_0000 % 0x100 && r[27] == clus % 0x1_0000 / 0x100;
    assert r[28] == size % 0x1_0000 % 0x100 && r[29] == size % 0x1_0000 / 0x100;
    assert r[30] == size / 0x1_0000 % 0x100 && r[31] == size / 0x1_0000 / 0x100;
  }

  /** The scan passes over the patched slot as before, and reports it with the new
      start and size. */
  lemma RepointedSlot(de: Slot, st: LfnState, pos: nat, clus: u32, size: u32, date: u16, time: u16)
    requires Sane(st) && IsShort(de)
    ensures var r := Repointed(de, clus, size, date, time);
            && IsShort(r) && After(st, r) == After(st, de) == Idle && SameStep(de, r)
            && r[..11] == de[..11] && r[0] == de[0] && IsLabel(r) == IsLabel(de)
            && ItemOf(st, r, pos) == ItemOf(st, de, pos).(clus := clus, size := size)
  {
    hide Cluster, Size, Repointed, Checksum;
    RepointedFields(de, clus, size, date, time);
    SameLong(st, de, Repointed(de, clus, size, date, time));
  }

  lemma SameLong(st: LfnState, x: Slot, y: Slot)
    requires Sane(st) && x[..11] == y[..11]
    ensures LongName(st, x) == LongName(st, y)
  {
  }

  /** An overwrite changes one item, in start and size, and nothing else. */
  lemma {:induction false} RepointScan(d: Slots, st: LfnState, base: nat, p: nat, clus: u32, size: u32, date: u16,
                                       time: u16)
    returns (k: nat)
    requires Sane(st) && p < |d| && NoEnd(d[..p]) && IsShort(d[p])
    ensures var r, items := d[p := Repointed(d[p], clus, size, date, time)], Scan(d, st, base);
            && k < |items| && items[k].pos == base + p && items[k].raw == d[p][..11]
            && Scan(r, st, base) == items[k := items[k].(clus := clus, size := size)]
            && (Tidy(d, st) ==> Tidy(r, st))
    decreases p
  {
    hide AfterLfn, IsLfn, Repointed, Checksum, LongName, Cluster, Size;
    var r := d[p := Repointed(d[p], clus, size, date, time)];
    if p == 0 {
      RepointedSlot(d[0], st, base, clus, size, date, time);
      assert r[1..] == d[1..];
      k := 0;
    } else {
      assert d[0] == d[..p][0] && r[0] == d[0];
      assert r[1..] == d[1..][p - 1 := Repointed(d[p], clus, size, date, time)] && d[1..][p - 1] == d[p];
      NoEndTail(d, p);
      var l := RepointScan(d[1..], After(st, d[0]), base + 1, p - 1, clus, size, date, time);
      k := if IsShort(d[0]) then l + 1 else l;
    }
  }

  lemma RepointItems(d: Slots, p: nat, clus: u32, size: u32, date: u16, time: u16, per: nat) returns (k: nat)
    requires p < |d| && NoEnd(d[..p]) && IsShort(d[p]) && Tidy(d, Idle) && per > 0 && Near(d, per)
    ensures var r := d[p := Repointed(d[p], clus, size, date, time)];
            && k < |Items(d)| && Items(d)[k].pos == p && Items(d)[k].raw == d[p][..11]
            && Items(r) == Items(d)[k := Items(d)[k].(clus := clus, size := size)]
            && Tidy(r, Idle) && Near(r, per)
  {
    hide Tidy, Scan, Near, Repointed, IsShort;
    k := RepointScan(d, Idle, 0, p, clus, size, date, time);
    RepointedSlot(d[p], Idle, 0, clus, size, date, time);
    SameNear(d, d[p := Repointed(d[p], clus, size, date, time)], per);
  }
}
