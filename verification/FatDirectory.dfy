/** A directory of fs/fat32.c being searched and edited in place, slot by slot in
    chain order.  The methods carry out the functions of FatDir, FatPlace, FatEntry
    and FatDelete; what these mean is proved there and summed up here. */
module FatDirectory {
  import opened Basics
  import opened FatLfn
  import opened FatDir
  import opened FatPlace
  import opened FatSpelling
  import opened FatEntry
  import opened FatDelete

  class Directory {
    var slots: Slots
    /** Slots in one cluster. */
    const perClus: nat

    constructor (slots: Slots, secPerClus: nat)
      requires secPerClus > 0 && |slots| % (16 * secPerClus) == 0
      ensures Valid() && this.slots == slots && perClus == 16 * secPerClus
    {
      this.slots := slots;
      perClus := 16 * secPerClus;
      WholeSectors(|slots|, secPerClus);
    }

    static lemma WholeSectors(n: nat, spc: nat)
      requires spc > 0 && n % (16 * spc) == 0
      ensures n % 16 == 0
    {
      assert n == n / (16 * spc) * (16 * spc);
      assert n == 16 * (n / (16 * spc) * spc);
    }

    ghost predicate Valid()
      reads this
    {
      perClus >= 16 && |slots| % 16 == 0
    }

    /** dir_lookup: the scan with the long-name state, stopped at the first match. */
    method Lookup(want: Name) returns (found: Option<Item>)
      ensures found == Find(Items(slots), want) && FirstNamed(Items(slots), want, found)
    {
      hide After, LongName, Matches, FirstNamed;
      FindsFirst(Items(slots), want);
      var st, i := Idle, 0;
      while i < |slots|
        invariant 0 <= i <= |slots| && Sane(st)
        invariant Find(Items(slots), want) == Find(Scan(slots[i..], st, i), want)
      {
        var de := slots[i];
        ScanStep(slots, st, i);
        if de[0] == 0 { return None; }
        if IsShort(de) {
          var it := ItemOf(st, de, i);
          if Matches(it, want) { return Some(it); }
        }
        st := After(st, de);
        i := i + 1;
      }
      return None;
    }

    /** dir_find_or_alloc, up to the point where the directory would have to grow. */
    method FindOrAlloc(raw: Raw) returns (c: Choice)
      ensures c == FindSlot(slots, raw, 0, None)
    {
      var free: Option<nat> := None;
      var i := 0;
      while i < |slots|
        invariant 0 <= i <= |slots|
        invariant FindSlot(slots, raw, 0, None) == FindSlot(slots, raw, i, free)
      {
        var de := slots[i];
        if de[0] == 0 {
          return Vacant(Chosen(free, i));
        }
        if de[0] == DELETED {
          free := Some(Chosen(free, i));
        } else if !IsLfn(de) && !IsLabel(de) && !IsDir(de) && de[..11] == raw {
          return Existing(i);
        }
        i := i + 1;
      }
      return match free case Some(f) => Vacant(f) case None => Full;
    }

    /** The run counter over one sector. */
    method SectorRun(at: nat, count: nat) returns (p: Option<nat>)
      requires at + 16 <= |slots| && 1 <= count <= 16
      ensures p == FirstRun(slots, at, at + 16, count)
    {
      hide FirstRun, IsFree;
      var run, e := 0, 0;
      while e < 16
        invariant 0 <= run <= e <= 16 && run < count
        invariant forall i :: at + e - run <= i < at + e ==> IsFree(slots[i])
        invariant FirstRun(slots, at, at + 16, count) == FirstRun(slots, at + e - run, at + 16, count)
      {
        if IsFree(slots[at + e]) {
          run := run + 1;
          if run >= count {
            FirstHere(slots, at + e + 1 - run, at + 16, count);
            return Some(at + e + 1 - run);
          }
        } else {
          SkipRuns(slots, at + e - run, at + e, at + 16, count);
          run := 0;
        }
        e := e + 1;
      }
      NoneLeft(slots, at + 16 - run, at + 16, count);
      p := None;
    }

    /** dir_alloc_run. */
    method AllocRun(count: nat, room: bool) returns (p: Option<nat>)
      requires Valid() && 1 <= count <= 16
      modifies this
      ensures Valid() || room
      ensures (slots, p) == FatPlace.AllocRun(old(slots), count, room, perClus)
    {
      var at := 0;
      while at < |slots|
        invariant 0 <= at && at % 16 == 0 && |slots| == |old(slots)|
        invariant Place(slots, count, at) == Place(old(slots), count, 0)
        decreases |slots| - at
      {
        p := SectorRun(at, count);
        if p.Some? { return; }
        EraseEnds(at);
        at := at + 16;
      }
      if room {
        p := Some(|slots|);
        slots := slots + BlankSlots(perClus);
      } else {
        p := None;
      }
    }

    /** Turns the end marks of one sector into deletion marks. */
    method EraseEnds(at: nat)
      requires at + 16 <= |slots|
      modifies this
      ensures slots == Blanked(old(slots), at, at + 16)
    {
      var e := 0;
      while e < 16
        invariant 0 <= e <= 16 && slots == Blanked(old(slots), at, at + e)
      {
        if slots[at + e][0] == 0 {
          slots := slots[at + e := slots[at + e][0 := DELETED]];
        }
        e := e + 1;
      }
    }

    /** dir_put_entry. */
    method PutEntry(leaf: Name, m: Meta, room: bool) returns (pos: Option<nat>)
      requires Valid()
      modifies this
      ensures (slots, pos) == FatEntry.PutEntry(old(slots), leaf, m, room, perClus)
    {
      hide FatPlace.AllocRun, Scan, FirstRun, Place;
      if !NeedsLfn(leaf) {
        pos := PutShort(ParseName(leaf), m, room);
        return;
      }
      if |leaf| > 194 { return None; }
      var alias := ShortAlias(leaf);
      if alias.None? { return None; }
      pos := PutLong(leaf, alias.value, m, room);
    }

    method PutShort(raw: Raw, m: Meta, room: bool) returns (pos: Option<nat>)
      requires Valid()
      modifies this
      ensures (slots, pos) == FatEntry.PutShort(old(slots), raw, m, room, perClus)
    {
      hide Dirent;
      FindSlotBound(slots, raw, 0, None);
      var c := FindOrAlloc(raw);
      var p: nat;
      match c {
        case Existing(q) => p := q;
        case Vacant(q) => p := q;
        case Full =>
          if !room { return None; }
          p := |slots|;
          slots := slots + BlankSlots(perClus);
      }
      ghost var was := slots;
      slots := slots[p := DirentOf(raw, m)];
      assert slots == Over(was, p, [DirentOf(raw, m)]);
      pos := Some(p);
    }

    /** make_short_alias: ~1 to ~9 until a lookup fails. */
    method ShortAlias(leaf: Name) returns (r: Option<Raw>)
      ensures r == MakeAlias(slots, leaf, 1)
    {
      hide AliasRaw, FormatName, Items, Find;
      var n := 1;
      while n <= 9
        invariant 1 <= n <= 10 && MakeAlias(slots, leaf, n) == MakeAlias(slots, leaf, 1)
      {
        var raw := AliasRaw(leaf, n);
        var found := Lookup(FormatName(raw));
        if found.None? { return Some(raw); }
        n := n + 1;
      }
      return None;
    }

    method PutLong(leaf: Name, raw: Raw, m: Meta, room: bool) returns (pos: Option<nat>)
      requires Valid() && |leaf| <= 194
      modifies this
      ensures (slots, pos) == FatEntry.PutLong(old(slots), leaf, raw, m, room, perClus)
    {
      hide FatPlace.AllocRun, LfnSlot, DirentOf, Checksum, LfnSlots;
      var n := LfnSlots(|leaf|);
      FewSlots(|leaf|);
      SomeSlots(|leaf|);
      var sum := Checksum(raw, 11);
      AllocRunBound(slots, n + 1, room, perClus);
      var at := AllocRun(n + 1, room);
      if at.None? { return None; }
      var p := at.value;
      ghost var was, enc := slots, Encoded(leaf, raw, m);
      OverNothing(was, p, enc);
      var k := 0;
      while k < n
        invariant 0 <= k <= n && |slots| == |was| && slots == Over(was, p, enc[..k])
      {
        var de := SetLfnEntry(n - k, k == 0, sum, leaf);
        slots := slots[p + k := de];
        OverMore(was, p, enc, k);
        k := k + 1;
      }
      slots := slots[p + n := DirentOf(raw, m)];
      OverMore(was, p, enc, n);
      assert enc[..n + 1] == enc;
      pos := Some(p + n);
    }

    /** mark_deleted_with_lfn on the entry at slot `p`; `lo` is the first slot of its
        cluster. */
    method MarkDeleted(p: nat, lo: nat)
      requires lo <= p < |slots|
      modifies this
      ensures slots == Delete(old(slots), p, lo)
    {
      hide Checksum;
      ghost var was := slots;
      var sum := Checksum(slots[p][..11], 11);
      slots := slots[p := slots[p][0 := DELETED]];
      var e := p;
      while e > lo && BelongsTo(slots[e - 1], sum)
        invariant lo <= e <= p && slots == Marked(was, e, p)
        invariant RunStart(was, e, lo, sum) == RunStart(was, p, lo, sum)
      {
        e := e - 1;
        slots := slots[e := slots[e][0 := DELETED]];
      }
    }
  }

  // ----- Facts about the loops -----

  lemma ScanStep(d: Slots, st: LfnState, i: nat)
    requires i < |d| && Sane(st)
    ensures Scan(d[i..], st, i) == if d[i][0] == 0 then [] else
              (if IsShort(d[i]) then [ItemOf(st, d[i], i)] else []) + Scan(d[i + 1..], After(st, d[i]), i + 1)
  {
    assert d[i..][1..] == d[i + 1..];
  }

  /** No run of `count` fits into the `run` free slots before the used slot `e`. */
  lemma {:induction false} SkipRuns(d: Slots, p: nat, e: nat, hi: nat, count: nat)
    requires p <= e < hi <= |d| && e - p < count && !IsFree(d[e])
    ensures FirstRun(d, p, hi, count) == FirstRun(d, e + 1, hi, count)
    decreases e - p
  {
    assert p + count <= hi ==> !RunAt(d, p, count) by {
      assert p <= e < p + count;
    }
    if p < e {
      SkipRuns(d, p + 1, e, hi, count);
    }
  }

  lemma FirstHere(d: Slots, p: nat, hi: nat, count: nat)
    requires hi <= |d| && p + count <= hi && forall i :: p <= i < p + count ==> IsFree(d[i])
    ensures FirstRun(d, p, hi, count) == Some(p)
  {
  }

  lemma NoneLeft(d: Slots, p: nat, hi: nat, count: nat)
    requires hi <= |d| && p + count > hi
    ensures FirstRun(d, p, hi, count) == None
  {
  }

  lemma SomeSlots(len: nat)
    ensures LfnSlots(len) >= 1
  {
  }

  lemma OverNothing(d: Slots, p: nat, enc: Slots)
    requires p <= |d|
    ensures Over(d, p, enc[..0]) == d
  {
  }

  lemma OverMore(d: Slots, p: nat, enc: Slots, k: nat)
    requires p + |enc| <= |d| && k < |enc|
    ensures Over(d, p, enc[..k + 1]) == Over(d, p, enc[..k])[p + k := enc[k]]
  {
    assert enc[..k + 1] == enc[..k] + [enc[k]];
    assert d[p + k..][1..] == d[p + k + 1..];
  }
}
