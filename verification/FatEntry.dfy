/** dir_put_entry of fs/fat32.c: choosing a short alias, laying out the slots and
    storing them.  Storing an absent 7-bit name makes exactly that name and its
    alias findable. */
module FatEntry {
  import opened Basics
  import opened Words
  import opened FatLfn
  import opened FatDir
  import opened FatPlace
  import opened FatSpelling

  // ----- Short aliases (make_short_alias) -----

  predicate Alnum(c: u8) {
    0x41 <= c <= 0x5A || 0x30 <= c <= 0x39
  }

  /** The letters and digits of `s`, in upper case. */
  function Letters(s: Name): (r: Name)
    ensures forall i :: 0 <= i < |r| ==> Alnum(r[i])
    decreases |s|
  {
    if s == [] then []
    else
      var c := Up(s[0]);
      if Alnum(c) then [c] + Letters(s[1..]) else Letters(s[1..])
  }

  /** Index of the last dot, -1 without one. */
  function LastDot(s: Name): (i: int)
    ensures -1 <= i < |s| && (i >= 0 ==> s[i] == DOT)
    ensures forall k :: i < k < |s| ==> s[k] != DOT
    decreases |s|
  {
    if s == [] then -1 else if s[|s| - 1] == DOT then |s| - 1 else LastDot(s[..|s| - 1])
  }

  /** "BASE~n.EXT", padded. */
  function AliasRaw(name: Name, n: nat): (r: Raw)
    requires n <= 9
    ensures r[0] != 0 && r[0] != DELETED
  {
    var dot := LastDot(name);
    var letters := Truncated(Letters(if dot < 0 then name else name[..dot]), 6);
    var stem := if letters == [] then [0x5F] else letters;
    var ext := if dot < 0 then [] else Truncated(Letters(name[dot + 1..]), 3);
    Padded(stem + [TILDE, 0x30 + n], 8) + Padded(ext, 3)
  }

  /** The first of ~1 to ~9 that no entry answers to. */
  function MakeAlias(d: Slots, name: Name, n: nat): (r: Option<Raw>)
    requires 1 <= n <= 10
    decreases 10 - n
  {
    if n == 10 then None
    else if Find(Items(d), FormatName(AliasRaw(name, n))).None? then Some(AliasRaw(name, n))
    else MakeAlias(d, name, n + 1)
  }

  predicate Taken(d: Slots, name: Name, k: nat)
    requires k <= 9
  {
    Find(Items(d), FormatName(AliasRaw(name, k))).Some?
  }

  /** The alias is fresh, and there is one unless all nine are taken. */
  lemma {:induction false} AliasFresh(d: Slots, name: Name, n: nat)
    requires 1 <= n <= 10
    ensures var r := MakeAlias(d, name, n);
            && (r.Some? ==> Find(Items(d), FormatName(r.value)).None? && r.value[0] != 0 && r.value[0] != DELETED)
            && (r.None? <==> forall k :: n <= k <= 9 ==> Taken(d, name, k))
    decreases 10 - n
  {
    hide Items, FormatName, AliasRaw, Find;
    if n < 10 {
      AliasFresh(d, name, n + 1);
      AliasStart(name, n);
      assert Taken(d, name, n) <==> Find(Items(d), FormatName(AliasRaw(name, n))).Some?;
    }
  }

  lemma AliasStart(name: Name, n: nat)
    requires n <= 9
    ensures AliasRaw(name, n)[0] != 0 && AliasRaw(name, n)[0] != DELETED
  {
  }

  // ----- dir_put_entry -----

  datatype Meta = Meta(attr: u8, clus: u32, size: u32, date: u16, time: u16)

  function DirentOf(raw: Raw, m: Meta): Slot {
    Dirent(raw, m.attr, m.clus, m.size, m.date, m.time)
  }

  /** The slots of an entry with a long name. */
  function Encoded(name: Name, raw: Raw, m: Meta): (enc: Slots)
    requires LfnSlots(|name|) < 32
    ensures |enc| == LfnSlots(|name|) + 1
  {
    var n := LfnSlots(|name|);
    seq(n, k requires 0 <= k < n => LfnSlot(n - k, k == 0, Checksum(raw, 11), name)) + [DirentOf(raw, m)]
  }

  /** `enc` written over the slots from `p` on. */
  function Over(d: Slots, p: nat, enc: Slots): (r: Slots)
    requires p + |enc| <= |d|
    ensures |r| == |d|
  {
    d[..p] + enc + d[p + |enc|..]
  }

  /** The directory afterwards, and the slot of the short entry if it was stored. */
  function PutEntry(d: Slots, leaf: Name, m: Meta, room: bool, perClus: nat): (Slots, Option<nat>)
    requires |d| % 16 == 0 && perClus >= 16
  {
    if !NeedsLfn(leaf) then PutShort(d, ParseName(leaf), m, room, perClus)
    else if |leaf| > 194 then (d, None)
    else
      match MakeAlias(d, leaf, 1)
      case None => (d, None)
      case Some(raw) => PutLong(d, leaf, raw, m, room, perClus)
  }

  function PutShort(d: Slots, raw: Raw, m: Meta, room: bool, perClus: nat): (Slots, Option<nat>)
    requires perClus >= 16
  {
    FindSlotBound(d, raw, 0, None);
    match FindSlot(d, raw, 0, None)
    case Existing(p) => (Over(d, p, [DirentOf(raw, m)]), Some(p))
    case Vacant(p) => (Over(d, p, [DirentOf(raw, m)]), Some(p))
    case Full =>
      if room then (Over(d + BlankSlots(perClus), |d|, [DirentOf(raw, m)]), Some(|d|)) else (d, None)
  }

  lemma {:induction false} FindSlotBound(d: Slots, raw: Raw, i: nat, free: Option<nat>)
    requires i <= |d| && (free.Some? ==> free.value < |d|)
    ensures FindSlot(d, raw, i, free).Existing? ==> FindSlot(d, raw, i, free).pos < |d|
    ensures FindSlot(d, raw, i, free).Vacant? ==> FindSlot(d, raw, i, free).pos < |d|
    decreases |d| - i
  {
    if i < |d| {
      FindSlotBound(d, raw, i + 1, if d[i][0] == DELETED then Some(Chosen(free, i)) else free);
    }
  }

  function PutLong(d: Slots, leaf: Name, raw: Raw, m: Meta, room: bool, perClus: nat): (Slots, Option<nat>)
    requires |d| % 16 == 0 && perClus >= 16 && |leaf| <= 194
  {
    var n := LfnSlots(|leaf|);
    var r := AllocRun(d, n + 1, room, perClus);
    AllocRunBound(d, n + 1, room, perClus);
    match r.1
    case None => (r.0, None)
    case Some(p) => (Over(r.0, p, Encoded(leaf, raw, m)), Some(p + n))
  }

  lemma AllocRunBound(d: Slots, count: nat, room: bool, perClus: nat)
    requires |d| % 16 == 0 && perClus >= 16
    ensures var r := AllocRun(d, count, room, perClus);
            r.1.Some? ==> r.1.value + count <= |r.0|
  {
    PlaceBound(d, count, 0);
  }

  lemma {:induction false} PlaceBound(d: Slots, count: nat, at: nat)
    requires |d| % 16 == 0 && at % 16 == 0
    ensures var r := Place(d, count, at);
            |r.0| == |d| && (r.1.Some? ==> r.1.value + count <= |d|)
    decreases |d| - at
  {
    if at < |d| && FirstRun(d, at, at + 16, count).None? {
      PlaceBound(Blanked(d, at, at + 16), count, at + 16);
    }
  }

  // ----- What a stored entry means -----

  /** `after` reports what `before` does and one more item. */
  ghost predicate Inserted(before: seq<Item>, after: seq<Item>, it: Item) {
    exists k :: 0 <= k <= |before| && after == before[..k] + [it] + before[k..]
  }

  /** ... which answers to `leaf` and to its own short name and to nothing else; nobody
      answered to these before. */
  ghost predicate AddsOnly(before: seq<Item>, after: seq<Item>, it: Item, leaf: Name) {
    && Inserted(before, after, it)
    && (forall x :: Matches(it, x) <==> SameName(x, leaf) || SameName(x, FormatName(it.raw)))
    && (forall x :: Matches(it, x) ==> Find(before, x).None?)
  }

  /** The slots stored for the name do not look deleted: it gets a long name, or its short
      name does not begin with the deletion mark. */
  predicate Visible(leaf: Name) {
    NeedsLfn(leaf) || leaf == [] || leaf[0] != DELETED
  }

  predicate FileOrDir(attr: u8) {
    attr == 0x20 || attr == 0x10
  }

  lemma DirentShort(raw: Raw, m: Meta)
    requires FileOrDir(m.attr) && raw[0] != 0 && raw[0] != DELETED
    ensures ShortSlot(DirentOf(raw, m), raw, m.attr, m.clus, m.size)
  {
    hide Dirent, Cluster, Size;
    DirentFields(raw, m.attr, m.clus, m.size, m.date, m.time);
  }

  lemma EncodedSlots(name: Name, raw: Raw, m: Meta)
    requires LfnSlots(|name|) < 32 && FileOrDir(m.attr) && raw[0] != 0 && raw[0] != DELETED
    ensures EntrySlots(Encoded(name, raw, m), name, raw, m.attr, m.clus, m.size)
  {
    var n := LfnSlots(|name|);
    var enc := Encoded(name, raw, m);
    DirentShort(raw, m);
    hide LfnSlot, IsLfnSlot, Checksum, ShortSlot, DirentOf;
    forall k | 0 <= k < n
      ensures IsLfnSlot(enc[k], n - k, n, Checksum(raw, 11), name)
    {
      LfnSlotIs(n - k, n, Checksum(raw, 11), name);
    }
  }

  /** Filling free slots of a tidy directory with the slots of one item. */
  lemma OverAdds(d: Slots, p: nat, enc: Slots, it: Item)
    requires p + |enc| <= |d| && RunAt(d, p, |enc|) && |enc| > 0 && NoEnd(d[..p]) && Tidy(d, Idle)
    requires NoEnd(enc) && EndState(enc, Idle) == Idle && Tidy(enc, Idle) && Scan(enc, Idle, p) == [it]
    ensures Tidy(Over(d, p, enc), Idle)
    ensures Inserted(Items(d), Items(Over(d, p, enc)), it)
  {
    hide Tidy, Scan, EndState;
    var pre, mid, post := d[..p], d[p..p + |enc|], d[p + |enc|..];
    assert d == pre + mid + post;
    InsertItem(pre, mid, post, enc, it);
    var a, b := Scan(pre, Idle, 0), Scan(post, Idle, p + |enc|);
    hide Items;
    assert Items(d) == a + b && Items(Over(d, p, enc)) == a + [it] + b;
    assert (a + b)[..|a|] == a && (a + b)[|a|..] == b;
  }

  /** Names spelled alike are found alike. */
  lemma {:induction false} FindSpelling(items: seq<Item>, x: Name, y: Name)
    requires SameName(x, y)
    ensures Find(items, x) == Find(items, y)
    decreases |items|
  {
    if items != [] {
      MatchSpelling(items[0], x, y);
      FindSpelling(items[1..], x, y);
    }
  }

  lemma MatchSpelling(it: Item, x: Name, y: Name)
    requires SameName(x, y)
    ensures Matches(it, x) <==> Matches(it, y)
  {
  }

  lemma ShortAdds(before: seq<Item>, it: Item, leaf: Name)
    requires it.long == [] && FormatName(it.raw) == leaf && Find(before, leaf).None?
    ensures forall x :: Matches(it, x) <==> SameName(x, leaf) || SameName(x, FormatName(it.raw))
    ensures forall x :: Matches(it, x) ==> Find(before, x).None?
  {
    forall x | Matches(it, x)
      ensures Find(before, x).None?
    {
      FindSpelling(before, x, leaf);
    }
  }

  lemma LongAdds(before: seq<Item>, it: Item, leaf: Name)
    requires it.long == leaf && leaf != [] && Find(before, leaf).None? && Find(before, FormatName(it.raw)).None?
    ensures forall x :: Matches(it, x) <==> SameName(x, leaf) || SameName(x, FormatName(it.raw))
    ensures forall x :: Matches(it, x) ==> Find(before, x).None?
  {
    forall x | Matches(it, x)
      ensures Find(before, x).None?
    {
      if SameName(x, leaf) {
        FindSpelling(before, x, leaf);
      } else {
        FindSpelling(before, x, FormatName(it.raw));
      }
    }
  }

  /** No entry has the short name of an absent leaf. */
  lemma {:induction false} AbsentRaw(items: seq<Item>, raw: Raw)
    requires Find(items, FormatName(raw)).None?
    ensures forall it :: it in items ==> it.raw != raw
    decreases |items|
  {
    forall it | it in items
      ensures it.raw != raw
    {
      assert !Matches(it, FormatName(raw));
      assert SameName(FormatName(raw), FormatName(raw));
    }
  }

  /** Where the entry is stored, what it is stored over. */
  lemma ShortPlace(d: Slots, raw: Raw, m: Meta, room: bool, perClus: nat) returns (g: Slots)
    requires perClus >= 16 && Tidy(d, Idle) && Find(Items(d), FormatName(raw)).None?
    ensures Items(g) == Items(d) && Tidy(g, Idle) && |d| <= |g|
    ensures match PutShort(d, raw, m, room, perClus).1
            case None => !room && PutShort(d, raw, m, room, perClus).0 == d
            case Some(p) => p < |g| && RunAt(g, p, 1) && NoEnd(g[..p])
                            && PutShort(d, raw, m, room, perClus).0 == Over(g, p, [DirentOf(raw, m)])
  {
    hide Tidy, Scan, Items, DirentOf;
    AbsentRaw(Items(d), raw);
    FindsVacant(d, raw, 0, None);
    FindSlotBound(d, raw, 0, None);
    g := d;
    if FindSlot(d, raw, 0, None).Full? && room {
      GrowKeeps(d, perClus);
      g := d + BlankSlots(perClus);
      assert g[..|d|] == d && g[|d|] == BlankSlots(perClus)[0];
    }
  }

  lemma PutShortAdds(d: Slots, leaf: Name, m: Meta, room: bool, perClus: nat)
    requires |d| % 16 == 0 && perClus >= 16 && Tidy(d, Idle)
    requires IsString(leaf) && !NeedsLfn(leaf) && Visible(leaf) && Find(Items(d), leaf).None? && FileOrDir(m.attr)
    ensures var r := PutShort(d, ParseName(leaf), m, room, perClus);
            && Tidy(r.0, Idle)
            && match r.1
               case None => !room && r.0 == d
               case Some(p) => Inserted(Items(d), Items(r.0), Item(p, ParseName(leaf), [], m.attr, m.clus, m.size))
  {
    hide Tidy, Scan, Items, DirentOf, ParseName, FormatName;
    var raw := ParseName(leaf);
    RawFirst(leaf);
    var g := ShortPlace(d, raw, m, room, perClus);
    var r := PutShort(d, raw, m, room, perClus);
    if r.1.Some? {
      var p := r.1.value;
      var it := Item(p, raw, [], m.attr, m.clus, m.size);
      DirentShort(raw, m);
      ShortReadsBack(DirentOf(raw, m), raw, m.attr, m.clus, m.size, p);
      OverAdds(g, p, [DirentOf(raw, m)], it);
    }
  }

  /** A short name starts like a deleted slot exactly if the name does, and never like the
      end of the directory. */
  lemma RawFirst(leaf: Name)
    requires IsString(leaf)
    ensures ParseName(leaf)[0] != 0
    ensures ParseName(leaf)[0] == DELETED <==> leaf != [] && leaf[0] == DELETED
  {
    var s := Until(leaf, DOT, 8);
    if s != [] {
      assert ParseName(leaf)[0] == Up(s[0]) && s[0] == leaf[0];
    } else {
      assert ParseName(leaf)[0] == SPACE;
    }
  }

  lemma PutLongAdds(d: Slots, leaf: Name, raw: Raw, m: Meta, room: bool, perClus: nat)
    requires |d| % 16 == 0 && perClus >= 16 && Tidy(d, Idle)
    requires IsString(leaf) && |leaf| <= 194 && FileOrDir(m.attr) && raw[0] != 0 && raw[0] != DELETED
    ensures var r := PutLong(d, leaf, raw, m, room, perClus);
            && Tidy(r.0, Idle)
            && match r.1
               case None => !room && Items(r.0) == Items(d)
               case Some(p) => Inserted(Items(d), Items(r.0), Item(p, raw, Narrowed(leaf), m.attr, m.clus, m.size))
  {
    hide Tidy, Scan, Items, FormatName, AllocRun, Encoded, EndState, LfnSlots, RunAt, Find, Inserted, IsString,
         FileOrDir, NoEnd, Over, Narrowed;
    var n := LfnSlots(|leaf|);
    FewSlots(|leaf|);
    AllocRunTidy(d, n + 1, room, perClus);
    AllocRunBound(d, n + 1, room, perClus);
    var g := AllocRun(d, n + 1, room, perClus);
    if g.1.Some? {
      LongOver(g.0, Items(d), g.1.value, leaf, raw, m);
    }
  }

  lemma FewSlots(len: nat)
    requires len <= 194
    ensures LfnSlots(len) <= 15
  {
  }

  /** The encoded entry in its run of free slots. */
  lemma LongOver(g: Slots, before: seq<Item>, p: nat, leaf: Name, raw: Raw, m: Meta)
    requires IsString(leaf) && |leaf| <= 194 && FileOrDir(m.attr) && raw[0] != 0 && raw[0] != DELETED
    requires Tidy(g, Idle) && Items(g) == before && LfnSlots(|leaf|) <= 15
    requires RunAt(g, p, LfnSlots(|leaf|) + 1) && NoEnd(g[..p])
    ensures p + LfnSlots(|leaf|) + 1 <= |g|
    ensures var r := Over(g, p, Encoded(leaf, raw, m));
            Tidy(r, Idle)
            && Inserted(before, Items(r), Item(p + LfnSlots(|leaf|), raw, Narrowed(leaf), m.attr, m.clus, m.size))
  {
    hide Tidy, Scan, Items, DirentOf, EntrySlots, EndState, LfnSlots, Encoded, RunAt, NoEnd, IsString, Narrowed;
    var enc := Encoded(leaf, raw, m);
    EncodedReads(leaf, raw, m, p);
    RunInside(g, p, |enc|);
    OverAdds(g, p, enc, Item(p + LfnSlots(|leaf|), raw, Narrowed(leaf), m.attr, m.clus, m.size));
  }

  lemma RunInside(g: Slots, p: nat, count: nat)
    requires RunAt(g, p, count)
    ensures p + count <= |g|
  {
  }

  /** The scan reads the encoded slots as one item with the name narrowed to 7 bits. */
  lemma EncodedReads(leaf: Name, raw: Raw, m: Meta, p: nat)
    requires IsString(leaf) && |leaf| <= 194 && FileOrDir(m.attr) && raw[0] != 0 && raw[0] != DELETED
    requires LfnSlots(|leaf|) <= 15
    ensures var enc := Encoded(leaf, raw, m);
            && NoEnd(enc) && EndState(enc, Idle) == Idle && Tidy(enc, Idle)
            && Scan(enc, Idle, p) == [Item(p + LfnSlots(|leaf|), raw, Narrowed(leaf), m.attr, m.clus, m.size)]
  {
    hide Tidy, Scan, DirentOf, EntrySlots, EndState, LfnSlots, Encoded, NoEnd, Narrowed;
    var enc := Encoded(leaf, raw, m);
    EncodedSlots(leaf, raw, m);
    EntryReadsBack(enc, leaf, raw, m.attr, m.clus, m.size, p);
  }

  /** The short name an entry gets. */
  function ShortName(d: Slots, leaf: Name): Raw {
    if NeedsLfn(leaf) && MakeAlias(d, leaf, 1).Some? then MakeAlias(d, leaf, 1).value else ParseName(leaf)
  }

  /** The long name it is read back with. */
  function StoredName(leaf: Name): Name {
    if NeedsLfn(leaf) then Narrowed(leaf) else []
  }

  /** What dir_put_entry stores for `leaf` at slot `p`. */
  function NewItem(d: Slots, leaf: Name, m: Meta, p: nat): Item {
    Item(p, ShortName(d, leaf), StoredName(leaf), m.attr, m.clus, m.size)
  }

  /** Storing an absent name of any bytes in a well-formed directory: afterwards the
      directory is well-formed and reports exactly one more item, with the long name
      narrowed to 7 bits; if it fails it reports what it did before.  It fails only for
      want of space, length, or a free alias. */
  lemma PutEntryInserts(d: Slots, leaf: Name, m: Meta, room: bool, perClus: nat)
    requires |d| % 16 == 0 && perClus >= 16 && Tidy(d, Idle)
    requires IsString(leaf) && Visible(leaf) && Find(Items(d), leaf).None? && FileOrDir(m.attr)
    ensures var r := PutEntry(d, leaf, m, room, perClus);
            && Tidy(r.0, Idle)
            && match r.1
               case None => Items(r.0) == Items(d)
                            && (!room || (NeedsLfn(leaf) && (|leaf| > 194 || MakeAlias(d, leaf, 1).None?)))
               case Some(p) => Inserted(Items(d), Items(r.0), NewItem(d, leaf, m, p))
  {
    hide Tidy, Scan, Items, FormatName, ParseName, PutShort, PutLong, Inserted, NeedsLfn, Find, MakeAlias, Visible;
    if !NeedsLfn(leaf) {
      PutShortAdds(d, leaf, m, room, perClus);
    } else if |leaf| <= 194 && MakeAlias(d, leaf, 1).Some? {
      AliasFresh(d, leaf, 1);
      PutLongAdds(d, leaf, MakeAlias(d, leaf, 1).value, m, room, perClus);
    }
  }

  /** A 7-bit name becomes findable under exactly that name and its alias. */
  lemma PutEntryAdds(d: Slots, leaf: Name, m: Meta, room: bool, perClus: nat)
    requires |d| % 16 == 0 && perClus >= 16 && Tidy(d, Idle)
    requires SevenBit(leaf) && Find(Items(d), leaf).None? && FileOrDir(m.attr)
    ensures var r := PutEntry(d, leaf, m, room, perClus);
            && Tidy(r.0, Idle)
            && match r.1
               case None => Items(r.0) == Items(d)
                            && (!room || (NeedsLfn(leaf) && (|leaf| > 194 || MakeAlias(d, leaf, 1).None?)))
               case Some(p) => AddsOnly(Items(d), Items(r.0), NewItem(d, leaf, m, p), leaf)
  {
    hide Tidy, Scan, Items, ParseName, PutEntry, Inserted, Find, MakeAlias, Narrowed;
    PutEntryInserts(d, leaf, m, room, perClus);
    var r := PutEntry(d, leaf, m, room, perClus);
    if r.1.Some? {
      var it := NewItem(d, leaf, m, r.1.value);
      if NeedsLfn(leaf) {
        PutNeedsAlias(d, leaf, m, room, perClus);
        NarrowedSame(leaf);
        EmptyIsShort();
        AliasFresh(d, leaf, 1);
        LongAdds(Items(d), it, leaf);
      } else {
        ShortAdds(Items(d), it, leaf);
      }
    }
  }

  lemma PutNeedsAlias(d: Slots, leaf: Name, m: Meta, room: bool, perClus: nat)
    requires |d| % 16 == 0 && perClus >= 16 && NeedsLfn(leaf)
    ensures PutEntry(d, leaf, m, room, perClus).1.Some? ==> MakeAlias(d, leaf, 1).Some?
  {
    hide NeedsLfn, MakeAlias, PutLong;
  }

  // ----- A name that vanishes -----

  /** A slot that looks deleted in place of a free one changes nothing that is reported. */
  lemma FreeSwapped(pre: Slots, was: Slot, post: Slots, de: Slot)
    requires IsFree(was) && NoEnd(pre) && Tidy(pre + ([was] + post), Idle) && de[0] == DELETED
    ensures Tidy(pre + ([de] + post), Idle)
    ensures Scan(pre + ([de] + post), Idle, 0) == Scan(pre + ([was] + post), Idle, 0)
  {
    hide Tidy, Scan, EndState, NoEnd;
    var a, b := [was] + post, [de] + post;
    TidyAppend(pre, a, Idle);
    FreeFirst(a, EndState(pre, Idle));
    ScanFree([was], post, |pre|);
    DeletedFirst(de, post, |pre|);
    ScanAppend(pre, a, Idle, 0);
    ScanAppend(pre, b, Idle, 0);
    TidySwap(pre, a, b, Idle);
  }

  lemma OverFree(d: Slots, p: nat, de: Slot)
    requires p < |d| && IsFree(d[p]) && NoEnd(d[..p]) && Tidy(d, Idle) && de[0] == DELETED
    ensures Tidy(Over(d, p, [de]), Idle) && Items(Over(d, p, [de])) == Items(d)
  {
    assert d == d[..p] + ([d[p]] + d[p + 1..]) && Over(d, p, [de]) == d[..p] + ([de] + d[p + 1..]);
    hide Tidy, Scan, Over, NoEnd, IsFree;
    FreeSwapped(d[..p], d[p], d[p + 1..], de);
  }

  lemma FreeFirst(d: Slots, st: LfnState)
    requires Sane(st) && d != [] && IsFree(d[0]) && Tidy(d, st)
    ensures st == Idle
  {
  }

  lemma DeletedFirst(de: Slot, post: Slots, base: nat)
    requires de[0] == DELETED && Tidy(post, Idle)
    ensures Tidy([de] + post, Idle) && Scan([de] + post, Idle, base) == Scan(post, Idle, base + 1)
  {
    assert ([de] + post)[1..] == post;
  }

  /** A short name that begins with the deletion mark: success is reported as for any
      other, and the directory reports what it did before. */
  lemma PutEntryVanishes(d: Slots, leaf: Name, m: Meta, room: bool, perClus: nat)
    requires |d| % 16 == 0 && perClus >= 16 && Tidy(d, Idle)
    requires IsString(leaf) && !Visible(leaf) && Find(Items(d), leaf).None?
    ensures var r := PutEntry(d, leaf, m, room, perClus);
            Tidy(r.0, Idle) && Items(r.0) == Items(d) && (r.1.None? ==> !room && r.0 == d)
  {
    hide Tidy, Scan, Items, ParseName, DirentOf, FormatName, PutShort;
    var raw := ParseName(leaf);
    RawFirst(leaf);
    var g := ShortPlace(d, raw, m, room, perClus);
    var r := PutShort(d, raw, m, room, perClus);
    if r.1.Some? {
      DirentFirst(raw, m);
      OverFree(g, r.1.value, DirentOf(raw, m));
    }
  }

  lemma DirentFirst(raw: Raw, m: Meta)
    ensures DirentOf(raw, m)[0] == raw[0]
  {
    DirentFields(raw, m.attr, m.clus, m.size, m.date, m.time);
  }

  lemma EmptyIsShort()
    ensures !NeedsLfn([])
  {
    assert ParseName([])[..8] == seq(8, i => SPACE);
    assert ParseName([])[8] == SPACE;
  }

  /** Lookups after a stored entry, in any spelling: the new item answers to its two
      names, every other name finds what it found before. */
  lemma LookupsAfterPut(before: seq<Item>, after: seq<Item>, it: Item, leaf: Name, w: Name)
    requires AddsOnly(before, after, it, leaf)
    ensures Find(after, w) == (if SpelledAlike(w, leaf) || SpelledAlike(w, FormatName(it.raw)) then Some(it)
                               else Find(before, w))
  {
    hide FormatName;
    SpellingIs(w, leaf);
    SpellingIs(w, FormatName(it.raw));
    hide SameName, SpelledAlike;
    assert Inserted(before, after, it);
    var k :| 0 <= k <= |before| && after == before[..k] + [it] + before[k..];
    assert before == before[..k] + before[k..];
    LookupAfterPut(before[..k], it, before[k..], w);
  }
}
