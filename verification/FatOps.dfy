/** fat32_write_file, fat32_delete, fat32_mkdir and fat32_rmdir of fs/fat32.c as steps on
    the whole volume, and the proof that every run of them leaves exactly the clusters in
    use that entries reachable from the root name. */
module FatOps {
  import opened Words
  import opened FatChain
  import opened FatOwner
  import opened FatLfn
  import opened FatNaming
  import opened FatLive
  import Dir = FatDir
  import Entry = FatEntry
  import Place = FatPlace
  import Del = FatDelete
  import Tree = FatTree
  import Runs = FatRuns
  import Files = FatFiles

  // ----- Pieces of the operations -----

  /** Contents written to clusters that are free: whatever the caller's data are. */
  function Scribbled(s: Volume, junk: seq<Slots>): (r: seq<Slots>)
    ensures |r| == |s.area|
  {
    seq(|s.area|, c requires 0 <= c < |s.area| =>
      if c < |junk| && Valid(s.v.t, c) && s.v.t[c] == 0 && |junk[c]| == s.per then junk[c] else s.area[c])
  }

  function Cl(f: int): u32 {
    f % 0x1_0000_0000
  }

  /** New slots for directory `dir`, over its clusters. */
  function SetSlots(s: Volume, dir: int, d: Slots): Volume {
    s.(area := Stored(s.area, Chain(s.v.t, dir), d, s.per))
  }

  /** fat_free_chain for what an entry named. */
  function Dropped(s: Volume, e: int): Volume {
    s.(v := Files.Drop(s.v, e))
  }

  lemma DirLength(s: Volume, h: int)
    requires Shaped(s)
    ensures InArea(s.area, Chain(s.v.t, h), s.per)
    ensures |DirOf(s, h)| == Span(Chain(s.v.t, h), s.per) && |DirOf(s, h)| % s.per == 0 && |DirOf(s, h)| % 16 == 0
  {
    var q := Chain(s.v.t, h);
    PathIsNth(s.v.t, h, |s.v.t|);
    FlatLength(s.area, q, s.per);
    SpanWhole(q, s.per);
  }

  /** dir_put_entry: the directory may grow by one cluster. */
  ghost function PutItem(s: Volume, dir: int, leaf: Name, m: Entry.Meta): (r: (Volume, bool))
    requires Shaped(s)
    ensures Shaped(r.0)
  {
    DirLength(s, dir);
    var d := DirOf(s, dir);
    var r := Entry.PutEntry(d, leaf, m, Alloc(s.v).1 != 0, s.per);
    var v := if |r.0| > |d| then PutEntry(s.v, dir, Grow).0 else s.v;
    (SetSlots(s.(v := v), dir, r.0), r.1.Some?)
  }

  /** mark_deleted_with_lfn for the entry at slot `pos`. */
  ghost function Deleted(s: Volume, dir: int, pos: nat): (r: Volume)
    requires Shaped(s) && pos < |DirOf(s, dir)|
    ensures Shaped(r)
  {
    Runs.Floor(pos, s.per);
    SetSlots(s, dir, Del.Delete(DirOf(s, dir), pos, pos - pos % s.per))
  }

  /** The overwrite of an entry's start, size and times. */
  ghost function Repointed(s: Volume, dir: int, pos: nat, f: int, size: u32, date: u16, time: u16): (r: Volume)
    requires Shaped(s) && pos < |DirOf(s, dir)|
    ensures Shaped(r)
  {
    var d := DirOf(s, dir);
    SetSlots(s, dir, d[pos := Runs.Repointed(d[pos], Cl(f), size, date, time)])
  }

  // ----- The operations -----

  /** `path` are the components before the last one, `leaf` is the last, `n` the clusters
      the contents need and `junk` what they leave in the data area. */
  datatype Op =
    | Write(path: seq<Name>, leaf: Name, n: nat, size: u32, date: u16, time: u16, junk: seq<Slots>)
    | Delete(path: seq<Name>, leaf: Name)
    | MakeDir(path: seq<Name>, leaf: Name, date: u16, time: u16)
    | RemoveDir(path: seq<Name>, leaf: Name)

  lemma FoundAt(s: Volume, dir: int, leaf: Name)
    requires Lookup(s, dir, leaf).Some?
    ensures var it := Lookup(s, dir, leaf).value;
            && it in Entries(s, dir) && Dir.Matches(it, leaf) && it.pos < |DirOf(s, dir)|
            && Dir.NoEnd(DirOf(s, dir)[..it.pos]) && IsShort(DirOf(s, dir)[it.pos])
  {
    hide Dir.Scan;
    Del.Located(DirOf(s, dir), Idle, 0, Lookup(s, dir, leaf).value);
  }

  ghost function WriteFile(s: Volume, dir: int, op: Op): (r: Volume)
    requires Shaped(s) && op.Write?
    ensures Shaped(r)
  {
    var found := Lookup(s, dir, op.leaf);
    if found.Some? && Dir.IsDirItem(found.value) then s
    else
      var a := AllocMore(s.v, 0, 0, op.n);
      var b := s.(v := a.0, area := Scribbled(s, op.junk));
      match a.1
      case Full => b
      case Granted(f) => Commit(s, b, dir, op, f)
  }

  /** With the contents written to the chain from `f`: the entry is set, and then what it
      named before is freed; a new entry that does not fit gives the chain back. */
  ghost function Commit(s: Volume, b: Volume, dir: int, op: Op, f: int): (r: Volume)
    requires Shaped(b) && op.Write?
    ensures Shaped(r)
  {
    match Lookup(s, dir, op.leaf)
    case Some(it) =>
      if it.pos < |DirOf(b, dir)|
      then Dropped(Repointed(b, dir, it.pos, f, op.size, op.date, op.time), it.clus) else b
    case None =>
      var p := PutItem(b, dir, op.leaf, Entry.Meta(0x20, Cl(f), op.size, op.date, op.time));
      if p.1 then p.0 else Dropped(p.0, f)
  }

  ghost function DeleteFile(s: Volume, dir: int, leaf: Name): (r: Volume)
    requires Shaped(s)
    ensures Shaped(r)
  {
    match Lookup(s, dir, leaf)
    case None => s
    case Some(it) =>
      if Dir.IsDirItem(it) then s
      else
        FoundAt(s, dir, leaf);
        Dropped(Deleted(s, dir, it.pos), it.clus)
  }

  /** The new directory's slots go to its cluster before the entry is stored. */
  ghost function MadeDir(s: Volume, dir: int, c: int, date: u16, time: u16): (r: Volume)
    requires Shaped(s)
    ensures Shaped(s.(v := Alloc(s.v).0)) && Shaped(r)
  {
    var b := s.(v := Alloc(s.v).0);
    if 0 <= c < |s.area|
    then b.(area := s.area[c := Tree.FreshDir(Cl(c), Cl(dir), Cl(s.root), date, time, s.per)]) else b
  }

  ghost function Mkdir(s: Volume, dir: int, leaf: Name, date: u16, time: u16): (r: Volume)
    requires Shaped(s)
    ensures Shaped(r)
  {
    if (leaf != [] && leaf[0] == DOT) || Lookup(s, dir, leaf).Some? then s
    else
      var c := Alloc(s.v).1;
      if c == 0 then s.(v := Alloc(s.v).0)
      else
        var p := PutItem(MadeDir(s, dir, c, date, time), dir, leaf, Entry.Meta(0x10, Cl(c), 0, date, time));
        if p.1 then p.0 else Dropped(p.0, c)
  }

  ghost function Rmdir(s: Volume, dir: int, leaf: Name): (r: Volume)
    requires Shaped(s)
    ensures Shaped(r)
  {
    if leaf != [] && leaf[0] == DOT then s
    else
      match Lookup(s, dir, leaf)
      case None => s
      case Some(it) =>
        if !Dir.IsDirItem(it) || it.clus < 2 || !Tree.IsEmpty(DirOf(s, it.clus)) then s
        else
          FoundAt(s, dir, leaf);
          Dropped(Deleted(s, dir, it.pos), it.clus)
  }

  /** The operation in the directory the path walk has come to. */
  ghost function StepIn(s: Volume, dir: int, op: Op): (r: Volume)
    requires Shaped(s)
    ensures Shaped(r)
  {
    match op
    case Write(_, _, _, _, _, _, _) => WriteFile(s, dir, op)
    case Delete(_, leaf) => DeleteFile(s, dir, leaf)
    case MakeDir(_, leaf, date, time) => Mkdir(s, dir, leaf, date, time)
    case RemoveDir(_, leaf) => Rmdir(s, dir, leaf)
  }

  /** A path that cannot be walked, or without a last component, is refused. */
  ghost function Step(s: Volume, op: Op): (r: Volume)
    requires Shaped(s)
    ensures Shaped(r)
  {
    match Walk(s, s.root, op.path)
    case None => s
    case Some(dir) => if op.leaf == [] then s else StepIn(s, dir, op)
  }

  /** A name dir_put_entry stores so that it is seen. */
  predicate Storable(leaf: Name) {
    IsString(leaf) && Entry.Visible(leaf)
  }

  // ----- What changes which directory -----

  lemma ChainOf(v: Vol, chains: Chains, h: int)
    requires Own(v, chains) && h in chains
    ensures Chain(v.t, h) == chains[h] && IsChain(v.t, chains[h])
    ensures forall c :: c in chains[h] ==> Valid(v.t, c) && v.t[c] != 0
  {
    hide Disjoint, Owned, Fits, FreeSet, NoDup, Linked;
    assert IsChain(v.t, chains[h]) && chains[h][0] == h;
    ChainShort(v.t, chains[h]);
    forall c | c in chains[h]
      ensures Valid(v.t, c) && v.t[c] != 0
    {
      ChainUsed(v.t, chains[h], c);
    }
  }

  /** A chain whose clusters nobody wrote to is the same directory. */
  lemma DirSame(s: Volume, chains: Chains, u: Volume, more: Chains, h: int)
    requires Own(s.v, chains) && Own(u.v, more) && h in chains && h in more && more[h] == chains[h]
    requires forall c :: c in chains[h] ==> At(u.area, c) == At(s.area, c)
    ensures DirOf(u, h) == DirOf(s, h)
  {
    ChainOf(s.v, chains, h);
    ChainOf(u.v, more, h);
    FlatSame(s.area, u.area, chains[h]);
  }

  ghost predicate Untouched(s: Volume, chains: Chains, u: Volume, more: Chains, h: int) {
    h in chains && h in more && more[h] == chains[h] && forall c :: c in chains[h] ==> At(u.area, c) == At(s.area, c)
  }

  lemma KeepsOn(s: Volume, chains: Chains, names: Names, u: Volume, more: Chains)
    requires Keeps(s, chains, names) && Shaped(u) && u.per == s.per && Own(u.v, more)
    requires forall h :: h in names ==> Untouched(s, chains, u, more, h)
    ensures Keeps(u, more, names)
  {
    hide Own, Formed, Shaped;
    forall h | h in names
      ensures h in more && Holds(u, h, names[h])
    {
      assert Untouched(s, chains, u, more, h) && Holds(s, h, names[h]);
      DirSame(s, chains, u, more, h);
    }
  }

  /** Different chains have different clusters. */
  lemma Apart(v: Vol, chains: Chains, p: int, h: int)
    requires Own(v, chains) && p in chains && h in chains && h != p
    ensures forall c :: c in chains[h] ==> c !in chains[p]
  {
    hide Chained, Owned, FreeSet, Fits;
  }

  lemma Elsewhere(s: Volume, chains: Chains, p: int, h: int, d: Slots)
    requires Own(s.v, chains) && p in chains && h in chains && h != p && Chain(s.v.t, p) == chains[p]
    ensures forall c :: c in chains[h] ==> At(SetSlots(s, p, d).area, c) == At(s.area, c)
  {
    hide Own, Stored, Chain;
    Apart(s.v, chains, p, h);
  }

  lemma HeadFirst(v: Vol, chains: Chains, h: int)
    requires Own(v, chains) && h in chains
    ensures |chains[h]| > 0 && h in chains[h]
  {
    hide Disjoint, Owned, FreeSet, Fits, NoDup, Linked;
    assert chains[h][0] == h;
  }

  /** Two ways to own the same table agree on the chains they share; so the chain of `h`
      is owned only by what has `h`. */
  lemma NoOwner(v: Vol, chains: Chains, other: Chains, h: int)
    requires Own(v, chains) && h in chains && h !in other
    requires forall g :: g in other ==> g in chains
    ensures !Own(v, other)
  {
    hide Own;
    if Own(v, other) {
      ChainOf(v, chains, h);
      HeadFirst(v, chains, h);
      var g := Owner(v, other, h);
      ChainOf(v, chains, g);
      ChainOf(v, other, g);
      Apart(v, chains, g, h);
    }
  }

  lemma Owner(v: Vol, chains: Chains, c: int) returns (g: int)
    requires Own(v, chains) && Valid(v.t, c) && v.t[c] != 0
    ensures g in chains && c in chains[g]
  {
    hide Chained, Disjoint, FreeSet, Fits;
    assert HasOwner(chains, c);
    g :| g in chains && c in chains[g];
  }

  /** Rewriting the slots of one directory. */
  lemma StoreKeeps(s: Volume, chains: Chains, names: Names, p: int, d: Slots, entries: set<Dir.Item>)
    requires Shaped(s) && Own(s.v, chains) && names.Keys <= chains.Keys && p in names
    requires forall h :: h in names && h != p ==> Holds(s, h, names[h])
    requires |d| == Span(chains[p], s.per) && Formed(d, s.per)
    requires forall it :: it in entries <==> it in Dir.Items(d)
    ensures Keeps(SetSlots(s, p, d), chains, names[p := entries])
  {
    hide Formed, Shaped, IsChain, Chain, Own, DirOf, Stored, Holds;
    var u, now := SetSlots(s, p, d), names[p := entries];
    StoredDir(s, chains, p, d);
    ChainOf(s.v, chains, p);
    forall h | h in now
      ensures Holds(u, h, now[h])
    {
      if h != p {
        OtherHolds(s, chains, p, h, d, names[h]);
      } else {
        HoldsNow(u, p, d, entries);
      }
    }
  }

  lemma HoldsNow(u: Volume, p: int, d: Slots, entries: set<Dir.Item>)
    requires DirOf(u, p) == d && Formed(d, u.per) && forall it :: it in entries <==> it in Dir.Items(d)
    ensures Holds(u, p, entries)
  {
    hide Formed, DirOf, Dir.Items;
  }

  lemma StoredDir(s: Volume, chains: Chains, p: int, d: Slots)
    requires Shaped(s) && Own(s.v, chains) && p in chains && |d| == Span(chains[p], s.per)
    ensures var u := SetSlots(s, p, d);
            DirOf(u, p) == d && Shaped(u) && u.v == s.v && u.per == s.per && u.root == s.root
  {
    hide Own;
    ChainOf(s.v, chains, p);
    DirLength(s, p);
    StoredFlat(s.area, chains[p], d, s.per);
  }

  lemma OtherHolds(s: Volume, chains: Chains, p: int, h: int, d: Slots, entries: set<Dir.Item>)
    requires Own(s.v, chains) && p in chains && h in chains && h != p && Chain(s.v.t, p) == chains[p]
    requires Holds(s, h, entries)
    ensures Holds(SetSlots(s, p, d), h, entries)
  {
    hide Own, Holds, Chain, Stored, DirOf, At;
    var u := SetSlots(s, p, d);
    Elsewhere(s, chains, p, h, d);
    DirSame(s, chains, u, chains, h);
    HoldsSame(s, u, h, entries);
  }

  lemma HoldsSame(s: Volume, u: Volume, h: int, entries: set<Dir.Item>)
    requires Holds(s, h, entries) && DirOf(u, h) == DirOf(s, h) && u.per == s.per
    ensures Holds(u, h, entries)
  {
    hide Formed, DirOf, Dir.Items;
  }

  lemma HeldAt(s: Volume, chains: Chains, names: Names, p: int)
    requires Keeps(s, chains, names) && p in names
    ensures p in chains && Chain(s.v.t, p) == chains[p] && Formed(DirOf(s, p), s.per)
    ensures forall it :: it in names[p] <==> it in Entries(s, p)
    ensures |DirOf(s, p)| == Span(chains[p], s.per) && |DirOf(s, p)| % 16 == 0 && |DirOf(s, p)| % s.per == 0
  {
    hide Own, Formed;
    ChainOf(s.v, chains, p);
    DirLength(s, p);
    assert Holds(s, p, names[p]);
  }

  // ----- Contents on free clusters, chains freed -----

  /** Writing to free clusters changes no directory. */
  lemma ScribbleKeeps(s: Volume, chains: Chains, names: Names, u: Volume, more: Chains, junk: seq<Slots>)
    requires Keeps(s, chains, names) && Own(u.v, more) && |u.v.t| == |s.v.t|
    requires u == s.(v := u.v, area := Scribbled(s, junk))
    requires forall h :: h in chains ==> h in more && more[h] == chains[h]
    ensures Keeps(u, more, names)
  {
    hide Own, AllHold;
    assert Shaped(u);
    forall h | h in names
      ensures Untouched(s, chains, u, more, h)
    {
      ChainOf(s.v, chains, h);
    }
    hide Shaped, Scribbled;
    KeepsOn(s, chains, names, u, more);
  }

  function Freed(chains: Chains, e: int): Chains {
    chains - {e}
  }

  lemma FreedKeys(chains: Chains, e: int)
    ensures Freed(chains, e).Keys == chains.Keys - {e}
  {
  }

  /** Freeing what is no directory changes none. */
  lemma DropKeepsDirs(s: Volume, chains: Chains, names: Names, e: int)
    requires Keeps(s, chains, names) && e !in names && (e < 2 || e in chains)
    ensures Keeps(Dropped(s, e), Freed(chains, e), names)
  {
    hide Own, AllHold, Files.Drop;
    Files.DropKeeps(s.v, chains, e);
    var u, less := Dropped(s, e), Freed(chains, e);
    assert less == chains - {e};
    DropSize(s.v, e);
    forall h | h in names
      ensures Untouched(s, chains, u, less, h)
    {
    }
    KeepsOn(s, chains, names, u, less);
  }

  lemma DropSize(v: Vol, e: int)
    ensures |Files.Drop(v, e).t| == |v.t|
  {
  }

  /** Fewer directories to look at. */
  lemma KeepsGone(s: Volume, chains: Chains, names: Names, p: int, it: Dir.Item)
    requires p in names && Keeps(s, chains, Less(names, p, it)) && p != it.clus
    ensures Keeps(s, chains, Gone(names, p, it)) && it.clus !in Gone(names, p, it)
  {
    hide Own, Shaped, Holds;
    var less, gone := Less(names, p, it), Gone(names, p, it);
    forall h | h in gone
      ensures h in chains && Holds(s, h, gone[h])
    {
      assert h in less && gone[h] == less[h];
    }
  }

  // ----- Storing an entry -----

  lemma {:induction false} AliasLetters(name: Name, n: nat)
    requires n <= 9
    ensures Entry.AliasRaw(name, n)[0] != DOT
  {
    var dot := Entry.LastDot(name);
    var letters := Truncated(Entry.Letters(if dot < 0 then name else name[..dot]), 6);
    var stem := if letters == [] then [0x5F] else letters;
    assert Entry.AliasRaw(name, n)[0] == stem[0];
  }

  lemma {:induction false} MadeAlias(d: Slots, name: Name, n: nat)
    requires 1 <= n <= 10
    ensures Entry.MakeAlias(d, name, n).Some? ==> Entry.MakeAlias(d, name, n).value[0] != DOT
    decreases 10 - n
  {
    hide Entry.AliasRaw, FormatName, Dir.Items, Dir.Find;
    if n < 10 {
      AliasLetters(name, n);
      MadeAlias(d, name, n + 1);
    }
  }

  /** A stored name never passes for "." or "..". */
  lemma NoDotStored(d: Slots, leaf: Name)
    ensures Entry.ShortName(d, leaf)[0] != DOT
         && !Tree.DotRaw(Entry.ShortName(d, leaf)) && !Tree.Dot(Entry.ShortName(d, leaf))
  {
    hide Entry.MakeAlias, NeedsLfn;
    MadeAlias(d, leaf, 1);
    var s := Until(leaf, DOT, 8);
    if s != [] {
      assert ParseName(leaf)[0] == Up(s[0]) && s[0] == leaf[0] != DOT;
    } else {
      assert ParseName(leaf)[0] == SPACE;
    }
  }

  lemma PutLength(d: Slots, leaf: Name, m: Entry.Meta, room: bool, per: nat)
    requires |d| % 16 == 0 && per >= 16
    ensures var r := Entry.PutEntry(d, leaf, m, room, per);
            (|r.0| == |d| || (room && |r.0| == |d| + per)) && (r.1.None? ==> |r.0| == |d|)
  {
    hide Entry.MakeAlias, NeedsLfn, ParseName, Place.FindSlot, Entry.DirentOf, LfnSlots;
  }

  /** What `before` and one more entry are together. */
  lemma AddedSet(before: seq<Dir.Item>, after: seq<Dir.Item>, it: Dir.Item, entries: set<Dir.Item>)
    requires Entry.Inserted(before, after, it) && forall x :: x in entries <==> x in before
    ensures forall x :: x in entries + {it} <==> x in after
  {
    var k :| 0 <= k <= |before| && after == before[..k] + [it] + before[k..];
    assert before == before[..k] + before[k..];
    forall x
      ensures x in after <==> x in before || x == it
    {
      assert x in after <==> x in before[..k] || x == it || x in before[k..];
    }
  }

  /** The chains are the same but that of `p`, which may have got one more cluster. */
  ghost predicate Wide(v: Vol, chains: Chains, more: Chains, p: int) {
    && more.Keys == chains.Keys && (forall h :: h in chains && h != p ==> more[h] == chains[h])
    && (p in chains ==> more[p] == chains[p] || (Alloc(v).1 != 0 && more[p] == chains[p] + [Alloc(v).1]))
  }

  /** The volume a stored entry needs: the directory has grown if it had to. */
  lemma GrownOwn(s: Volume, chains: Chains, p: int, d: Slots, d1: Slots) returns (more: Chains)
    requires Shaped(s) && Own(s.v, chains) && p in chains && |d| == Span(chains[p], s.per)
    requires |d1| == |d| || (Alloc(s.v).1 != 0 && |d1| == |d| + s.per)
    ensures var v := if |d1| > |d| then PutEntry(s.v, p, Grow).0 else s.v;
            && Own(v, more) && |v.t| == |s.v.t| && more.Keys == chains.Keys && |d1| == Span(more[p], s.per)
            && Wide(s.v, chains, more, p) && (|d1| == |d| ==> more == chains)
  {
    hide Own, Alloc, PutEntry;
    more := chains;
    if |d1| > |d| {
      more := Files.PutKeeps(s.v, chains, p, Grow);
      SpanMore(chains[p], Alloc(s.v).1, s.per);
    }
  }

  /** dir_put_entry on a volume in order: one more entry, or nothing has changed. */
  lemma PutItemKeeps(s: Volume, chains: Chains, names: Names, p: int, leaf: Name, m: Entry.Meta)
    returns (more: Chains, it: Dir.Item)
    requires Keeps(s, chains, names) && p in names
    requires Storable(leaf) && Lookup(s, p, leaf).None? && Entry.FileOrDir(m.attr)
    ensures var r := PutItem(s, p, leaf, m);
            && r.0.root == s.root && Wide(s.v, chains, more, p)
            && if r.1
               then Keeps(r.0, more, Added(names, p, it)) && it !in names[p]
                    && it == Entry.NewItem(DirOf(s, p), leaf, m, it.pos)
                    && it.clus == m.clus && it.attr == m.attr && !Dot(it) && !Tree.Hidden(it.raw)
               else more == chains && r.0.v == s.v && Keeps(r.0, chains, names)
  {
    hide Own, Dir.Items, Dir.Tidy, Runs.Near, Entry.PutEntry, Entry.Inserted, Chain, Entry.Visible, Entry.FileOrDir,
         Dir.Find;
    HeldAt(s, chains, names, p);
    var d, room := DirOf(s, p), Alloc(s.v).1 != 0;
    Entry.PutEntryInserts(d, leaf, m, room, s.per);
    Runs.PutNear(d, leaf, m, room, s.per);
    PutLength(d, leaf, m, room, s.per);
    hide Alloc, PutEntry, DirOf;
    var r := Entry.PutEntry(d, leaf, m, room, s.per);
    more := GrownOwn(s, chains, p, d, r.0);
    var v := if |r.0| > |d| then PutEntry(s.v, p, Grow).0 else s.v;
    it := Entry.NewItem(d, leaf, m, if r.1.Some? then r.1.value else 0);
    if r.1.Some? {
      NoDotStored(d, leaf);
      AddedSet(Dir.Items(d), Dir.Items(r.0), it, names[p]);
      NewEntry(d, r.0, it);
      PutStored(s, chains, names, p, v, more, r.0, names[p] + {it});
    } else {
      PutStored(s, chains, names, p, v, more, r.0, names[p]);
      assert names[p := names[p]] == names;
    }
  }

  /** The new entry is not one of the old: it is at a place of its own. */
  lemma NewEntry(d: Slots, e: Slots, it: Dir.Item)
    requires Entry.Inserted(Dir.Items(d), Dir.Items(e), it)
    ensures it !in Dir.Items(d)
  {
    hide Dir.Items;
    var before, after := Dir.Items(d), Dir.Items(e);
    var k :| 0 <= k <= |before| && after == before[..k] + [it] + before[k..];
    if it in before {
      var j :| 0 <= j < |before| && before[j] == it;
      var i := if j < k then j else j + 1;
      assert after[i] == before[j] && after[k] == it;
      Distinct(e, i, k);
    }
  }

  lemma PutStored(s: Volume, chains: Chains, names: Names, p: int, v: Vol, more: Chains, d: Slots,
                  entries: set<Dir.Item>)
    requires Keeps(s, chains, names) && p in names && Own(v, more) && |v.t| == |s.v.t| && Wide(s.v, chains, more, p)
    requires |d| == Span(more[p], s.per) && Formed(d, s.per) && forall it :: it in entries <==> it in Dir.Items(d)
    ensures Keeps(SetSlots(s.(v := v), p, d), more, names[p := entries])
  {
    hide Own, Formed, Dir.Items, Holds, SetSlots, DirOf;
    var u := s.(v := v);
    forall h | h in names && h != p
      ensures Holds(u, h, names[h])
    {
      assert Holds(s, h, names[h]);
      DirSame(s, chains, u, more, h);
      HoldsSame(s, u, h, names[h]);
    }
    StoreKeeps(u, more, names, p, d, entries);
  }

  // ----- Overwriting and deleting an entry -----

  /** No two entries of a directory are the same item. */
  lemma Distinct(d: Slots, j: nat, k: nat)
    requires j < |Dir.Items(d)| && k < |Dir.Items(d)| && j != k
    ensures Dir.Items(d)[j] != Dir.Items(d)[k]
  {
    hide Dir.Scan;
    Del.PositionsApart(d, Idle, 0, if j < k then j else k, if j < k then k else j);
  }

  lemma UpdatedSet(d: Slots, after: seq<Dir.Item>, k: nat, it: Dir.Item, entries: set<Dir.Item>)
    requires k < |Dir.Items(d)| && after == Dir.Items(d)[k := it] && forall x :: x in entries <==> x in Dir.Items(d)
    ensures forall x :: x in entries - {Dir.Items(d)[k]} + {it} <==> x in after
  {
    hide Dir.Items;
    var before := Dir.Items(d);
    forall x
      ensures x in after <==> (x in before && x != before[k]) || x == it
    {
      if x in after && x != it {
        var j :| 0 <= j < |after| && after[j] == x;
        Distinct(d, j, k);
      }
      if x in before && x != before[k] {
        var j :| 0 <= j < |before| && before[j] == x;
        assert after[j] == x;
      }
      assert after[k] == it;
    }
  }

  lemma RemovedSet(d: Slots, after: seq<Dir.Item>, k: nat, entries: set<Dir.Item>)
    requires k < |Dir.Items(d)| && after == Dir.Items(d)[..k] + Dir.Items(d)[k + 1..]
    requires forall x :: x in entries <==> x in Dir.Items(d)
    ensures forall x :: x in entries - {Dir.Items(d)[k]} <==> x in after
  {
    hide Dir.Items;
    var before := Dir.Items(d);
    forall x
      ensures x in after <==> x in before && x != before[k]
    {
      if x in after {
        var j :| 0 <= j < |after| && after[j] == x;
        var i := if j < k then j else j + 1;
        assert before[i] == x;
        Distinct(d, i, k);
      }
      if x in before && x != before[k] {
        var j :| 0 <= j < |before| && before[j] == x;
        assert after[if j < k then j else j - 1] == x;
      }
    }
  }

  /** The slots of the overwritten entry. */
  lemma RepointKeeps(s: Volume, chains: Chains, names: Names, p: int, it: Dir.Item, f: int, size: u32, date: u16,
                     time: u16)
    requires Keeps(s, chains, names) && p in names && it in Entries(s, p)
    ensures it.pos < |DirOf(s, p)|
    ensures Keeps(Repointed(s, p, it.pos, f, size, date, time), chains,
                  Redirected(names, p, it, it.(clus := Cl(f), size := size)))
  {
    hide Own, Dir.Items, Dir.Tidy, Runs.Near, Chain, Runs.Repointed, Dir.Scan, DirOf, Holds;
    HeldAt(s, chains, names, p);
    var d := DirOf(s, p);
    EntryAt(d, it);
    var k := Runs.RepointItems(d, it.pos, Cl(f), size, date, time, s.per);
    SamePlace(d, it, k);
    var e := d[it.pos := Runs.Repointed(d[it.pos], Cl(f), size, date, time)];
    UpdatedSet(d, Dir.Items(e), k, it.(clus := Cl(f), size := size), names[p]);
    PutStored(s, chains, names, p, s.v, chains, e, names[p] - {it} + {it.(clus := Cl(f), size := size)});
  }

  lemma EntryAt(d: Slots, it: Dir.Item)
    requires it in Dir.Items(d)
    ensures it.pos < |d| && Dir.NoEnd(d[..it.pos]) && IsShort(d[it.pos])
  {
    hide Dir.Scan;
    Del.Located(d, Idle, 0, it);
  }

  /** The item at a position is the item of that position. */
  lemma SamePlace(d: Slots, it: Dir.Item, k: nat)
    requires it in Dir.Items(d) && k < |Dir.Items(d)| && Dir.Items(d)[k].pos == it.pos
    ensures Dir.Items(d)[k] == it
  {
    hide Dir.Scan;
    var j :| 0 <= j < |Dir.Items(d)| && Dir.Items(d)[j] == it;
    if j < k {
      Del.PositionsApart(d, Idle, 0, j, k);
    } else if k < j {
      Del.PositionsApart(d, Idle, 0, k, j);
    }
  }

  /** The deleted entry is gone, and nothing else. */
  lemma DeletedKeeps(s: Volume, chains: Chains, names: Names, p: int, it: Dir.Item)
    requires Keeps(s, chains, names) && p in names && it in Entries(s, p)
    ensures it.pos < |DirOf(s, p)|
    ensures Keeps(Deleted(s, p, it.pos), chains, Less(names, p, it))
  {
    hide Own, Dir.Items, Dir.Tidy, Runs.Near, Chain, Dir.Scan, DirOf, Holds, Del.Delete, Del.GroupStart;
    HeldAt(s, chains, names, p);
    var d := DirOf(s, p);
    EntryAt(d, it);
    Runs.Floor(it.pos, s.per);
    var lo := it.pos - it.pos % s.per;
    Runs.NearGroup(d, it.pos, s.per);
    var k := Del.DeleteRemoves(d, it.pos, lo);
    SamePlace(d, it, k);
    Runs.DeleteNear(d, it.pos, s.per);
    RemovedSet(d, Dir.Items(Del.Delete(d, it.pos, lo)), k, names[p]);
    PutStored(s, chains, names, p, s.v, chains, Del.Delete(d, it.pos, lo), names[p] - {it});
  }

  // ----- Each operation -----

  lemma EntryIs(s: Volume, chains: Chains, names: Names, rank: map<int, nat>, p: int, it: Dir.Item)
    requires Good(s, chains, names, rank) && p in names && it in Entries(s, p)
    ensures it in names[p] && EntryOk(names, chains.Keys, rank, p, it)
  {
    hide Own, Formed, NamedOnce, AllNamed, EntryOk, Shaped;
    InEntries(s, names, p, it);
  }

  /** A found file: its chain is live, or it has none. */
  lemma FoundFile(s: Volume, chains: Chains, names: Names, rank: map<int, nat>, p: int, leaf: Name)
    requires Good(s, chains, names, rank) && p in names && Lookup(s, p, leaf).Some?
    requires !Dir.IsDirItem(Lookup(s, p, leaf).value)
    ensures var it := Lookup(s, p, leaf).value;
            && it in Entries(s, p) && it in names[p] && !Dot(it)
            && (it.clus < 2 || it.clus in chains) && it.clus !in names
  {
    hide Keeps, Dir.Find, Entries;
    FoundIn(s, p, leaf);
    var it := Lookup(s, p, leaf).value;
    EntryIs(s, chains, names, rank, p, it);
  }

  lemma FoundIn(s: Volume, p: int, leaf: Name)
    requires Lookup(s, p, leaf).Some?
    ensures Lookup(s, p, leaf).value in Entries(s, p) && Dir.Matches(Lookup(s, p, leaf).value, leaf)
  {
  }

  /** The start of a chain is a cluster number. */
  lemma HeadFits(v: Vol, chains: Chains, h: int)
    requires Own(v, chains) && h in chains
    ensures Valid(v.t, h) && 2 <= h < 0x1_0000_0000 && Cl(h) == h
  {
    hide Disjoint, Owned, FreeSet, Chained;
    ChainOf(v, chains, h);
    HeadFirst(v, chains, h);
  }

  lemma WellKeptBy(s: Volume, chains: Chains, names: Names, rank: map<int, nat>)
    requires Good(s, chains, names, rank) && Proper(names, s.root)
    ensures WellKept(s)
  {
    hide Good, Proper;
  }

  lemma KeptWell(s: Volume, chains: Chains, names: Names, rank: map<int, nat>)
    requires KeptAs(s, chains, names, rank)
    ensures WellKept(s)
  {
    hide Good, Proper;
  }

  lemma GoodShaped(s: Volume, chains: Chains, names: Names, rank: map<int, nat>)
    requires Good(s, chains, names, rank)
    ensures Shaped(s) && Keeps(s, chains, names) && TreeOk(names, s.root, chains.Keys, rank)
  {
    hide Own, TreeOk, AllHold;
  }

  lemma KeptBy(s: Volume, chains: Chains, names: Names, rank: map<int, nat>)
    requires Keeps(s, chains, names) && TreeOk(names, s.root, chains.Keys, rank) && Proper(names, s.root)
    ensures WellKept(s)
  {
    GoodBy(s, chains, names, rank);
    WellKeptBy(s, chains, names, rank);
  }

  lemma GoodBy(s: Volume, chains: Chains, names: Names, rank: map<int, nat>)
    requires Keeps(s, chains, names) && TreeOk(names, s.root, chains.Keys, rank)
    ensures Good(s, chains, names, rank)
  {
    hide Keeps, TreeOk;
  }

  lemma DeleteFileKeeps(s: Volume, chains: Chains, names: Names, rank: map<int, nat>, p: int, leaf: Name)
    requires Good(s, chains, names, rank) && Proper(names, s.root) && p in names
    ensures Shaped(s) && WellKept(DeleteFile(s, p, leaf))
  {
    hide Less, Freed, Good, Proper, WellKept, KeptAs, Keeps, TreeOk, Lookup, DirOf, Shaped, Dot, Dropped, Deleted,
         Entries;
    GoodShaped(s, chains, names, rank);
    var found := Lookup(s, p, leaf);
    if found.Some? && !Dir.IsDirItem(found.value) {
      FileDeleted(s, chains, names, rank, p, leaf);
      hide DeleteFile;
      KeptWell(DeleteFile(s, p, leaf), Freed(chains, found.value.clus), Less(names, p, found.value), rank);
    } else {
      WellKeptBy(s, chains, names, rank);
    }
  }

  /** A found file: entry and chain are gone. */
  lemma FileDeleted(s: Volume, chains: Chains, names: Names, rank: map<int, nat>, p: int, leaf: Name)
    requires Good(s, chains, names, rank) && Proper(names, s.root) && p in names
    requires Lookup(s, p, leaf).Some? && !Dir.IsDirItem(Lookup(s, p, leaf).value)
    ensures Shaped(s)
    ensures var it := Lookup(s, p, leaf).value;
            KeptAs(DeleteFile(s, p, leaf), Freed(chains, it.clus), Less(names, p, it), rank)
  {
    hide Less, Freed, Good, Proper, KeptAs, Keeps, TreeOk, Lookup, DirOf, Shaped, Dot, Dropped, Deleted, Entries;
    FoundFile(s, chains, names, rank, p, leaf);
    TakenOut(s, chains, names, rank, p, Lookup(s, p, leaf).value);
  }

  lemma TakenOut(s: Volume, chains: Chains, names: Names, rank: map<int, nat>, p: int, it: Dir.Item)
    requires Good(s, chains, names, rank) && Proper(names, s.root) && p in names && it in names[p]
    requires it in Entries(s, p)
    requires !Dot(it) && !Dir.IsDirItem(it) && (it.clus < 2 || it.clus in chains) && it.clus !in names
    ensures Shaped(s) && it.pos < |DirOf(s, p)|
    ensures KeptAs(Dropped(Deleted(s, p, it.pos), it.clus), Freed(chains, it.clus), Less(names, p, it), rank)
  {
    hide Less, Freed, Good, Proper, Keeps, TreeOk, DirOf, Shaped, Dot, Dropped, Entries;
    GoodShaped(s, chains, names, rank);
    DeletedKeeps(s, chains, names, p, it);
    var u := Deleted(s, p, it.pos);
    assert u.root == s.root;
    hide Deleted;
    RemovedFile(s, u, chains, names, rank, p, it);
    ProperLess(names, s.root, p, it);
    RootSame(u, it.clus);
  }

  /** The entry is gone from the disk; now its chain goes. */
  lemma RemovedFile(s: Volume, u: Volume, chains: Chains, names: Names, rank: map<int, nat>, p: int, it: Dir.Item)
    requires Good(s, chains, names, rank) && p in names && it in names[p] && u.root == s.root
    requires !Dot(it) && !Dir.IsDirItem(it) && (it.clus < 2 || it.clus in chains) && it.clus !in names
    requires Keeps(u, chains, Less(names, p, it))
    ensures Good(Dropped(u, it.clus), Freed(chains, it.clus), Less(names, p, it), rank)
  {
    hide Good, Keeps, TreeOk, DirOf, Shaped, Dot, Less, Freed;
    GoodShaped(s, chains, names, rank);
    LessKeys(names, p, it);
    DropKeepsDirs(u, chains, Less(names, p, it), it.clus);
    RemoveFile(names, s.root, chains.Keys, rank, p, it);
    FreedKeys(chains, it.clus);
    GoodBy(Dropped(u, it.clus), Freed(chains, it.clus), Less(names, p, it), rank);
  }

  lemma LessKeys(names: Names, p: int, it: Dir.Item)
    requires p in names
    ensures Less(names, p, it).Keys == names.Keys
  {
  }

  // ----- rmdir -----

  /** The names "." and ".." begin with a dot. */
  lemma DotNames(it: Dir.Item, leaf: Name)
    requires Dot(it) && it.long == [] && Dir.Matches(it, leaf)
    ensures leaf != [] && leaf[0] == DOT
  {
    var w := FormatName(it.raw);
    assert Until(it.raw[..8], SPACE, 8) == [DOT] + Until(it.raw[..8][1..], SPACE, 7);
    assert w[0] == DOT;
    assert SameName(leaf, w);
    assert Up(leaf[0]) == DOT;
  }

  /** A directory found under a name without a leading dot is a live one below. */
  lemma FoundDir(s: Volume, chains: Chains, names: Names, rank: map<int, nat>, p: int, leaf: Name)
    requires Good(s, chains, names, rank) && p in names && Lookup(s, p, leaf).Some?
    requires Dir.IsDirItem(Lookup(s, p, leaf).value) && !(leaf != [] && leaf[0] == DOT)
    ensures var it := Lookup(s, p, leaf).value;
            it in Entries(s, p) && it in names[p] && !Dot(it) && it.clus in names && it.clus >= 2
  {
    hide Keeps, Dir.Find, Entries, Dir.Matches, Tree.Dot;
    FoundIn(s, p, leaf);
    var it := Lookup(s, p, leaf).value;
    EntryIs(s, chains, names, rank, p, it);
    if Dot(it) {
      DotNames(it, leaf);
    }
  }

  /** What passes the emptiness test holds only "." and "..". */
  lemma EmptyIsDots(s: Volume, chains: Chains, names: Names, x: int)
    requires Keeps(s, chains, names) && Proper(names, s.root) && x in names && Tree.IsEmpty(DirOf(s, x))
    ensures forall jt :: jt in names[x] ==> Dot(jt)
  {
    hide Own, Formed, Tree.IsEmpty, Dir.Scan;
    assert Holds(s, x, names[x]);
    Tree.EmptyMeansDotted(DirOf(s, x), Idle, 0);
    forall jt | jt in names[x]
      ensures Dot(jt)
    {
      assert jt in Dir.Scan(DirOf(s, x), Idle, 0);
      assert !Tree.Hidden(jt.raw);
    }
  }

  lemma RmdirKeeps(s: Volume, chains: Chains, names: Names, rank: map<int, nat>, p: int, leaf: Name)
    requires Good(s, chains, names, rank) && Proper(names, s.root) && p in names
    ensures Shaped(s) && WellKept(Rmdir(s, p, leaf))
  {
    hide Less, Gone, Freed, Good, Proper, WellKept, KeptAs, Keeps, TreeOk, Lookup, DirOf, Shaped, Dot, Dropped,
         Deleted, Entries, Tree.IsEmpty;
    GoodShaped(s, chains, names, rank);
    var found := Lookup(s, p, leaf);
    if !(leaf != [] && leaf[0] == DOT) && found.Some? && Dir.IsDirItem(found.value) {
      FoundDir(s, chains, names, rank, p, leaf);
      if Tree.IsEmpty(DirOf(s, found.value.clus)) {
        DirDeleted(s, chains, names, rank, p, leaf);
        hide Rmdir;
        KeptWell(Rmdir(s, p, leaf), Freed(chains, found.value.clus), Gone(names, p, found.value),
                 rank - {found.value.clus});
      } else {
        WellKeptBy(s, chains, names, rank);
      }
    } else {
      WellKeptBy(s, chains, names, rank);
    }
  }

  lemma RmdirIs(s: Volume, p: int, leaf: Name)
    requires Shaped(s) && !(leaf != [] && leaf[0] == DOT) && Lookup(s, p, leaf).Some?
    requires var it := Lookup(s, p, leaf).value; Dir.IsDirItem(it) && it.clus >= 2 && Tree.IsEmpty(DirOf(s, it.clus))
    ensures var it := Lookup(s, p, leaf).value;
            it.pos < |DirOf(s, p)| && Rmdir(s, p, leaf) == Dropped(Deleted(s, p, it.pos), it.clus)
  {
    hide Dropped, Deleted, Tree.IsEmpty, DirOf, Lookup, Shaped;
    FoundAt(s, p, leaf);
  }

  /** A found directory that passes the test: its entry and its chain are gone. */
  lemma DirDeleted(s: Volume, chains: Chains, names: Names, rank: map<int, nat>, p: int, leaf: Name)
    requires Good(s, chains, names, rank) && Proper(names, s.root) && p in names && !(leaf != [] && leaf[0] == DOT)
    requires Lookup(s, p, leaf).Some? && Dir.IsDirItem(Lookup(s, p, leaf).value)
    requires Tree.IsEmpty(DirOf(s, Lookup(s, p, leaf).value.clus))
    ensures Shaped(s)
    ensures var it := Lookup(s, p, leaf).value;
            && it.clus in names && (forall jt :: jt in names[it.clus] ==> Dot(jt))
            && KeptAs(Rmdir(s, p, leaf), Freed(chains, it.clus), Gone(names, p, it), rank - {it.clus})
  {
    hide Less, Gone, Freed, Good, Proper, KeptAs, Keeps, TreeOk, Lookup, DirOf, Shaped, Dot, Dropped, Deleted,
         Entries, Tree.IsEmpty;
    GoodShaped(s, chains, names, rank);
    FoundDir(s, chains, names, rank, p, leaf);
    EmptyIsDots(s, chains, names, Lookup(s, p, leaf).value.clus);
    RmdirIs(s, p, leaf);
    hide Rmdir;
    DirTakenOut(s, chains, names, rank, p, Lookup(s, p, leaf).value);
  }

  lemma DirTakenOut(s: Volume, chains: Chains, names: Names, rank: map<int, nat>, p: int, it: Dir.Item)
    requires Good(s, chains, names, rank) && Proper(names, s.root) && p in names && it in names[p]
    requires it in Entries(s, p)
    requires !Dot(it) && Dir.IsDirItem(it) && it.clus in names && forall jt :: jt in names[it.clus] ==> Dot(jt)
    ensures Shaped(s) && it.pos < |DirOf(s, p)|
    ensures KeptAs(Dropped(Deleted(s, p, it.pos), it.clus), Freed(chains, it.clus), Gone(names, p, it),
                   rank - {it.clus})
  {
    hide Less, Gone, Freed, Good, Proper, Keeps, TreeOk, DirOf, Shaped, Dot, Dropped, Entries;
    GoodShaped(s, chains, names, rank);
    DeletedKeeps(s, chains, names, p, it);
    var u := Deleted(s, p, it.pos);
    assert u.root == s.root;
    hide Deleted;
    RemovedDir(s, u, chains, names, rank, p, it);
    ProperGone(names, s.root, p, it);
    RootSame(u, it.clus);
  }

  lemma RemovedDir(s: Volume, u: Volume, chains: Chains, names: Names, rank: map<int, nat>, p: int, it: Dir.Item)
    requires Good(s, chains, names, rank) && p in names && it in names[p] && u.root == s.root
    requires !Dot(it) && Dir.IsDirItem(it) && it.clus in names
    requires forall jt :: jt in names[it.clus] ==> Dot(jt) || jt.clus < 2
    requires Keeps(u, chains, Less(names, p, it))
    ensures Good(Dropped(u, it.clus), Freed(chains, it.clus), Gone(names, p, it), rank - {it.clus})
  {
    hide Good, Keeps, TreeOk, DirOf, Shaped, Dot, Less, Gone, Freed;
    GoodShaped(s, chains, names, rank);
    InChains(s, chains, names, it.clus);
    RemoveSubdir(names, s.root, chains.Keys, rank, p, it);
    KeepsGone(u, chains, names, p, it);
    DropKeepsDirs(u, chains, Gone(names, p, it), it.clus);
    FreedKeys(chains, it.clus);
    GoodBy(Dropped(u, it.clus), Freed(chains, it.clus), Gone(names, p, it), rank - {it.clus});
  }

  lemma InChains(s: Volume, chains: Chains, names: Names, x: int)
    requires Keeps(s, chains, names) && x in names
    ensures x in chains
  {
  }

  // ----- mkdir -----

  /** "." and ".." of directory `c` below `dir`, as they are listed. */
  function TwoDots(c: int, dir: int, root: int): set<Dir.Item> {
    {Dir.Item(0, Tree.DOT_RAW, [], 0x10, c, 0), Dir.Item(1, Tree.DOTDOT_RAW, [], 0x10, UpTo(dir, root), 0)}
  }

  /** The slots of a fresh directory. */
  lemma FreshSlots(c: u32, dir: u32, root: u32, date: u16, time: u16, per: nat) returns (dots: set<Dir.Item>)
    requires per >= 16
    ensures var d := Tree.FreshDir(c, dir, root, date, time, per);
            && |d| == per && Formed(d, per) && OnlyDots(dots) && DotsOf(dots, c, dir, root)
            && dots == TwoDots(c, dir, root)
            && forall it :: it in dots <==> it in Dir.Items(d)
  {
    hide Dir.Tidy, Dir.Scan, Tree.IsEmpty;
    Tree.FreshDirIsEmpty(c, dir, root, date, time, per);
    var d := Tree.FreshDir(c, dir, root, date, time, per);
    FreshNear(c, dir, root, date, time, per);
    hide Dir.Items, Runs.Near, Tree.FreshDir;
    var items := Dir.Items(d);
    dots := {items[0], items[1]};
  }

  lemma FreshNear(c: u32, dir: u32, root: u32, date: u16, time: u16, per: nat)
    requires per >= 16
    ensures |Tree.FreshDir(c, dir, root, date, time, per)| == per
    ensures Runs.Near(Tree.FreshDir(c, dir, root, date, time, per), per)
  {
    hide Entry.DirentOf, Dir.EndState, Dir.ShortSlot;
    var up: u32 := if dir == root then 0 else dir;
    var m0, m1 := Entry.Meta(0x10, c, 0, date, time), Entry.Meta(0x10, up, 0, date, time);
    var a, b, z := Entry.DirentOf(Tree.DOT_RAW, m0), Entry.DirentOf(Tree.DOTDOT_RAW, m1), Place.BlankSlots(per - 2);
    var d := Tree.FreshDir(c, dir, root, date, time, per);
    Entry.DirentShort(Tree.DOT_RAW, m0);
    Entry.DirentShort(Tree.DOTDOT_RAW, m1);
    Dir.ShortReadsBack(a, Tree.DOT_RAW, 0x10, c, 0, 0);
    Dir.ShortReadsBack(b, Tree.DOTDOT_RAW, 0x10, up, 0, 1);
    assert d == [a] + ([b] + z);
    Dir.EndAppend([a], [b] + z, Idle);
    Dir.EndAppend([b], z, Idle);
    Runs.FreeEnd(z);
    Dir.EndStateNone(Idle);
    forall i: nat | i % per == 0
      ensures Runs.Closed(d, i)
    {
      if i <= per {
        FirstBorders(i, per);
        assert d[..0] == [] && d[..|d|] == d;
      }
    }
  }

  lemma FirstBorders(i: nat, per: nat)
    requires per > 0 && i % per == 0 && i <= per
    ensures i == 0 || i == per
  {
  }

  function Alone(chains: Chains, c: int): Chains {
    chains[c := [c]]
  }

  /** A new directory, and its entry. */
  lemma MadeKeeps(s: Volume, chains: Chains, names: Names, p: int, date: u16, time: u16) returns (dots: set<Dir.Item>)
    requires Keeps(s, chains, names) && p in names && s.root in chains && Alloc(s.v).1 != 0
    ensures var c := Alloc(s.v).1;
            && c !in chains && c !in names && c >= 2 && Cl(c) == c && OnlyDots(dots) && DotsOf(dots, c, p, s.root)
            && dots == TwoDots(c, p, s.root)
            && Keeps(MadeDir(s, p, c, date, time), Alone(chains, c), Wider(names, c, dots))
  {
    hide Own, Alloc, AllHold, Tree.FreshDir, Formed, Chain;
    var a := Alloc(s.v);
    var c := a.1;
    AllocKeeps(s.v, chains);
    var more := Alone(chains, c);
    HeadFits(a.0, more, c);
    HeadFits(s.v, chains, p);
    HeadFits(s.v, chains, s.root);
    dots := FreshSlots(Cl(c), Cl(p), Cl(s.root), date, time, s.per);
    var u := MadeDir(s, p, c, date, time);
    forall h | h in names
      ensures Untouched(s, chains, u, more, h)
    {
      ChainOf(s.v, chains, h);
    }
    KeepsOn(s, chains, names, u, more);
    ChainOf(a.0, more, c);
    OneCluster(u.area, c);
    NewDirHolds(u, more, names, c, dots);
  }

  lemma OneCluster(area: seq<Slots>, c: int)
    ensures Flat(area, [c]) == At(area, c)
  {
    assert [c][1..] == [];
    assert Flat(area, [c]) == At(area, c) + [];
  }

  lemma NewDirHolds(u: Volume, chains: Chains, names: Names, c: int, dots: set<Dir.Item>)
    requires Keeps(u, chains, names) && c in chains
    requires Formed(DirOf(u, c), u.per) && forall it :: it in dots <==> it in Entries(u, c)
    ensures Keeps(u, chains, Wider(names, c, dots))
  {
    hide Own, Shaped, Formed, Entries, DirOf;
    var more := Wider(names, c, dots);
    forall h | h in more
      ensures Holds(u, h, more[h])
    {
      assert h != c ==> Holds(u, h, names[h]);
    }
  }

  lemma LookupSame(s: Volume, u: Volume, p: int, leaf: Name)
    requires DirOf(u, p) == DirOf(s, p)
    ensures Lookup(u, p, leaf) == Lookup(s, p, leaf)
  {
  }

  /** Two volumes that hold the same directory look the same there. */
  lemma SameDir(s: Volume, chains: Chains, names: Names, u: Volume, more: Chains, p: int)
    requires Keeps(s, chains, names) && Own(u.v, more) && p in names && Untouched(s, chains, u, more, p)
    ensures DirOf(u, p) == DirOf(s, p)
  {
    hide Own, AllHold;
    DirSame(s, chains, u, more, p);
  }

  lemma MkdirKeeps(s: Volume, chains: Chains, names: Names, rank: map<int, nat>, p: int, leaf: Name, date: u16,
                   time: u16)
    requires Good(s, chains, names, rank) && Proper(names, s.root) && p in names
    requires Lookup(s, p, leaf).None? ==> Storable(leaf)
    ensures Shaped(s) && WellKept(Mkdir(s, p, leaf, date, time))
  {
    hide Good, Proper, WellKept, Keeps, TreeOk, Lookup, DirOf, Shaped, Dot, Dropped, Entries, MadeDir, PutItem,
         Storable, Alloc;
    GoodShaped(s, chains, names, rank);
    if (leaf != [] && leaf[0] == DOT) || Lookup(s, p, leaf).Some? {
      WellKeptBy(s, chains, names, rank);
    } else if Alloc(s.v).1 == 0 {
      NothingFree(s, chains, names);
      WellKeptBy(s, chains, names, rank);
    } else {
      var more, it, dots := DirMade(s, chains, names, rank, p, leaf, date, time);
      hide KeptAs, Deeper, Wider, Added, Wide, Entry.NewItem, Alone, Cl;
      var c := Alloc(s.v).1;
      var r := PutItem(MadeDir(s, p, c, date, time), p, leaf, Entry.Meta(0x10, Cl(c), 0, date, time));
      if r.1 {
        KeptWell(r.0, more, Wider(Added(names, p, it), c, dots), Deeper(rank, c, Depth(rank, p)));
      } else {
        KeptWell(Dropped(r.0, c), chains, names, rank);
      }
    }
  }

  lemma NothingFree(s: Volume, chains: Chains, names: Names)
    requires Keeps(s, chains, names) && Alloc(s.v).1 == 0
    ensures s.(v := Alloc(s.v).0) == s
  {
    hide Own, AllHold, Shaped, Alloc;
    AllocKeeps(s.v, chains);
  }

  /** The new directory has its cluster and its entry, or neither. */
  lemma DirMade(s: Volume, chains: Chains, names: Names, rank: map<int, nat>, p: int, leaf: Name, date: u16, time: u16)
    returns (more: Chains, it: Dir.Item, dots: set<Dir.Item>)
    requires Good(s, chains, names, rank) && Proper(names, s.root) && p in names && Lookup(s, p, leaf).None?
    requires Storable(leaf)
    requires Alloc(s.v).1 != 0 && Shaped(s)
    ensures var c := Alloc(s.v).1;
            var b, m := MadeDir(s, p, c, date, time), Entry.Meta(0x10, Cl(c), 0, date, time);
            var r := PutItem(b, p, leaf, m);
            && c !in chains && c !in names && c >= 2 && Cl(c) == c && OnlyDots(dots) && DotsOf(dots, c, p, s.root)
            && dots == TwoDots(c, p, s.root)
            && if r.1
               then it == Entry.NewItem(DirOf(s, p), leaf, m, it.pos) && Wide(b.v, Alone(chains, c), more, p)
                    && it !in names[p]
                    && KeptAs(r.0, more, Wider(Added(names, p, it), c, dots), Deeper(rank, c, Depth(rank, p)))
               else KeptAs(Dropped(r.0, c), chains, names, rank)
  {
    GoodShaped(s, chains, names, rank);
    var c := Alloc(s.v).1;
    MadeSame(s, chains, names, p, date, time);
    hide Good, Proper, KeptAs, Keeps, TreeOk, DirOf, Shaped, Dot, Dropped, Entries, MadeDir, PutItem, Storable,
         Alloc, Cl, Lookup, Added, Freed, Wider, Alone, Wide, Deeper, Entry.NewItem;
    dots := MadeKeeps(s, chains, names, p, date, time);
    var b, m := MadeDir(s, p, c, date, time), Entry.Meta(0x10, Cl(c), 0, date, time);
    LookupSame(s, b, p, leaf);
    more, it := MadePut(s, b, chains, names, rank, p, leaf, m, dots);
  }

  /** The new directory is on the disk; now its entry. */
  lemma MadePut(s: Volume, b: Volume, chains: Chains, names: Names, rank: map<int, nat>, p: int, leaf: Name,
                m: Entry.Meta, dots: set<Dir.Item>) returns (more: Chains, it: Dir.Item)
    requires Good(s, chains, names, rank) && Proper(names, s.root) && p in names && b.root == s.root && OnlyDots(dots)
    requires DotsOf(dots, m.clus, p, s.root)
    requires Keeps(b, Alone(chains, m.clus), Wider(names, m.clus, dots)) && Shaped(b)
    requires Lookup(b, p, leaf).None? && Storable(leaf) && m.attr == 0x10
    requires m.clus !in chains && m.clus !in names && m.clus >= 2
    ensures var r := PutItem(b, p, leaf, m);
            if r.1
            then it == Entry.NewItem(DirOf(b, p), leaf, m, it.pos) && Wide(b.v, Alone(chains, m.clus), more, p)
                 && it !in names[p]
                 && KeptAs(r.0, more, Wider(Added(names, p, it), m.clus, dots), Deeper(rank, m.clus, Depth(rank, p)))
            else KeptAs(Dropped(r.0, m.clus), chains, names, rank)
  {
    hide Good, Proper, KeptAs, Keeps, TreeOk, Shaped, Dot, Dropped, PutItem, Storable, Lookup, Added, Wider, Alone,
         Entry.NewItem, DirOf, Wide;
    more, it := PutItemKeeps(b, Alone(chains, m.clus), Wider(names, m.clus, dots), p, leaf, m);
    WiderThere(names, m.clus, dots, p);
    WideKeys(b.v, Alone(chains, m.clus), more, p);
    var r := PutItem(b, p, leaf, m);
    if r.1 {
      EntryMade(s, r.0, chains, more, names, rank, p, it, dots);
    } else {
      NotMade(s, r.0, chains, names, rank, m.clus, dots);
    }
  }

  lemma WiderThere(names: Names, c: int, dots: set<Dir.Item>, p: int)
    requires p in names && p != c
    ensures Wider(names, c, dots)[p] == names[p]
  {
  }

  lemma WideKeys(v: Vol, chains: Chains, more: Chains, p: int)
    requires Wide(v, chains, more, p)
    ensures more.Keys == chains.Keys
  {
  }

  function Depth(rank: map<int, nat>, p: int): nat {
    if p in rank then rank[p] else 0
  }

  lemma DepthIs(s: Volume, chains: Chains, names: Names, rank: map<int, nat>, p: int)
    requires Good(s, chains, names, rank) && p in names
    ensures p in rank && Depth(rank, p) == rank[p]
  {
  }

  lemma EntryMade(s: Volume, u: Volume, chains: Chains, more: Chains, names: Names, rank: map<int, nat>, p: int,
                  it: Dir.Item, dots: set<Dir.Item>)
    requires Good(s, chains, names, rank) && Proper(names, s.root) && p in names && u.root == s.root
    requires it.clus !in chains && it.clus !in names && it.clus >= 2 && !Dot(it) && !Tree.Hidden(it.raw)
    requires Dir.IsDirItem(it)
    requires OnlyDots(dots) && DotsOf(dots, it.clus, p, s.root) && p in Wider(names, it.clus, dots)
    requires Keeps(u, more, Added(Wider(names, it.clus, dots), p, it))
    requires more.Keys == Alone(chains, it.clus).Keys
    ensures KeptAs(u, more, Wider(Added(names, p, it), it.clus, dots), Deeper(rank, it.clus, Depth(rank, p)))
  {
    hide Good, Proper, Keeps, TreeOk, Dot, Added, Wider, Deeper, Alone;
    GoodShaped(s, chains, names, rank);
    var c := it.clus;
    AddDir(names, s.root, chains.Keys, rank, p, it, dots);
    AddedDots(names, p, it, c, dots);
    ProperDir(names, s.root, chains.Keys, rank, p, it, dots);
    MoreKeys(chains, c);
    DepthIs(s, chains, names, rank, p);
    GoodBy(u, more, Wider(Added(names, p, it), c, dots), Deeper(rank, c, Depth(rank, p)));
  }

  lemma MoreKeys(chains: Chains, c: int)
    ensures Alone(chains, c).Keys == chains.Keys + {c}
  {
  }

  lemma AddedDots(names: Names, p: int, it: Dir.Item, c: int, dots: set<Dir.Item>)
    requires p in names && p != c
    ensures Added(Wider(names, c, dots), p, it) == Wider(Added(names, p, it), c, dots)
  {
  }

  /** The entry was refused: the new directory goes. */
  lemma NotMade(s: Volume, u: Volume, chains: Chains, names: Names, rank: map<int, nat>, c: int, dots: set<Dir.Item>)
    requires Good(s, chains, names, rank) && Proper(names, s.root) && u.root == s.root
    requires Keeps(u, Alone(chains, c), Wider(names, c, dots)) && c !in chains && c !in names
    ensures KeptAs(Dropped(u, c), chains, names, rank)
  {
    hide Proper, Keeps, TreeOk;
    NewDirDropped(u, chains, names, c, dots);
    GoodBy(Dropped(u, c), chains, names, rank);
    RootSame(u, c);
  }

  lemma WithoutNew(u: Volume, chains: Chains, names: Names, c: int, dots: set<Dir.Item>)
    requires Keeps(u, chains, Wider(names, c, dots)) && c !in names
    ensures Keeps(u, chains, names)
  {
    hide Own, Shaped, Holds;
    forall h | h in names
      ensures h in chains && Holds(u, h, names[h])
    {
      assert h in Wider(names, c, dots) && Wider(names, c, dots)[h] == names[h];
    }
  }

  lemma NewDirDropped(u: Volume, chains: Chains, names: Names, c: int, dots: set<Dir.Item>)
    requires Keeps(u, Alone(chains, c), Wider(names, c, dots)) && c !in chains && c !in names
    ensures Keeps(Dropped(u, c), chains, names)
  {
    hide Own, Shaped, Holds, Dropped;
    var all := Alone(chains, c);
    WithoutNew(u, all, names, c, dots);
    DropKeepsDirs(u, all, names, c);
    assert Freed(all, c) == chains;
  }

  lemma MadeSame(s: Volume, chains: Chains, names: Names, p: int, date: u16, time: u16)
    requires Keeps(s, chains, names) && p in names && Alloc(s.v).1 != 0
    ensures var u := MadeDir(s, p, Alloc(s.v).1, date, time);
            DirOf(u, p) == DirOf(s, p) && u.root == s.root
  {
    hide Own, Alloc, AllHold, Tree.FreshDir, Formed, Chain, DirOf;
    AllocKeeps(s.v, chains);
    var c := Alloc(s.v).1;
    var u, more := MadeDir(s, p, c, date, time), Alone(chains, c);
    ChainOf(s.v, chains, p);
    SameDir(s, chains, names, u, more, p);
  }

  // ----- Writing a file -----

  /** The chain `r` from `f` of new contents, apart from the live ones. */
  ghost predicate Fresh(chains: Chains, r: seq<int>, f: int) {
    && f == First(r) && With(chains, r).Keys == Plus(chains.Keys, f) && Cl(f) == f
    && (f < 2 || f !in chains) && (r != [] ==> r[0] !in chains && r[0] != 0)
  }

  /** What the allocation loop leaves: a chain of its own, or nothing. */
  lemma NewChain(v: Vol, chains: Chains, n: nat) returns (r: seq<int>, all: Chains)
    requires Own(v, chains)
    ensures var a := AllocMore(v, 0, 0, n);
            && |a.0.t| == |v.t| && Own(a.0, all) && (forall h :: h in chains ==> h in all && all[h] == chains[h])
            && all == With(chains, r) && (a.1.Full? ==> all == chains)
            && (a.1.Granted? ==> |r| == n && Fresh(chains, r, a.1.first) && OnlyTook(v.t, a.0.t, r))
            && (a.1.Full? ==> a.0.t == v.t && a.0.freeCount == v.freeCount)
  {
    hide Own, AllocMore;
    r := Files.AllocOwns(v, chains, n);
    var a := AllocMore(v, 0, 0, n);
    if a.1.Full? {
      r := [];
    } else if r != [] {
      HeadFits(a.0, With(chains, r), r[0]);
    }
    all := With(chains, r);
  }

  /** The volume with the contents written, and no entry for them yet. */
  function Written(s: Volume, op: Op): Volume
    requires op.Write?
  {
    s.(v := AllocMore(s.v, 0, 0, op.n).0, area := Scribbled(s, op.junk))
  }

  /** No directory has changed; the chain `r` of the contents is one more. */
  ghost predicate Begins(s: Volume, chains: Chains, names: Names, dir: int, op: Op, r: seq<int>, f: int)
    requires op.Write?
  {
    var b := Written(s, op);
    && Shaped(b) && b.root == s.root && b.per == s.per && DirOf(b, dir) == DirOf(s, dir)
    && Keeps(b, With(chains, r), names)
    && |r| == op.n && Fresh(chains, r, f) && OnlyTook(s.v.t, b.v.t, r)
  }

  /** There was no room, and nothing has changed but what free clusters hold. */
  ghost predicate NoRoom(s: Volume, chains: Chains, names: Names, rank: map<int, nat>, op: Op)
    requires op.Write?
  {
    Shaped(Written(s, op)) && Good(Written(s, op), chains, names, rank) && Written(s, op).v.t == s.v.t
  }

  lemma Begun(s: Volume, chains: Chains, names: Names, rank: map<int, nat>, dir: int, op: Op) returns (r: seq<int>)
    requires Good(s, chains, names, rank) && op.Write? && dir in names
    ensures var a := AllocMore(s.v, 0, 0, op.n).1;
            && (a.Full? ==> NoRoom(s, chains, names, rank, op))
            && (a.Granted? ==> Begins(s, chains, names, dir, op, r, a.first))
  {
    hide Good, Keeps, TreeOk, Shaped, Own, AllocMore, With, Fresh, OnlyTook, Begins, NoRoom, Scribbled;
    GoodShaped(s, chains, names, rank);
    KeepsOwn(s, chains, names);
    var all;
    r, all := NewChain(s.v, chains, op.n);
    WrittenKeeps(s, chains, names, all, dir, op);
    var a := AllocMore(s.v, 0, 0, op.n).1;
    if a.Full? {
      RefusedBy(s, chains, names, rank, op);
    } else {
      BeginsBy(s, chains, names, dir, op, r, a.first);
    }
  }

  lemma WrittenKeeps(s: Volume, chains: Chains, names: Names, all: Chains, dir: int, op: Op)
    requires Keeps(s, chains, names) && op.Write? && dir in names && Own(Written(s, op).v, all)
    requires |Written(s, op).v.t| == |s.v.t| && forall h :: h in chains ==> h in all && all[h] == chains[h]
    ensures Keeps(Written(s, op), all, names) && DirOf(Written(s, op), dir) == DirOf(s, dir)
  {
    hide Shaped, Own, AllocMore, DirOf, AllHold;
    var b := Written(s, op);
    ScribbleKeeps(s, chains, names, b, all, op.junk);
    ScribbleSame(s, chains, names, b, all, op.junk, dir);
  }

  lemma BeginsBy(s: Volume, chains: Chains, names: Names, dir: int, op: Op, r: seq<int>, f: int)
    requires op.Write? && Keeps(Written(s, op), With(chains, r), names) && DirOf(Written(s, op), dir) == DirOf(s, dir)
    requires |r| == op.n && Fresh(chains, r, f) && OnlyTook(s.v.t, Written(s, op).v.t, r)
    ensures Begins(s, chains, names, dir, op, r, f)
  {
    hide Keeps, Shaped, AllocMore, With, Scribbled, Fresh, OnlyTook, DirOf;
    KeepsOwn(Written(s, op), With(chains, r), names);
  }

  lemma RefusedBy(s: Volume, chains: Chains, names: Names, rank: map<int, nat>, op: Op)
    requires Good(s, chains, names, rank) && op.Write? && Keeps(Written(s, op), chains, names)
    requires Written(s, op).v.t == s.v.t
    ensures NoRoom(s, chains, names, rank, op)
  {
    hide Good, Keeps, TreeOk, Shaped, AllocMore, Scribbled;
    GoodShaped(s, chains, names, rank);
    KeepsOwn(Written(s, op), chains, names);
    GoodBy(Written(s, op), chains, names, rank);
  }

  lemma WriteFileIs(s: Volume, dir: int, op: Op)
    requires Shaped(s) && op.Write? && Shaped(Written(s, op))
    ensures var found, a := Lookup(s, dir, op.leaf), AllocMore(s.v, 0, 0, op.n);
            WriteFile(s, dir, op) ==
            if found.Some? && Dir.IsDirItem(found.value) then s
            else if a.1.Full? then Written(s, op)
            else Commit(s, Written(s, op), dir, op, a.1.first)
  {
    hide Lookup, AllocMore, Shaped, Scribbled, Commit;
  }

  lemma WriteFileKeeps(s: Volume, chains: Chains, names: Names, rank: map<int, nat>, dir: int, op: Op)
    requires Good(s, chains, names, rank) && Proper(names, s.root) && op.Write? && dir in names
    requires Lookup(s, dir, op.leaf).None? ==> Storable(op.leaf)
    ensures Shaped(s) && WellKept(WriteFile(s, dir, op))
  {
    hide Good, Proper, WellKept, Keeps, TreeOk, Lookup, Shaped, AllocMore, Storable, Commit, Begins, NoRoom,
         WriteFile, DirOf, Own;
    GoodShaped(s, chains, names, rank);
    var r := Begun(s, chains, names, rank, dir, op);
    var found, a := Lookup(s, dir, op.leaf), AllocMore(s.v, 0, 0, op.n).1;
    if found.Some? && Dir.IsDirItem(found.value) {
      DirNotWritten(s, dir, op);
      WellKeptBy(s, chains, names, rank);
    } else if a.Full? {
      WrittenFull(s, chains, names, rank, dir, op);
    } else {
      WrittenOn(s, chains, names, rank, dir, op, r, a.first);
    }
  }

  lemma DirNotWritten(s: Volume, dir: int, op: Op)
    requires Shaped(s) && op.Write? && Lookup(s, dir, op.leaf).Some? && Dir.IsDirItem(Lookup(s, dir, op.leaf).value)
    ensures WriteFile(s, dir, op) == s
  {
    hide Lookup, AllocMore, Shaped, Scribbled, Commit;
  }

  lemma WrittenFull(s: Volume, chains: Chains, names: Names, rank: map<int, nat>, dir: int, op: Op)
    requires Shaped(s) && op.Write? && NoRoom(s, chains, names, rank, op) && Proper(names, s.root)
    requires AllocMore(s.v, 0, 0, op.n).1.Full?
    requires Lookup(s, dir, op.leaf).Some? ==> !Dir.IsDirItem(Lookup(s, dir, op.leaf).value)
    ensures WellKept(WriteFile(s, dir, op))
  {
    hide Good, Proper, WellKept, Shaped, AllocMore, Lookup, Commit;
    assert NoRoom(s, chains, names, rank, op);
    WriteFileIs(s, dir, op);
    WellKeptBy(Written(s, op), chains, names, rank);
  }

  lemma WrittenOn(s: Volume, chains: Chains, names: Names, rank: map<int, nat>, dir: int, op: Op, r: seq<int>, f: int)
    requires Good(s, chains, names, rank) && Proper(names, s.root) && op.Write? && dir in names && Shaped(s)
    requires Begins(s, chains, names, dir, op, r, f) && AllocMore(s.v, 0, 0, op.n).1 == Granted(f)
    requires var found := Lookup(s, dir, op.leaf);
             if found.Some? then !Dir.IsDirItem(found.value) else Storable(op.leaf)
    ensures WellKept(WriteFile(s, dir, op))
  {
    hide Good, Proper, WellKept, Keeps, TreeOk, Lookup, Shaped, AllocMore, Storable, Commit, DirOf, Fresh, With,
         OnlyTook, WriteFile, Written;
    assert Begins(s, chains, names, dir, op, r, f);
    WriteFileIs(s, dir, op);
    Committed(s, Written(s, op), chains, names, rank, dir, op, r, f);
  }

  lemma KeepsOwn(s: Volume, chains: Chains, names: Names)
    requires Keeps(s, chains, names)
    ensures Own(s.v, chains) && Shaped(s)
  {
    hide Own, Shaped, AllHold;
  }

  lemma ScribbleSame(s: Volume, chains: Chains, names: Names, u: Volume, more: Chains, junk: seq<Slots>, p: int)
    requires Keeps(s, chains, names) && Own(u.v, more) && u.area == Scribbled(s, junk) && p in names
    requires p in chains ==> p in more && more[p] == chains[p]
    ensures DirOf(u, p) == DirOf(s, p)
  {
    hide Own, AllHold, Chain;
    ChainOf(s.v, chains, p);
    SameDir(s, chains, names, u, more, p);
  }

  lemma Committed(s: Volume, b: Volume, chains: Chains, names: Names, rank: map<int, nat>, dir: int, op: Op,
                  r: seq<int>, f: int)
    requires Good(s, chains, names, rank) && Proper(names, s.root) && op.Write? && dir in names && b.root == s.root
    requires Keeps(b, With(chains, r), names) && Shaped(b) && DirOf(b, dir) == DirOf(s, dir) && Fresh(chains, r, f)
    requires var found := Lookup(s, dir, op.leaf);
             if found.Some? then !Dir.IsDirItem(found.value) else Storable(op.leaf)
    ensures WellKept(Commit(s, b, dir, op, f))
  {
    hide Good, Proper, WellKept, KeptAs, Keeps, TreeOk, Lookup, Shaped, With, Storable, Fresh, Commit, DirOf, Stored;
    if Lookup(s, dir, op.leaf).Some? {
      var it := Lookup(s, dir, op.leaf).value;
      CommitOver(s, b, chains, names, rank, dir, op, r, f);
      KeptWell(Commit(s, b, dir, op, f), Freed(With(chains, r), it.clus),
               Redirected(names, dir, it, it.(clus := Cl(f), size := op.size)), rank);
    } else {
      var more, it := CommitNew(s, b, chains, names, rank, dir, op, r, f);
      if StoresNew(b, dir, op, f) {
        KeptWell(Commit(s, b, dir, op, f), more, Added(names, dir, it), rank);
      } else {
        KeptWell(Commit(s, b, dir, op, f), chains, names, rank);
      }
    }
  }

  lemma CommitOver(s: Volume, b: Volume, chains: Chains, names: Names, rank: map<int, nat>, dir: int, op: Op,
                   r: seq<int>, f: int)
    requires Good(s, chains, names, rank) && Proper(names, s.root) && op.Write? && dir in names && b.root == s.root
    requires Keeps(b, With(chains, r), names) && Shaped(b) && DirOf(b, dir) == DirOf(s, dir) && Fresh(chains, r, f)
    requires Lookup(s, dir, op.leaf).Some? && !Dir.IsDirItem(Lookup(s, dir, op.leaf).value)
    ensures var it := Lookup(s, dir, op.leaf).value;
            && it in names[dir]
            && KeptAs(Commit(s, b, dir, op, f), Freed(With(chains, r), it.clus),
                      Redirected(names, dir, it, it.(clus := Cl(f), size := op.size)), rank)
  {
    hide Good, Proper, KeptAs, Freed, Redirected, Keeps, TreeOk, Lookup, Shaped, With, Storable, Fresh, Cl, Repointed,
         Dropped, PutItem, DirOf, Entries;
    FoundFile(s, chains, names, rank, dir, op.leaf);
    SameEntries(s, b, dir);
    Overwritten(s, b, chains, names, rank, dir, Lookup(s, dir, op.leaf).value, r, f, op.size, op.date, op.time);
  }

  function NewFile(op: Op, f: int): Entry.Meta
    requires op.Write?
  {
    Entry.Meta(0x20, Cl(f), op.size, op.date, op.time)
  }

  /** The entry of a new file has been stored. */
  ghost predicate StoresNew(b: Volume, dir: int, op: Op, f: int)
    requires op.Write? && Shaped(b)
  {
    PutItem(b, dir, op.leaf, NewFile(op, f)).1
  }

  lemma CommitNew(s: Volume, b: Volume, chains: Chains, names: Names, rank: map<int, nat>, dir: int, op: Op,
                  r: seq<int>, f: int) returns (more: Chains, it: Dir.Item)
    requires Good(s, chains, names, rank) && Proper(names, s.root) && op.Write? && dir in names && b.root == s.root
    requires Keeps(b, With(chains, r), names) && Shaped(b) && DirOf(b, dir) == DirOf(s, dir) && Fresh(chains, r, f)
    requires Lookup(s, dir, op.leaf).None? && Storable(op.leaf)
    ensures var u := Commit(s, b, dir, op, f);
            if StoresNew(b, dir, op, f)
            then it == Entry.NewItem(DirOf(s, dir), op.leaf, NewFile(op, f), it.pos) && it !in names[dir]
                 && Wide(b.v, With(chains, r), more, dir) && KeptAs(u, more, Added(names, dir, it), rank)
            else KeptAs(u, chains, names, rank)
  {
    hide Good, Proper, KeptAs, Keeps, TreeOk, Lookup, Shaped, With, Storable, Fresh, Cl, Repointed, Dropped,
         PutItem, DirOf, Entries, Added, Entry.NewItem, Wide;
    LookupSame(s, b, dir, op.leaf);
    FreshHead(chains, r, f);
    CommitIs(s, b, dir, op, f);
    hide Commit;
    more, it := FileStored(s, b, chains, names, rank, dir, op.leaf, r, f, NewFile(op, f));
  }

  lemma CommitIs(s: Volume, b: Volume, dir: int, op: Op, f: int)
    requires op.Write? && Shaped(b) && Lookup(s, dir, op.leaf).None?
    ensures var p := PutItem(b, dir, op.leaf, NewFile(op, f));
            Commit(s, b, dir, op, f) == if p.1 then p.0 else Dropped(p.0, f)
  {
    hide PutItem, Dropped, Shaped, Lookup;
  }

  lemma FreshHead(chains: Chains, r: seq<int>, f: int)
    requires Fresh(chains, r, f)
    ensures Cl(f) == f
  {
  }

  lemma SameEntries(s: Volume, b: Volume, p: int)
    requires DirOf(b, p) == DirOf(s, p)
    ensures Entries(b, p) == Entries(s, p)
  {
  }

  lemma Overwritten(s: Volume, b: Volume, chains: Chains, names: Names, rank: map<int, nat>, p: int, it: Dir.Item,
                    r: seq<int>, f: int, size: u32, date: u16, time: u16)
    requires Good(s, chains, names, rank) && Proper(names, s.root) && p in names && b.root == s.root
    requires Keeps(b, With(chains, r), names) && Shaped(b) && it in names[p] && it in Entries(b, p)
    requires Fresh(chains, r, f)
    requires !Dot(it) && !Dir.IsDirItem(it) && (it.clus < 2 || it.clus in chains) && it.clus !in names
    ensures it.pos < |DirOf(b, p)|
    ensures KeptAs(Dropped(Repointed(b, p, it.pos, f, size, date, time), it.clus), Freed(With(chains, r), it.clus),
                   Redirected(names, p, it, it.(clus := Cl(f), size := size)), rank)
  {
    hide Good, Proper, KeptAs, Freed, Keeps, TreeOk, Shaped, With, Cl, Dropped, DirOf, Entries, Redirected, Dot, Fresh;
    RepointKeeps(b, With(chains, r), names, p, it, f, size, date, time);
    var u := Repointed(b, p, it.pos, f, size, date, time);
    assert u.root == s.root;
    hide Repointed;
    OldDropped(s, u, chains, names, rank, p, it, it.(clus := Cl(f), size := size), r, f);
  }

  /** The entry names the new chain; now the old one goes. */
  lemma OldDropped(s: Volume, u: Volume, chains: Chains, names: Names, rank: map<int, nat>, p: int, it: Dir.Item,
                   jt: Dir.Item, r: seq<int>, f: int)
    requires Good(s, chains, names, rank) && Proper(names, s.root) && p in names && it in names[p] && u.root == s.root
    requires Keeps(u, With(chains, r), Redirected(names, p, it, jt)) && Fresh(chains, r, f)
    requires jt == it.(clus := Cl(f), size := jt.size)
    requires !Dot(it) && !Dir.IsDirItem(it) && (it.clus < 2 || it.clus in chains) && it.clus !in names
    ensures KeptAs(Dropped(u, it.clus), Freed(With(chains, r), it.clus), Redirected(names, p, it, jt), rank)
  {
    hide Good, Proper, Keeps, TreeOk, Shaped, With, Cl, Dropped, DirOf, Entries, Redirected, Freed, Dot;
    GoodShaped(s, chains, names, rank);
    var all := With(chains, r);
    SameRaw(it, jt);
    Redirect(names, s.root, chains.Keys, rank, p, it, jt);
    RedirectedKeys(names, p, it, jt);
    InPlus(chains.Keys, f, it.clus);
    ProperRedirected(names, s.root, chains.Keys, rank, p, it, jt);
    hide Plus;
    DropKeepsDirs(u, all, Redirected(names, p, it, jt), it.clus);
    FreedKeys(all, it.clus);
    hide Fresh;
    RootSame(u, it.clus);
    GoodBy(Dropped(u, it.clus), Freed(all, it.clus), Redirected(names, p, it, jt), rank);
  }

  lemma SameRaw(it: Dir.Item, jt: Dir.Item)
    requires jt == it.(clus := jt.clus, size := jt.size)
    ensures jt.raw == it.raw && jt.attr == it.attr
  {
  }

  lemma InPlus(heads: set<int>, f: int, e: int)
    ensures e in heads ==> e in Plus(heads, f)
  {
  }

  lemma RedirectedKeys(names: Names, p: int, it: Dir.Item, jt: Dir.Item)
    requires p in names
    ensures Redirected(names, p, it, jt).Keys == names.Keys
  {
  }

  lemma FileStored(s: Volume, b: Volume, chains: Chains, names: Names, rank: map<int, nat>, p: int, leaf: Name,
                   r: seq<int>, f: int, m: Entry.Meta) returns (more: Chains, it: Dir.Item)
    requires Good(s, chains, names, rank) && Proper(names, s.root) && p in names && b.root == s.root
    requires Keeps(b, With(chains, r), names) && Shaped(b) && Lookup(b, p, leaf).None? && Storable(leaf)
    requires Fresh(chains, r, f) && m.clus == f && m.attr == 0x20
    ensures var q := PutItem(b, p, leaf, m);
            if q.1
            then it == Entry.NewItem(DirOf(b, p), leaf, m, it.pos) && Wide(b.v, With(chains, r), more, p)
                 && it !in names[p] && KeptAs(q.0, more, Added(names, p, it), rank)
            else KeptAs(Dropped(q.0, f), chains, names, rank)
  {
    hide Good, Proper, KeptAs, Keeps, TreeOk, Shaped, Dot, Dropped, PutItem, Storable, Lookup, Added, With, Fresh,
         Entry.NewItem, DirOf;
    more, it := PutItemKeeps(b, With(chains, r), names, p, leaf, m);
    var q := PutItem(b, p, leaf, m);
    if q.1 {
      FileNamed(s, q.0, chains, more, names, rank, p, it, r, f);
    } else {
      FileRefused(s, q.0, chains, names, rank, r, f);
    }
  }

  lemma FileNamed(s: Volume, u: Volume, chains: Chains, more: Chains, names: Names, rank: map<int, nat>, p: int,
                  it: Dir.Item, r: seq<int>, f: int)
    requires Good(s, chains, names, rank) && Proper(names, s.root) && p in names && u.root == s.root
    requires Fresh(chains, r, f)
    requires Keeps(u, more, Added(names, p, it)) && more.Keys == With(chains, r).Keys
    requires it.clus == f && !Dir.IsDirItem(it) && !Dot(it) && !Tree.Hidden(it.raw)
    ensures KeptAs(u, more, Added(names, p, it), rank)
  {
    hide Good, Proper, Keeps, TreeOk, Dot, Added, With, Plus, Cl, First;
    GoodShaped(s, chains, names, rank);
    AddFile(names, s.root, chains.Keys, rank, p, it);
    GoodBy(u, more, Added(names, p, it), rank);
    ProperFile(names, s.root, chains.Keys, rank, p, it);
  }

  lemma FileRefused(s: Volume, u: Volume, chains: Chains, names: Names, rank: map<int, nat>, r: seq<int>, f: int)
    requires Good(s, chains, names, rank) && Proper(names, s.root) && u.root == s.root && Fresh(chains, r, f)
    requires Keeps(u, With(chains, r), names)
    ensures KeptAs(Dropped(u, f), chains, names, rank)
  {
    hide Good, Proper, Keeps, TreeOk, Dropped, With, Plus, Cl;
    GoodShaped(s, chains, names, rank);
    NamesIn(s, chains, names);
    UndoKeeps(u, chains, names, r);
    RootSame(u, f);
    GoodBy(Dropped(u, f), chains, names, rank);
  }

  lemma NamesIn(s: Volume, chains: Chains, names: Names)
    requires Keeps(s, chains, names)
    ensures names.Keys <= chains.Keys
  {
  }

  lemma RootSame(u: Volume, e: int)
    ensures Dropped(u, e).root == u.root
  {
  }

  /** The entry was refused: the new chain goes, the directories stay. */
  lemma UndoKeeps(u: Volume, chains: Chains, names: Names, r: seq<int>)
    requires Keeps(u, With(chains, r), names) && names.Keys <= chains.Keys
    requires r != [] ==> r[0] !in chains && r[0] != 0
    ensures Keeps(Dropped(u, First(r)), chains, names)
  {
    hide Own, AllHold, Files.Drop;
    Files.UndoOwns(u.v, chains, r);
    DropSize(u.v, First(r));
    var w := Dropped(u, First(r));
    forall h | h in names
      ensures Untouched(u, With(chains, r), w, chains, h)
    {
    }
    KeepsOn(u, With(chains, r), names, w, chains);
  }

  // ----- Every run -----

  /** What a new entry is to be called is seen afterwards. */
  predicate Seen(op: Op) {
    op.Write? || op.MakeDir? ==> Entry.Visible(op.leaf)
  }

  /** Each operation leaves a volume in order in order. */
  lemma StepInKeeps(s: Volume, dir: int, op: Op)
    requires WellKept(s) && LiveDir(s, dir) && IsString(op.leaf) && Seen(op)
    ensures Shaped(s) && WellKept(StepIn(s, dir, op))
  {
    hide Good, Proper, WriteFile, DeleteFile, Mkdir, Rmdir, LiveDir, Lookup, Entry.Visible;
    var chains: Chains, names: Names, rank: map<int, nat> :| Good(s, chains, names, rank) && Proper(names, s.root);
    hide WellKept;
    GoodShaped(s, chains, names, rank);
    LiveDirs(s, chains, names, rank, dir);
    match op {
      case Write(_, _, _, _, _, _, _) => WriteFileKeeps(s, chains, names, rank, dir, op);
      case Delete(_, leaf) => DeleteFileKeeps(s, chains, names, rank, dir, leaf);
      case MakeDir(_, leaf, date, time) => MkdirKeeps(s, chains, names, rank, dir, leaf, date, time);
      case RemoveDir(_, leaf) => RmdirKeeps(s, chains, names, rank, dir, leaf);
    }
  }

  lemma WellKeptShaped(s: Volume)
    requires WellKept(s)
    ensures Shaped(s)
  {
    hide Own, AllHold, TreeOk, Proper;
  }

  lemma StepIs(s: Volume, op: Op)
    requires Shaped(s)
    ensures Walk(s, s.root, op.path).None? || op.leaf == [] ==> Step(s, op) == s
    ensures Walk(s, s.root, op.path).Some? && op.leaf != [] ==>
              Step(s, op) == StepIn(s, Walk(s, s.root, op.path).value, op)
  {
    hide Walk, StepIn, Shaped;
  }

  /** ... wherever its path leads. */
  lemma StepKeeps(s: Volume, op: Op)
    requires WellKept(s) && IsString(op.leaf) && Seen(op)
    ensures Shaped(s) && WellKept(Step(s, op))
  {
    hide WellKept, Walk, StepIn, Step, LiveDir, Seen, IsString, Shaped;
    WellKeptShaped(s);
    StepIs(s, op);
    if Walk(s, s.root, op.path).Some? && op.leaf != [] {
      WalkLives(s, op.path);
      StepInKeeps(s, Walk(s, s.root, op.path).value, op);
    }
  }

  /** The operations one after the other. */
  ghost function Run(s: Volume, ops: seq<Op>): (r: Volume)
    requires Shaped(s)
    ensures Shaped(r)
    decreases |ops|
  {
    if ops == [] then s else Step(Run(s, ops[..|ops| - 1]), ops[|ops| - 1])
  }

  /** In every run of writes, deletes, mkdirs and rmdirs on any paths, from a volume in
      order, at every point exactly the clusters in use are those of the files and
      directories that entries reachable from the root name; their chains are acyclic and
      disjoint, and the free count is the number of free entries. */
  lemma {:induction false} RunOwns(s: Volume, ops: seq<Op>)
    requires Shaped(s) && WellKept(s) && forall n :: 0 <= n < |ops| ==> IsString(ops[n].leaf) && Seen(ops[n])
    ensures WellKept(Run(s, ops)) && Owns(Run(s, ops))
    decreases |ops|
  {
    hide Step, Owns, Shaped, WellKept, Seen, IsString;
    if ops != [] {
      RunOwns(s, ops[..|ops| - 1]);
      StepKeeps(Run(s, ops[..|ops| - 1]), ops[|ops| - 1]);
    }
    WellKeptOwns(Run(s, ops));
  }

  lemma WellKeptOwns(s: Volume)
    requires WellKept(s)
    ensures Owns(s)
  {
    hide Good, Owns, Proper;
    var chains: Chains, names: Names, rank: map<int, nat> :| Good(s, chains, names, rank) && Proper(names, s.root);
    GoodOwns(s, chains, names, rank);
  }

  /** What it says about the table: of the clusters in the data area exactly those are in
      use that a walk from a live start cluster visits, and each by one only. */
  lemma OwnsMeans(s: Volume)
    requires Owns(s)
    ensures forall h :: Live(s, h) ==> Ends(s.v.t, h) && h in Chain(s.v.t, h)
    ensures forall h, c :: Live(s, h) && c in Chain(s.v.t, h) ==> Valid(s.v.t, c) && s.v.t[c] != 0
    ensures forall g, h, c :: Live(s, g) && Live(s, h) && c in Chain(s.v.t, g) && c in Chain(s.v.t, h) ==> g == h
    ensures forall c :: Valid(s.v.t, c) && s.v.t[c] != 0 ==> exists h :: Live(s, h) && c in Chain(s.v.t, h)
    ensures s.v.freeCount == |FreeSet(s.v.t)|
  {
    hide Own, Live, Chain, FreeSet, Ends;
    var chains: Chains :| Own(s.v, chains) && forall x :: x in chains <==> Live(s, x);
    var f := Files.Sys(s.v, chains.Keys);
    assert Files.Owns(f);
    Files.OwnsMeans(f);
  }

  // ----- A fresh volume -----

  /** A volume with nothing but an empty root directory in cluster 2. */
  function NewVolume(n: nat, per: nat): Volume
    requires 3 <= n
  {
    var t := seq(n, c => if c == 2 then EOC else 0);
    Volume(Vol(t, |FreeSet(t)|, 3), seq(n, c => Place.BlankSlots(per)), 2, per)
  }

  lemma NewVolumeKept(n: nat, per: nat)
    requires 3 <= n <= 0x0FFF_FFF7 && per >= 16 && per % 16 == 0
    ensures Shaped(NewVolume(n, per)) && WellKept(NewVolume(n, per))
  {
    var s := NewVolume(n, per);
    NewOwn(n, per);
    RootSlots(n, per);
    NewTree();
    hide Own, Formed, NewVolume, DirOf, TreeOk, Proper;
    NewShape(n, per);
    NewKeeps(s);
    var chains: Chains := map[2 := [2]];
    assert chains.Keys == {2};
    GoodBy(s, map[2 := [2]], map[2 := {}], map[2 := 0]);
    WellKeptBy(s, map[2 := [2]], map[2 := {}], map[2 := 0]);
  }

  lemma NewOwn(n: nat, per: nat)
    requires 3 <= n <= 0x0FFF_FFF7
    ensures Own(NewVolume(n, per).v, map[2 := [2]])
  {
    var t, chains := NewVolume(n, per).v.t, map[2 := [2]];
    SingleChain(t, 2);
    hide FreeSet, IsChain;
    assert 2 in chains && 2 in chains[2];
    assert Chained(t, chains) && Disjoint(chains) && Owned(t, chains);
  }

  lemma NewTree()
    ensures TreeOk(map[2 := {}], 2, {2}, map[2 := 0]) && Proper(map[2 := {}], 2)
  {
  }

  lemma NewShape(n: nat, per: nat)
    requires 3 <= n && per >= 16 && per % 16 == 0
    ensures Shaped(NewVolume(n, per)) && NewVolume(n, per).root == 2 && NewVolume(n, per).per == per
  {
  }

  lemma NewKeeps(s: Volume)
    requires Shaped(s) && Own(s.v, map[2 := [2]]) && Formed(DirOf(s, 2), s.per) && Entries(s, 2) == []
    ensures Keeps(s, map[2 := [2]], map[2 := {}])
  {
    hide Own, Formed, Shaped, Entries;
    assert Holds(s, 2, {});
  }

  lemma RootSlots(n: nat, per: nat)
    requires 3 <= n <= 0x0FFF_FFF7 && per >= 16 && per % 16 == 0
    ensures var s := NewVolume(n, per);
            DirOf(s, 2) == Place.BlankSlots(per) && Formed(DirOf(s, 2), per) && Entries(s, 2) == []
  {
    var s := NewVolume(n, per);
    SingleChain(s.v.t, 2);
    ChainShort(s.v.t, [2]);
    OneCluster(s.area, 2);
    var z := Place.BlankSlots(per);
    Tree.BlankTidy(z);
    Dir.ScanBlank(z, Idle, 0);
    Dir.ItemsIs(z);
    BlankNear(per);
  }

  lemma BlankNear(per: nat)
    requires per > 0
    ensures Runs.Near(Place.BlankSlots(per), per)
  {
    var z := Place.BlankSlots(per);
    forall i: nat | i % per == 0
      ensures Runs.Closed(z, i)
    {
      if i <= |z| {
        Runs.FreeEnd(z[..i]);
      }
    }
  }
}
