/** What paths find in fs/fat32.c after an operation: a new name leads to the new file or
    directory, an overwritten file is found where it was, and other walks go on as before. */
module FatFound {
  import opened Basics
  import opened FatChain
  import opened FatLfn
  import opened FatNaming
  import opened FatLive
  import opened FatOps
  import opened FatOwner
  import opened FatEffect
  import opened FatSpelling

  // ----- Lookups in one directory -----

  /** The new entry answers to its name, which nobody answered to, and to a fresh alias. */
  lemma NewNameAdds(s: Volume, u: Volume, dir: int, it: Dir.Item, leaf: Name, attr: int, clus: int, size: int)
    requires Entry.Inserted(Entries(s, dir), Entries(u, dir), it) && SevenBit(leaf) && Lookup(s, dir, leaf).None?
    requires 0 <= attr < 0x100 && Describes(it, DirOf(s, dir), leaf, attr, clus, size) && Nameable(DirOf(s, dir), leaf)
    ensures Entry.AddsOnly(Entries(s, dir), Entries(u, dir), it, leaf)
  {
    hide Dir.Scan, ParseName, FormatName, Entry.MakeAlias, DirOf, Narrowed, Dir.Find;
    if NeedsLfn(leaf) {
      NarrowedSame(leaf);
      Entry.EmptyIsShort();
      Entry.AliasFresh(DirOf(s, dir), leaf, 1);
      Entry.LongAdds(Entries(s, dir), it, leaf);
    } else {
      Entry.ShortAdds(Entries(s, dir), it, leaf);
    }
  }

  /** Directories that were found are found as before. */
  ghost predicate DirsFound(s: Volume, u: Volume, h: int) {
    forall w :: Lookup(s, h, w).Some? && Dir.IsDirItem(Lookup(s, h, w).value) ==> Lookup(u, h, w) == Lookup(s, h, w)
  }

  lemma AddedFound(s: Volume, u: Volume, dir: int, it: Dir.Item, leaf: Name)
    requires Entry.AddsOnly(Entries(s, dir), Entries(u, dir), it, leaf) && Lookup(s, dir, leaf).None?
    ensures Lookup(u, dir, leaf) == Some(it) && DirsFound(s, u, dir)
  {
    hide Entries, Entry.Inserted, FormatName;
    Entry.LookupsAfterPut(Entries(s, dir), Entries(u, dir), it, leaf, leaf);
    SpellingIs(leaf, leaf);
    forall w | Lookup(s, dir, w).Some?
      ensures Lookup(u, dir, w) == Lookup(s, dir, w)
    {
      Entry.LookupsAfterPut(Entries(s, dir), Entries(u, dir), it, leaf, w);
      AnswersExactly(it, w);
      SpellingIs(w, leaf);
      SpellingIs(w, FormatName(it.raw));
    }
  }

  /** An entry that is overwritten is found in its place, with the same name. */
  lemma {:induction false} FindReplaced(a: seq<Dir.Item>, k: nat, jt: Dir.Item, w: Name)
    requires k < |a| && jt.raw == a[k].raw && jt.long == a[k].long && forall j :: 0 <= j < k ==> a[j] != a[k]
    ensures Dir.Find(a[k := jt], w) == if Dir.Find(a, w) == Some(a[k]) then Some(jt) else Dir.Find(a, w)
    decreases |a|
  {
    hide FormatName, SameName;
    if k == 0 {
      assert a[k := jt][1..] == a[1..];
    } else {
      assert a[k := jt][1..] == a[1..][k - 1 := jt] && a[k := jt][0] == a[0];
      FindReplaced(a[1..], k - 1, jt, w);
    }
  }

  lemma OverwrittenFound(s: Volume, u: Volume, dir: int, it: Dir.Item, jt: Dir.Item, leaf: Name)
    requires Replaced(Entries(s, dir), Entries(u, dir), it, jt) && Lookup(s, dir, leaf) == Some(it)
    requires jt == it.(clus := jt.clus, size := jt.size) && !Dir.IsDirItem(it)
    ensures Lookup(u, dir, leaf) == Some(jt) && DirsFound(s, u, dir)
  {
    EntriesSorted(s, dir);
    hide Entries, FormatName, Dir.Find;
    var a := Entries(s, dir);
    var k :| 0 <= k < |a| && a[k] == it && Entries(u, dir) == a[k := jt];
    FindReplaced(a, k, jt, leaf);
    forall w | Lookup(s, dir, w).Some? && Dir.IsDirItem(Lookup(s, dir, w).value)
      ensures Lookup(u, dir, w) == Lookup(s, dir, w)
    {
      FindReplaced(a, k, jt, w);
    }
  }

  // ----- Walks -----

  /** Walks from live directories end where they did. */
  lemma {:induction false} WalkStays(s: Volume, u: Volume, names: Names, heads: set<int>, rank: map<int, nat>, h: int,
                                     comps: seq<Name>)
    requires Named(s, names, heads, rank) && DotsOk(names, s.root) && h in names && u.root == s.root
    requires forall x :: x in names ==> DirsFound(s, u, x)
    ensures Walk(s, h, comps).Some? ==> Walk(u, h, comps) == Walk(s, h, comps)
    decreases |comps|
  {
    hide Named, DotsOk, Lookup;
    if comps != [] && Lookup(s, h, comps[0]).Some? && Dir.IsDirItem(Lookup(s, h, comps[0]).value) {
      var it := Lookup(s, h, comps[0]).value;
      assert DirsFound(s, u, h);
      FoundIn(s, h, comps[0]);
      StepInTree(s, names, heads, rank, h, it);
      WalkStays(s, u, names, heads, rank, if it.clus != 0 then it.clus else s.root, comps[1..]);
    }
  }

  /** The directory `dir` keeps what it had, and the others list what they did. */
  lemma PathStays(s: Volume, u: Volume, path: seq<Name>, dir: int)
    requires WellKept(s) && Walk(s, s.root, path) == Some(dir) && u.root == s.root && DirsFound(s, u, dir)
    requires forall h :: LiveDir(s, h) && h != dir ==> Entries(u, h) == Entries(s, h)
    ensures Walk(u, u.root, path) == Some(dir)
  {
    hide WellKept, KeptAs, Walk, LiveDir, Live, Entries, Viewed, Good, Proper;
    var chains, names, rank := Tree0(s, path);
    View(s, chains, names, rank);
    AsGood(s, chains, names, rank);
    GoodNamed(s, chains, names, rank);
    RootNamed(s, names, chains.Keys, rank);
    ProperDots(names, s.root);
    hide Named, DotsOk, DirsFound;
    forall x | x in names
      ensures DirsFound(s, u, x)
    {
      SeenLive(s, chains, names, x);
      if x != dir {
        SameFound(s, u, x);
      }
    }
    WalkStays(s, u, names, chains.Keys, rank, s.root, path);
  }

  lemma SeenLive(s: Volume, chains: Chains, names: Names, x: int)
    requires Viewed(s, chains, names)
    ensures LiveDir(s, x) <==> x in names
  {
    hide LiveDir, Live, Lists;
  }

  lemma SameFound(s: Volume, u: Volume, h: int)
    requires Entries(u, h) == Entries(s, h)
    ensures DirsFound(s, u, h)
  {
    hide Entries;
  }

  lemma {:induction false} WalkOneMore(s: Volume, h: int, comps: seq<Name>, leaf: Name)
    requires Walk(s, h, comps).Some?
    ensures Walk(s, h, comps + [leaf]) == Walk(s, Walk(s, h, comps).value, [leaf])
    decreases |comps|
  {
    hide Lookup;
    if comps == [] {
      assert comps + [leaf] == [leaf];
    } else {
      assert (comps + [leaf])[0] == comps[0] && (comps + [leaf])[1..] == comps[1..] + [leaf];
      var it := Lookup(s, h, comps[0]).value;
      WalkOneMore(s, if it.clus != 0 then it.clus else s.root, comps[1..], leaf);
    }
  }

  lemma StepRoot(s: Volume, op: Op)
    requires Shaped(s)
    ensures Step(s, op).root == s.root
  {
    hide Shaped, Walk, Lookup, AllocMore, Alloc, Entry.PutEntry, Tree.IsEmpty, DirOf, Scribbled, PutEntry, Stored,
         Tree.FreshDir;
    StepIs(s, op);
  }

  // ----- Written is found, made is walked -----

  lemma SevenBitStorable(leaf: Name)
    requires SevenBit(leaf)
    ensures Storable(leaf)
  {
  }

  /** A file written under any 7-bit name, new or not: the path leads to it afterwards, and it
      has the size and the contents that were written. */
  lemma WrittenIsFound(s: Volume, op: Op, dir: int) returns (it: Dir.Item)
    requires WellKept(s) && op.Write? && op.leaf != [] && SevenBit(op.leaf) && Walk(s, s.root, op.path) == Some(dir)
    requires match Lookup(s, dir, op.leaf)
             case None => op.n < |FreeSet(s.v.t)| && Nameable(DirOf(s, dir), op.leaf)
             case Some(was) => op.n <= |FreeSet(s.v.t)| && !Dir.IsDirItem(was)
    ensures Shaped(s)
    ensures var u := Step(s, op);
            && Walk(u, u.root, op.path) == Some(dir) && Lookup(u, dir, op.leaf) == Some(it)
            && !Dir.IsDirItem(it) && it.size == op.size && NewContents(s, u, it.clus, op.n, op.junk)
  {
    hide WellKept, Walk, Lookup, Step, SevenBit, FreeSet, Nameable, DirOf, Entries, NewContents, Describes, Storable,
         OtherChainsKept, TookAndFreed, LiveDir, Entry.Inserted, Replaced, DirsFound, Unchanged, Entry.AddsOnly;
    WellKeptShaped(s);
    StepRoot(s, op);
    hide Shaped;
    SevenBitStorable(op.leaf);
    var u := Step(s, op);
    match Lookup(s, dir, op.leaf) {
      case None =>
        var ok, f;
        ok, f, it := NewFileEffect(s, op, dir);
        DescribesFile(it, DirOf(s, dir), op.leaf, f, op.size);
        NewNameAdds(s, u, dir, it, op.leaf, 0x20, f, op.size);
        AddedFound(s, u, dir, it, op.leaf);
      case Some(was) =>
        var f := OverwriteEffect(s, op, dir);
        it := was.(clus := f, size := op.size);
        OverwrittenFound(s, u, dir, was, it, op.leaf);
    }
    PathStays(s, u, op.path, dir);
  }

  lemma DescribesFile(it: Dir.Item, d: Dir.Slots, leaf: Name, f: int, size: int)
    requires Describes(it, d, leaf, 0x20, f, size)
    ensures !Dir.IsDirItem(it) && it.clus == f && it.size == size
  {
    hide NeedsLfn, Entry.MakeAlias, ParseName, Narrowed;
  }

  /** A directory made under a 7-bit name: the path with this name leads to it, and it lists
      "." and "..". */
  lemma MadeIsWalked(s: Volume, op: Op, dir: int) returns (c: int)
    requires WellKept(s) && op.MakeDir? && op.leaf != [] && op.leaf[0] != DOT && SevenBit(op.leaf)
    requires Walk(s, s.root, op.path) == Some(dir) && Lookup(s, dir, op.leaf).None?
    requires |FreeSet(s.v.t)| >= 2 && Nameable(DirOf(s, dir), op.leaf)
    ensures Shaped(s)
    ensures var u := Step(s, op);
            && Walk(u, u.root, op.path + [op.leaf]) == Some(c) && c >= 2
            && forall x :: x in Entries(u, c) <==> x in TwoDots(c, dir, s.root)
  {
    hide WellKept, Walk, Lookup, Step, SevenBit, FreeSet, Nameable, DirOf, Entries, Describes, Storable,
         OtherChainsKept, LiveDir, Entry.Inserted, DirsFound, Unchanged, Entry.AddsOnly, TwoDots;
    WellKeptShaped(s);
    StepRoot(s, op);
    hide Shaped;
    SevenBitStorable(op.leaf);
    var u := Step(s, op);
    var ok, it;
    ok, c, it := MakeDirEffect(s, op, dir);
    DescribesDir(it, DirOf(s, dir), op.leaf, c);
    NewNameAdds(s, u, dir, it, op.leaf, 0x10, c, 0);
    AddedFound(s, u, dir, it, op.leaf);
    PathStays(s, u, op.path, dir);
    WalkOneMore(u, u.root, op.path, op.leaf);
    WalkLast(u, dir, op.leaf, it);
  }

  lemma DescribesDir(it: Dir.Item, d: Dir.Slots, leaf: Name, c: int)
    requires Describes(it, d, leaf, 0x10, c, 0)
    ensures Dir.IsDirItem(it) && it.clus == c
  {
    hide NeedsLfn, Entry.MakeAlias, ParseName, Narrowed;
  }

  lemma WalkLast(u: Volume, dir: int, leaf: Name, it: Dir.Item)
    requires Lookup(u, dir, leaf) == Some(it) && Dir.IsDirItem(it) && it.clus >= 2
    ensures Walk(u, dir, [leaf]) == Some(it.clus)
  {
    hide Lookup;
    assert [leaf][1..] == [];
  }
}
