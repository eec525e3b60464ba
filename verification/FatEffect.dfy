/** What the operations of fs/fat32.c do to a volume in order, read off the disk: which
    entries come and go, which clusters are taken and freed, and that nothing else changes. */
module FatEffect {
  import opened Basics
  import opened Words
  import opened FatChain
  import opened FatOwner
  import opened FatLfn
  import opened FatNaming
  import opened FatLive
  import opened FatOps
  import FatVolume

  // ----- Entries in the order of their slots -----

  ghost predicate Sorted(a: seq<Dir.Item>) {
    forall i, j :: 0 <= i < j < |a| ==> a[i].pos < a[j].pos
  }

  lemma EntriesSorted(s: Volume, h: int)
    ensures Sorted(Entries(s, h))
  {
    hide Dir.Scan, DirOf;
    var a := Entries(s, h);
    forall i, j | 0 <= i < j < |a|
      ensures a[i].pos < a[j].pos
    {
      Del.PositionsApart(DirOf(s, h), Idle, 0, i, j);
    }
  }

  /** Entries in order that are the same entries are the same sequence. */
  lemma {:induction false} SameSorted(a: seq<Dir.Item>, b: seq<Dir.Item>)
    requires Sorted(a) && Sorted(b) && forall x :: x in a <==> x in b
    ensures a == b
    decreases |a|
  {
    if a == [] {
      NoneLeft(a, b);
    } else {
      FirstSame(a, b);
      forall x
        ensures x in a[1..] <==> x in b[1..]
      {
        assert x in a[1..] <==> x in a && x != a[0];
        assert x in b[1..] <==> x in b && x != b[0];
      }
      SameSorted(a[1..], b[1..]);
    }
  }

  lemma NoneLeft(a: seq<Dir.Item>, b: seq<Dir.Item>)
    requires forall x :: x in a <==> x in b
    ensures a == [] ==> b == []
  {
    if b != [] {
      assert b[0] in a;
    }
  }

  lemma FirstSame(a: seq<Dir.Item>, b: seq<Dir.Item>)
    requires Sorted(a) && Sorted(b) && a != [] && forall x :: x in a <==> x in b
    ensures b != [] && a[0] == b[0]
  {
    assert a[0] in b && b[0] in a;
  }

  /** `b` are the entries `a` without `it`. */
  ghost predicate Removed(a: seq<Dir.Item>, b: seq<Dir.Item>, it: Dir.Item) {
    exists k :: 0 <= k < |a| && a[k] == it && b == a[..k] + a[k + 1..]
  }

  lemma LessSorted(a: seq<Dir.Item>, b: seq<Dir.Item>, it: Dir.Item)
    requires Sorted(a) && Sorted(b) && it in a && forall x :: x in b <==> x in a && x != it
    ensures Removed(a, b, it)
  {
    var k :| 0 <= k < |a| && a[k] == it;
    var c := a[..k] + a[k + 1..];
    forall x
      ensures x in c <==> x in a && x != it
    {
      assert a == a[..k] + [it] + a[k + 1..];
      assert x in c <==> x in a[..k] || x in a[k + 1..];
    }
    SameSorted(b, c);
  }

  lemma MoreSorted(a: seq<Dir.Item>, b: seq<Dir.Item>, it: Dir.Item)
    requires Sorted(a) && Sorted(b) && it !in a && forall x :: x in b <==> x in a || x == it
    ensures Entry.Inserted(a, b, it)
  {
    LessSorted(b, a, it);
    PutBack(a, b, it);
  }

  lemma PutBack(a: seq<Dir.Item>, b: seq<Dir.Item>, it: Dir.Item)
    requires Removed(b, a, it)
    ensures Entry.Inserted(a, b, it)
  {
    var k :| 0 <= k < |b| && b[k] == it && a == b[..k] + b[k + 1..];
    assert b == a[..k] + [it] + a[k..];
  }

  /** `it` is now `jt`, at its place. */
  ghost predicate Replaced(a: seq<Dir.Item>, b: seq<Dir.Item>, it: Dir.Item, jt: Dir.Item) {
    exists k :: 0 <= k < |a| && a[k] == it && b == a[k := jt]
  }

  lemma SwapSorted(a: seq<Dir.Item>, b: seq<Dir.Item>, it: Dir.Item, jt: Dir.Item)
    requires Sorted(a) && Sorted(b) && it in a && jt.pos == it.pos
    requires forall x :: x in b <==> (x in a && x != it) || x == jt
    ensures Replaced(a, b, it, jt)
  {
    var k :| 0 <= k < |a| && a[k] == it;
    var c := a[k := jt];
    forall x
      ensures x in c <==> (x in a && x != it) || x == jt
    {
      if x in a && x != it {
        var i :| 0 <= i < |a| && a[i] == x;
        assert c[i] == x;
      }
      assert c[k] == jt;
    }
    SameSorted(b, c);
  }

  // ----- The tree read off the volume -----

  /** What is live, which entries a directory has, and which clusters a chain. */
  ghost predicate Viewed(s: Volume, chains: Chains, names: Names) {
    && (forall h :: LiveDir(s, h) <==> h in names) && (forall x :: Live(s, x) <==> x in chains)
    && (forall h :: h in chains ==> Chain(s.v.t, h) == chains[h])
    && (forall h :: h in names ==> h in chains && Lists(s, h, names[h]))
  }

  ghost predicate Lists(s: Volume, h: int, entries: set<Dir.Item>) {
    forall x :: x in entries <==> x in Entries(s, h)
  }

  lemma View(s: Volume, chains: Chains, names: Names, rank: map<int, nat>)
    requires KeptAs(s, chains, names, rank)
    ensures Shaped(s) && WellKept(s) && Own(s.v, chains) && Viewed(s, chains, names)
  {
    hide Good, Proper, Own, WellKept, Lists, LiveDir, Live, Chain, Entries, Shaped;
    KeptWell(s, chains, names, rank);
    assert Good(s, chains, names, rank);
    GoodShaped(s, chains, names, rank);
    KeepsOwn(s, chains, names);
    hide Keeps, TreeOk;
    forall h
      ensures LiveDir(s, h) <==> h in names
    {
      LiveDirs(s, chains, names, rank, h);
    }
    forall x
      ensures Live(s, x) <==> x in chains
    {
      LiveHeads(s, chains, names, rank, x);
    }
    forall h | h in chains
      ensures Chain(s.v.t, h) == chains[h]
    {
      ChainOf(s.v, chains, h);
    }
    forall h | h in names
      ensures h in chains && Lists(s, h, names[h])
    {
      ListsHeld(s, chains, names, h);
    }
  }

  lemma LiveHeads(s: Volume, chains: Chains, names: Names, rank: map<int, nat>, x: int)
    requires Good(s, chains, names, rank)
    ensures Live(s, x) <==> x in chains
  {
    hide Good, Live, Named;
    GoodNamed(s, chains, names, rank);
    LiveIs(s, names, chains.Keys, rank, x);
  }

  lemma ListsHeld(s: Volume, chains: Chains, names: Names, h: int)
    requires Keeps(s, chains, names) && h in names
    ensures h in chains && Lists(s, h, names[h])
  {
    hide Keeps, Entries;
    HeldAt(s, chains, names, h);
  }

  /** The tree of a volume in order; the path leads to one of its directories. */
  lemma Tree0(s: Volume, path: seq<Name>) returns (chains: Chains, names: Names, rank: map<int, nat>)
    requires WellKept(s)
    ensures KeptAs(s, chains, names, rank)
    ensures Walk(s, s.root, path).Some? ==> Walk(s, s.root, path).value in names
  {
    hide Good, Proper, Walk;
    var cs: Chains, ns: Names, rs: map<int, nat> :| Good(s, cs, ns, rs) && Proper(ns, s.root);
    hide WellKept;
    chains, names, rank := cs, ns, rs;
    GoodNamed(s, chains, names, rank);
    RootNamed(s, names, chains.Keys, rank);
    ProperDots(names, s.root);
    WalkInTree(s, names, chains.Keys, rank, s.root, path);
  }

  // ----- What stays -----

  /** There are the same directories, and apart from `dir` they list what they did. */
  ghost predicate OtherDirsKept(s: Volume, u: Volume, dir: int) {
    && (forall h :: LiveDir(u, h) <==> LiveDir(s, h))
    && (forall h :: LiveDir(s, h) && h != dir ==> Entries(u, h) == Entries(s, h))
  }

  lemma SameList(s: Volume, u: Volume, h: int, entries: set<Dir.Item>)
    requires Lists(s, h, entries) && Lists(u, h, entries)
    ensures Entries(u, h) == Entries(s, h)
  {
    hide Entries;
    EntriesSorted(s, h);
    EntriesSorted(u, h);
    SameSorted(Entries(s, h), Entries(u, h));
  }

  lemma DirsKept(s: Volume, u: Volume, chains: Chains, names: Names, more: Chains, names2: Names, dir: int)
    requires Viewed(s, chains, names) && Viewed(u, more, names2) && names2.Keys == names.Keys
    requires forall h :: h in names && h != dir ==> names2[h] == names[h]
    ensures OtherDirsKept(s, u, dir)
  {
    hide LiveDir, Live, Chain, Entries, Lists;
    forall h | h in names && h != dir
      ensures Entries(u, h) == Entries(s, h)
    {
      assert Lists(s, h, names[h]) && Lists(u, h, names2[h]);
      SameList(s, u, h, names[h]);
    }
  }

  /** The table with the chain from `e` freed. */
  ghost predicate ChainFreed(t: Table, w: Table, e: int) {
    |w| == |t| && forall c :: Valid(t, c) ==> w[c] == if e >= 2 && c in Chain(t, e) then 0 else t[c]
  }

  lemma DropFrees(v: Vol, chains: Chains, e: int)
    requires Own(v, chains) && (e < 2 || e in chains)
    ensures ChainFreed(v.t, Files.Drop(v, e).t, e)
  {
    hide Own, Chain, Free;
    if e >= 2 {
      FreeKeeps(v, chains, e);
      ChainOf(v, chains, e);
    }
  }

  // ----- fat32_delete -----

  /** The file that the path leads to: its entry is gone from its directory, its clusters
      are free, and nothing else has changed. */
  lemma DeleteEffect(s: Volume, path: seq<Name>, leaf: Name, dir: int)
    requires WellKept(s) && leaf != [] && Walk(s, s.root, path) == Some(dir)
    requires Lookup(s, dir, leaf).Some? && !Dir.IsDirItem(Lookup(s, dir, leaf).value)
    ensures Shaped(s)
    ensures var u, it := Step(s, Delete(path, leaf)), Lookup(s, dir, leaf).value;
            && WellKept(u) && OtherDirsKept(s, u, dir) && Removed(Entries(s, dir), Entries(u, dir), it)
            && ChainFreed(s.v.t, u.v.t, it.clus)
  {
    hide Good, Proper, WellKept, KeptAs, Viewed, Walk, Lookup, Step, Own, Entries, DeleteFile, OtherDirsKept, Freed,
         ChainFreed, Less;
    WellKeptShaped(s);
    hide Shaped;
    var chains, names, rank := Tree0(s, path);
    View(s, chains, names, rank);
    AsGood(s, chains, names, rank);
    var u, it := Step(s, Delete(path, leaf)), Lookup(s, dir, leaf).value;
    FileDeleted(s, chains, names, rank, dir, leaf);
    StepIs(s, Delete(path, leaf));
    View(u, Freed(chains, it.clus), Less(names, dir, it), rank);
    FoundFile(s, chains, names, rank, dir, leaf);
    DeletedThere(s, u, chains, names, dir, it);
    DeletedTable(s, dir, leaf);
    DropFrees(s.v, chains, it.clus);
  }

  lemma AsGood(s: Volume, chains: Chains, names: Names, rank: map<int, nat>)
    requires KeptAs(s, chains, names, rank)
    ensures Good(s, chains, names, rank) && Proper(names, s.root)
  {
    hide Good, Proper;
  }

  lemma DeletedThere(s: Volume, u: Volume, chains: Chains, names: Names, dir: int, it: Dir.Item)
    requires Viewed(s, chains, names) && dir in names && Viewed(u, Freed(chains, it.clus), Less(names, dir, it))
    requires it in Entries(s, dir)
    ensures OtherDirsKept(s, u, dir) && Removed(Entries(s, dir), Entries(u, dir), it)
  {
    hide Entries, OtherDirsKept, LiveDir, Live, Chain;
    DirsKept(s, u, chains, names, Freed(chains, it.clus), Less(names, dir, it), dir);
    EntriesSorted(s, dir);
    EntriesSorted(u, dir);
    assert Lists(s, dir, names[dir]) && Lists(u, dir, names[dir] - {it});
    LessSorted(Entries(s, dir), Entries(u, dir), it);
  }

  lemma DeletedTable(s: Volume, dir: int, leaf: Name)
    requires Shaped(s) && Lookup(s, dir, leaf).Some? && !Dir.IsDirItem(Lookup(s, dir, leaf).value)
    ensures DeleteFile(s, dir, leaf).v == Files.Drop(s.v, Lookup(s, dir, leaf).value.clus)
  {
    hide Lookup, Shaped, DirOf, Files.Drop, Stored;
    FoundAt(s, dir, leaf);
  }

  // ----- fat32_write_file -----

  /** The chain from `f` has `n` clusters, all of them free before, and they hold what was
      written there. */
  ghost predicate NewContents(s: Volume, u: Volume, f: int, n: nat, junk: seq<Slots>) {
    var q := Chain(u.v.t, f);
    && |q| == n && (n == 0 ==> f == 0) && (n > 0 ==> Live(u, f))
    && forall c :: c in q ==> Valid(s.v.t, c) && s.v.t[c] == 0 && Put(s, u, junk, c)
  }

  predicate Put(s: Volume, u: Volume, junk: seq<Slots>, c: int) {
    0 <= c < |junk| && |junk[c]| == s.per ==> c < |u.area| && u.area[c] == junk[c]
  }

  /** In the table the clusters `q` have been taken, the chain from `e` is free, and every
      other entry is what it was. */
  ghost predicate TookAndFreed(t: Table, w: Table, q: seq<int>, e: int) {
    |w| == |t|
    && forall c :: Valid(t, c) && c !in q ==> w[c] == if e >= 2 && c in Chain(t, e) then 0 else t[c]
  }

  /** Overwriting a file for which there is room: the entry names the new contents, the old
      clusters are free, and nothing else has changed. */
  lemma OverwriteEffect(s: Volume, op: Op, dir: int) returns (f: int)
    requires WellKept(s) && op.Write? && op.leaf != [] && Walk(s, s.root, op.path) == Some(dir)
    requires Lookup(s, dir, op.leaf).Some? && !Dir.IsDirItem(Lookup(s, dir, op.leaf).value)
    requires op.n <= |FreeSet(s.v.t)|
    ensures Shaped(s)
    ensures var u, it := Step(s, op), Lookup(s, dir, op.leaf).value;
            && WellKept(u) && OtherDirsKept(s, u, dir)
            && Replaced(Entries(s, dir), Entries(u, dir), it, it.(clus := f, size := op.size))
            && NewContents(s, u, f, op.n, op.junk)
            && TookAndFreed(s.v.t, u.v.t, Chain(u.v.t, f), it.clus)
  {
    hide Good, Proper, WellKept, KeptAs, Viewed, Walk, Lookup, Step, Own, Entries, WriteFile, OtherDirsKept, Freed,
         Redirected, Begins, Commit, Written, Cl, NewContents, TookAndFreed, AllocMore, FreeSet;
    WellKeptShaped(s);
    hide Shaped;
    var chains, names, rank := Tree0(s, op.path);
    View(s, chains, names, rank);
    AsGood(s, chains, names, rank);
    var u, it := Step(s, op), Lookup(s, dir, op.leaf).value;
    FoundFile(s, chains, names, rank, dir, op.leaf);
    Room(s.v, chains, op.n);
    var r := Begun(s, chains, names, rank, dir, op);
    f := AllocMore(s.v, 0, 0, op.n).1.first;
    OverwrittenAs(s, chains, names, rank, dir, op, r, f);
    StepIs(s, op);
    ClIs(s, chains, names, dir, op, r, f);
    View(u, Freed(With(chains, r), it.clus), Redirected(names, dir, it, it.(clus := f, size := op.size)), rank);
    RedirectedThere(s, u, chains, names, Freed(With(chains, r), it.clus), dir, it, it.(clus := f, size := op.size));
    ContentsThere(s, u, chains, names, rank, dir, op, r, f, it);
  }

  lemma Room(v: Vol, chains: Chains, n: nat)
    requires Own(v, chains)
    ensures AllocMore(v, 0, 0, n).1.Granted? <==> n <= |FreeSet(v.t)|
  {
    hide AllocMore, FreeSet;
    FatVolume.GrantedWhenRoom(v, chains, n);
  }

  lemma ClIs(s: Volume, chains: Chains, names: Names, dir: int, op: Op, r: seq<int>, f: int)
    requires op.Write? && Begins(s, chains, names, dir, op, r, f)
    ensures Cl(f) == f == First(r) && |r| == op.n
  {
  }

  lemma OverwrittenAs(s: Volume, chains: Chains, names: Names, rank: map<int, nat>, dir: int, op: Op, r: seq<int>,
                      f: int)
    requires Good(s, chains, names, rank) && Proper(names, s.root) && op.Write? && dir in names && Shaped(s)
    requires Begins(s, chains, names, dir, op, r, f) && AllocMore(s.v, 0, 0, op.n).1 == Granted(f)
    requires Lookup(s, dir, op.leaf).Some? && !Dir.IsDirItem(Lookup(s, dir, op.leaf).value)
    ensures var it := Lookup(s, dir, op.leaf).value;
            KeptAs(WriteFile(s, dir, op), Freed(With(chains, r), it.clus),
                   Redirected(names, dir, it, it.(clus := Cl(f), size := op.size)), rank)
  {
    hide Good, Proper, Keeps, KeptAs, TreeOk, Lookup, Shaped, AllocMore, Commit, DirOf, Fresh, With,
         OnlyTook, WriteFile, Written, Cl, Freed, Redirected;
    assert Begins(s, chains, names, dir, op, r, f);
    WriteFileIs(s, dir, op);
    CommitOver(s, Written(s, op), chains, names, rank, dir, op, r, f);
  }

  lemma RedirectedThere(s: Volume, u: Volume, chains: Chains, names: Names, more: Chains, dir: int, it: Dir.Item,
                        jt: Dir.Item)
    requires Viewed(s, chains, names) && dir in names && Viewed(u, more, Redirected(names, dir, it, jt))
    requires it in Entries(s, dir) && jt.pos == it.pos
    ensures OtherDirsKept(s, u, dir) && Replaced(Entries(s, dir), Entries(u, dir), it, jt)
  {
    DirsKept(s, u, chains, names, more, Redirected(names, dir, it, jt), dir);
    EntriesSorted(s, dir);
    EntriesSorted(u, dir);
    hide Entries, OtherDirsKept, LiveDir, Live, Chain;
    assert Lists(s, dir, names[dir]) && Lists(u, dir, names[dir] - {it} + {jt});
    SwapSorted(Entries(s, dir), Entries(u, dir), it, jt);
  }

  lemma ContentsThere(s: Volume, u: Volume, chains: Chains, names: Names, rank: map<int, nat>, dir: int, op: Op,
                      r: seq<int>, f: int, it: Dir.Item)
    requires Shaped(s) && Good(s, chains, names, rank) && op.Write? && dir in names && u == WriteFile(s, dir, op)
    requires Begins(s, chains, names, dir, op, r, f) && AllocMore(s.v, 0, 0, op.n).1 == Granted(f)
    requires Lookup(s, dir, op.leaf) == Some(it) && !Dir.IsDirItem(it) && (it.clus < 2 || it.clus in chains)
    requires Viewed(u, Freed(With(chains, r), it.clus), Redirected(names, dir, it, it.(clus := f, size := op.size)))
    ensures NewContents(s, u, f, op.n, op.junk) && TookAndFreed(s.v.t, u.v.t, Chain(u.v.t, f), it.clus)
  {
    hide Good, Shaped, WriteFile, Viewed, Begins, Freed, Lookup, AllocMore, Redirected, Own, OnlyTook, Written,
         Files.Drop, TookAndFreed, NewContents, Chain, With, Fresh, Keeps;
    BeginsHas(s, chains, names, rank, dir, op, r, f);
    var b := Written(s, op);
    CommittedOver(s, dir, op, f, it);
    FreshApart(chains, r, f);
    Taken(s.v, b.v, u.v, chains, r, f, it.clus);
    TookInside(s.v.t, b.v.t, r);
    NewLive(s, u, chains, r, f, it, Redirected(names, dir, it, it.(clus := f, size := op.size)));
    DirInChains(s, chains, names, rank, dir);
    PutThere(s, u, chains, r, op, dir);
    Assembled(s, u, r, f, op);
  }

  lemma BeginsHas(s: Volume, chains: Chains, names: Names, rank: map<int, nat>, dir: int, op: Op, r: seq<int>, f: int)
    requires Good(s, chains, names, rank) && op.Write? && Begins(s, chains, names, dir, op, r, f)
    ensures Own(s.v, chains) && Own(Written(s, op).v, With(chains, r)) && OnlyTook(s.v.t, Written(s, op).v.t, r)
    ensures Fresh(chains, r, f) && |r| == op.n && Shaped(Written(s, op)) && DirOf(Written(s, op), dir) == DirOf(s, dir)
  {
    hide Own, OnlyTook, Fresh, Shaped, AllHold, TreeOk, AllocMore, Scribbled, With, DirOf;
  }

  lemma FreshApart(chains: Chains, r: seq<int>, f: int)
    requires Fresh(chains, r, f)
    ensures f == First(r) && (r != [] ==> r[0] !in chains)
  {
  }

  lemma DirInChains(s: Volume, chains: Chains, names: Names, rank: map<int, nat>, dir: int)
    requires Good(s, chains, names, rank) && dir in names
    ensures dir in chains
  {
    hide Own, AllHold, Shaped, TreeOk;
  }

  /** What the overwrite comes to on the table and in the data area. */
  lemma CommittedOver(s: Volume, dir: int, op: Op, f: int, it: Dir.Item)
    requires Shaped(s) && op.Write? && Shaped(Written(s, op)) && Lookup(s, dir, op.leaf) == Some(it)
    requires !Dir.IsDirItem(it) && AllocMore(s.v, 0, 0, op.n).1 == Granted(f)
    requires DirOf(Written(s, op), dir) == DirOf(s, dir)
    ensures WriteFile(s, dir, op).v == Files.Drop(Written(s, op).v, it.clus)
    ensures Over(WriteFile(s, dir, op).area, Written(s, op).area, Chain(Written(s, op).v.t, dir))
  {
    hide Shaped, Lookup, AllocMore, DirOf, Written, Files.Drop;
    FoundAt(s, dir, op.leaf);
    WriteFileIs(s, dir, op);
  }

  /** Only clusters of `q` have other slots. */
  ghost predicate Over(after: seq<Slots>, before: seq<Slots>, q: seq<int>) {
    |after| == |before| && forall c :: 0 <= c < |before| && c !in q ==> after[c] == before[c]
  }

  lemma Taken(v: Vol, b: Vol, w: Vol, chains: Chains, r: seq<int>, f: int, e: int)
    requires Own(v, chains) && Own(b, With(chains, r)) && OnlyTook(v.t, b.t, r) && w == Files.Drop(b, e)
    requires (e < 2 || e in chains) && (r != [] ==> r[0] !in chains)
    ensures TookAndFreed(v.t, w.t, r, e) && |w.t| == |v.t|
  {
    hide Own, Chain, Files.Drop;
    WithHas(chains, r, e);
    DropFrees(b, With(chains, r), e);
    if e >= 2 {
      ChainOf(v, chains, e);
      ChainOf(b, With(chains, r), e);
    }
  }

  lemma WithHas(chains: Chains, r: seq<int>, e: int)
    requires r != [] ==> r[0] !in chains
    ensures e in chains ==> e in With(chains, r) && With(chains, r)[e] == chains[e]
  {
  }

  /** The new chain is live, if there are any contents. */
  lemma NewLive(s: Volume, u: Volume, chains: Chains, r: seq<int>, f: int, it: Dir.Item, names: Names)
    requires Viewed(u, Freed(With(chains, r), it.clus), names) && f == First(r) && (r != [] ==> r[0] !in chains)
    requires it.clus < 2 || it.clus in chains
    requires forall c :: c in r ==> c >= 2
    ensures Chain(u.v.t, f) == r && (r != [] ==> Live(u, f))
  {
    hide Live, Chain, LiveDir, Lists;
    if r == [] {
      ChainNone(u.v.t);
    } else {
      assert r[0] in r;
    }
  }

  lemma TookInside(t: Table, w: Table, r: seq<int>)
    requires OnlyTook(t, w, r)
    ensures forall c :: c in r ==> c >= 2
  {
  }

  lemma ChainNone(t: Table)
    ensures Chain(t, 0) == []
  {
  }

  lemma PutThere(s: Volume, u: Volume, chains: Chains, r: seq<int>, op: Op, dir: int)
    requires Shaped(s) && op.Write? && Own(s.v, chains) && OnlyTook(s.v.t, Written(s, op).v.t, r)
    requires Own(Written(s, op).v, With(chains, r)) && (r != [] ==> r[0] !in chains)
    requires dir in chains && Over(u.area, Written(s, op).area, Chain(Written(s, op).v.t, dir))
    ensures forall c :: c in r ==> Put(s, u, op.junk, c)
  {
    hide Own, Chain, AllocMore;
    ChainOf(s.v, chains, dir);
    WithHas(chains, r, dir);
    ChainOf(Written(s, op).v, With(chains, r), dir);
    forall c | c in r
      ensures Put(s, u, op.junk, c)
    {
      assert s.v.t[c] == 0 && c !in chains[dir];
    }
  }

  lemma Assembled(s: Volume, u: Volume, r: seq<int>, f: int, op: Op)
    requires op.Write? && |r| == op.n && OnlyTook(s.v.t, Written(s, op).v.t, r) && f == First(r)
    requires Chain(u.v.t, f) == r && (r != [] ==> Live(u, f)) && forall c :: c in r ==> Put(s, u, op.junk, c)
    ensures NewContents(s, u, f, op.n, op.junk)
  {
    hide Chain, Live, AllocMore, Scribbled, Put;
  }

  // ----- A new file -----

  /** Every chain is what it was, but that of `dir` may have one more cluster, free before. */
  ghost predicate OtherChainsKept(s: Volume, u: Volume, dir: int) {
    forall h :: Live(s, h) ==>
      && Live(u, h)
      && (Chain(u.v.t, h) == Chain(s.v.t, h) || (h == dir && GrownByOne(s.v.t, Chain(s.v.t, h), Chain(u.v.t, h))))
  }

  ghost predicate GrownByOne(t: Table, q: seq<int>, r: seq<int>) {
    |r| == |q| + 1 && r[..|q|] == q && Valid(t, r[|q|]) && t[r[|q|]] == 0
  }

  /** The same directories with the same entries, and the same chains. */
  ghost predicate Unchanged(s: Volume, u: Volume) {
    && (forall h :: LiveDir(u, h) <==> LiveDir(s, h)) && (forall h :: LiveDir(s, h) ==> Entries(u, h) == Entries(s, h))
    && (forall h :: Live(u, h) <==> Live(s, h)) && (forall h :: Live(s, h) ==> Chain(u.v.t, h) == Chain(s.v.t, h))
  }

  lemma SameTree(s: Volume, u: Volume, chains: Chains, names: Names)
    requires Viewed(s, chains, names) && Viewed(u, chains, names)
    ensures Unchanged(s, u)
  {
    hide LiveDir, Live, Chain, Entries, Lists;
    forall h | h in names
      ensures Entries(u, h) == Entries(s, h)
    {
      assert Lists(s, h, names[h]) && Lists(u, h, names[h]);
      SameList(s, u, h, names[h]);
    }
  }

  /** The name can be stored: without a long name, or with one that fits and an alias. */
  predicate Nameable(d: Slots, leaf: Name) {
    NeedsLfn(leaf) ==> |leaf| <= 194 && Entry.MakeAlias(d, leaf, 1).Some?
  }

  /** What a new entry says: start, size, kind and names. */
  predicate Describes(it: Dir.Item, d: Slots, leaf: Name, attr: u8, clus: int, size: int) {
    && it.clus == clus && it.size == size && it.attr == attr
    && it.long == (if NeedsLfn(leaf) then Narrowed(leaf) else [])
    && it.raw == (if NeedsLfn(leaf) && Entry.MakeAlias(d, leaf, 1).Some? then Entry.MakeAlias(d, leaf, 1).value
                  else ParseName(leaf))
  }

  /** Writing under a name that is not there, with room for the contents: the directory has
      one more entry, for them, and everything else is as before; or nothing has changed.
      The entry is stored if one more cluster is free and the name can be stored. */
  lemma NewFileEffect(s: Volume, op: Op, dir: int) returns (ok: bool, f: int, it: Dir.Item)
    requires WellKept(s) && op.Write? && op.leaf != [] && Walk(s, s.root, op.path) == Some(dir)
    requires Lookup(s, dir, op.leaf).None? && Storable(op.leaf) && op.n <= |FreeSet(s.v.t)|
    ensures Shaped(s) && (op.n < |FreeSet(s.v.t)| ==> (ok <==> Nameable(DirOf(s, dir), op.leaf)))
    ensures ok ==> Nameable(DirOf(s, dir), op.leaf)
    ensures var u := Step(s, op);
            && WellKept(u)
            && if ok
               then OtherDirsKept(s, u, dir) && Entry.Inserted(Entries(s, dir), Entries(u, dir), it)
                    && Describes(it, DirOf(s, dir), op.leaf, 0x20, f, op.size)
                    && NewContents(s, u, f, op.n, op.junk) && OtherChainsKept(s, u, dir)
               else Unchanged(s, u)
  {
    hide Good, Proper, WellKept, KeptAs, Viewed, Walk, Lookup, Step, Own, Entries, WriteFile, OtherDirsKept, Added,
         Begins, Commit, Written, Cl, NewContents, AllocMore, FreeSet, Unchanged, Entry.NewItem, Storable, Nameable,
         Describes, OtherChainsKept, DirOf, StoresNew;
    WellKeptShaped(s);
    hide Shaped;
    var chains, names, rank := Tree0(s, op.path);
    View(s, chains, names, rank);
    AsGood(s, chains, names, rank);
    Room(s.v, chains, op.n);
    var r := Begun(s, chains, names, rank, dir, op);
    f := AllocMore(s.v, 0, 0, op.n).1.first;
    StepIs(s, op);
    ClIs(s, chains, names, dir, op, r, f);
    var more;
    ok, more, it := NewAs(s, chains, names, rank, dir, op, r, f);
    if ok {
      View(Step(s, op), more, Added(names, dir, it), rank);
      NewThere(s, Step(s, op), chains, names, rank, more, dir, op, r, f, it);
    } else {
      View(Step(s, op), chains, names, rank);
      SameTree(s, Step(s, op), chains, names);
    }
  }

  lemma NewAs(s: Volume, chains: Chains, names: Names, rank: map<int, nat>, dir: int, op: Op, r: seq<int>, f: int)
    returns (ok: bool, more: Chains, it: Dir.Item)
    requires Good(s, chains, names, rank) && Proper(names, s.root) && op.Write? && dir in names && Shaped(s)
    requires Begins(s, chains, names, dir, op, r, f) && AllocMore(s.v, 0, 0, op.n).1 == Granted(f)
    requires Lookup(s, dir, op.leaf).None? && Storable(op.leaf)
    ensures op.n < |FreeSet(s.v.t)| && Nameable(DirOf(s, dir), op.leaf) ==> ok
    ensures ok ==> Nameable(DirOf(s, dir), op.leaf)
    ensures Shaped(Written(s, op)) && (ok <==> StoresNew(Written(s, op), dir, op, f))
    ensures var u := WriteFile(s, dir, op);
            if ok
            then it == Entry.NewItem(DirOf(s, dir), op.leaf, NewFile(op, f), it.pos) && it !in names[dir]
                 && Wide(Written(s, op).v, With(chains, r), more, dir) && KeptAs(u, more, Added(names, dir, it), rank)
            else KeptAs(u, chains, names, rank)
  {
    hide Good, Proper, Keeps, KeptAs, TreeOk, Lookup, Shaped, AllocMore, Commit, DirOf, Fresh, With, Storable, Wide,
         OnlyTook, WriteFile, Written, Cl, Added, Entry.NewItem, StoresNew, FreeSet, Nameable, NewFile;
    assert Begins(s, chains, names, dir, op, r, f);
    WriteFileIs(s, dir, op);
    more, it := CommitNew(s, Written(s, op), chains, names, rank, dir, op, r, f);
    ok := StoresNewIs(s, chains, names, rank, dir, op, r, f);
  }

  /** Whether the entry is stored. */
  lemma StoresNewIs(s: Volume, chains: Chains, names: Names, rank: map<int, nat>, dir: int, op: Op, r: seq<int>, f: int)
    returns (ok: bool)
    requires Good(s, chains, names, rank) && op.Write? && dir in names && Begins(s, chains, names, dir, op, r, f)
    requires Lookup(s, dir, op.leaf).None? && Storable(op.leaf)
    ensures Shaped(Written(s, op)) && (ok <==> StoresNew(Written(s, op), dir, op, f))
    ensures op.n < |FreeSet(s.v.t)| && Nameable(DirOf(s, dir), op.leaf) ==> ok
    ensures ok ==> Nameable(DirOf(s, dir), op.leaf)
  {
    hide Good, Lookup, Keeps, With, Written, Fresh, Nameable, FreeSet, Dir.Tidy, DirOf, PutItem, Storable, OnlyTook,
         Shaped;
    BeginsHas(s, chains, names, rank, dir, op, r, f);
    assert Begins(s, chains, names, dir, op, r, f);
    var b := Written(s, op);
    hide Begins;
    HeldAt(b, With(chains, r), names, dir);
    LookupSame(s, b, dir, op.leaf);
    ok := PutItem(b, dir, op.leaf, NewFile(op, f)).1;
    PutsIf(b, dir, op.leaf, NewFile(op, f));
    LeftOver(s.v.t, b.v.t, r);
    AllocIff(b.v);
  }

  /** dir_put_entry on the volume succeeds if there is room and the name can be stored. */
  lemma PutsIf(b: Volume, dir: int, leaf: Name, m: Entry.Meta)
    requires Shaped(b) && Formed(DirOf(b, dir), b.per) && Lookup(b, dir, leaf).None? && Storable(leaf)
    requires m.attr == 0x20 || m.attr == 0x10
    ensures Alloc(b.v).1 != 0 && Nameable(DirOf(b, dir), leaf) ==> PutItem(b, dir, leaf, m).1
    ensures PutItem(b, dir, leaf, m).1 ==> Nameable(DirOf(b, dir), leaf)
  {
    hide Dir.Tidy, Dir.Scan, Dir.Items, Dir.Find, Alloc, Entry.PutEntry, Entry.MakeAlias, NeedsLfn, Entry.Inserted,
         SetSlots;
    DirLength(b, dir);
    hide DirOf;
    Entry.PutEntryInserts(DirOf(b, dir), leaf, m, Alloc(b.v).1 != 0, b.per);
    PutNamed(DirOf(b, dir), leaf, m, Alloc(b.v).1 != 0, b.per);
  }

  lemma PutNamed(d: Slots, leaf: Name, m: Entry.Meta, room: bool, per: nat)
    requires |d| % 16 == 0 && per >= 16
    ensures Entry.PutEntry(d, leaf, m, room, per).1.Some? ==> Nameable(d, leaf)
  {
    hide Entry.MakeAlias, NeedsLfn, Entry.PutShort, Entry.PutLong;
  }

  lemma AllocIff(v: Vol)
    ensures Alloc(v).1 != 0 <==> FreeSet(v.t) != {}
  {
    AllocFinds(v.t, v.nextFree);
    hide FreeSet, AllocChoice;
  }

  lemma LeftOver(t: Table, w: Table, r: seq<int>)
    requires OnlyTook(t, w, r)
    ensures |FreeSet(t)| > |r| ==> FreeSet(w) != {}
  {
    var q := set c | c in r;
    SetSize(r);
    assert FreeSet(t) <= FreeSet(w) + q;
    if FreeSet(w) == {} {
      assert FreeSet(t) <= q;
      SubsetSize(FreeSet(t), q);
    }
  }

  lemma {:induction false} SetSize(r: seq<int>)
    ensures |set c | c in r| <= |r|
    decreases |r|
  {
    if r != [] {
      SetSize(r[1..]);
      assert (set c | c in r) == (set c | c in r[1..]) + {r[0]};
    }
  }

  lemma SubsetSize(a: set<int>, b: set<int>)
    requires a <= b
    ensures |a| <= |b|
  {
    assert b == a + (b - a);
  }

  lemma NewThere(s: Volume, u: Volume, chains: Chains, names: Names, rank: map<int, nat>, more: Chains, dir: int,
                 op: Op, r: seq<int>, f: int, it: Dir.Item)
    requires Shaped(s) && Good(s, chains, names, rank) && op.Write? && dir in names && u == WriteFile(s, dir, op)
    requires Begins(s, chains, names, dir, op, r, f) && AllocMore(s.v, 0, 0, op.n).1 == Granted(f)
    requires Lookup(s, dir, op.leaf).None? && Shaped(Written(s, op)) && StoresNew(Written(s, op), dir, op, f)
    requires Viewed(s, chains, names) && Viewed(u, more, Added(names, dir, it)) && Own(u.v, more)
    requires it == Entry.NewItem(DirOf(s, dir), op.leaf, NewFile(op, f), it.pos) && it !in names[dir]
    requires Wide(Written(s, op).v, With(chains, r), more, dir)
    ensures OtherDirsKept(s, u, dir) && Entry.Inserted(Entries(s, dir), Entries(u, dir), it)
    ensures Describes(it, DirOf(s, dir), op.leaf, 0x20, f, op.size)
    ensures NewContents(s, u, f, op.n, op.junk) && OtherChainsKept(s, u, dir)
  {
    hide Good, Shaped, WriteFile, Viewed, Begins, Lookup, AllocMore, Added, Own, OnlyTook, Written, OtherDirsKept,
         NewContents, Chain, With, Fresh, Keeps, Wide, Entry.NewItem, Describes, StoresNew, DirOf, Entry.Inserted,
         OtherChainsKept;
    BeginsHas(s, chains, names, rank, dir, op, r, f);
    FreshApart(chains, r, f);
    ClIs(s, chains, names, dir, op, r, f);
    DirInChains(s, chains, names, rank, dir);
    AddedThere(s, u, chains, names, more, dir, it);
    assert NewFile(op, f) == Entry.Meta(0x20, Cl(f), op.size, op.date, op.time);
    Described(it, DirOf(s, dir), op.leaf, NewFile(op, f));
    TookInside(s.v.t, Written(s, op).v.t, r);
    ChainsGrown(s, u, Written(s, op).v, chains, names, more, Added(names, dir, it), r, dir);
    NewChainLive(s, u, chains, more, Added(names, dir, it), Written(s, op).v, r, f, dir);
    NewSlots(s, u, dir, op, f);
    PutBeside(s, u, more, Added(names, dir, it), Written(s, op).v, chains, r, op, dir);
    Assembled(s, u, r, f, op);
  }

  lemma AddedThere(s: Volume, u: Volume, chains: Chains, names: Names, more: Chains, dir: int, it: Dir.Item)
    requires Viewed(s, chains, names) && dir in names && Viewed(u, more, Added(names, dir, it)) && it !in names[dir]
    ensures OtherDirsKept(s, u, dir) && Entry.Inserted(Entries(s, dir), Entries(u, dir), it)
  {
    DirsKept(s, u, chains, names, more, Added(names, dir, it), dir);
    EntriesSorted(s, dir);
    EntriesSorted(u, dir);
    hide Entries, OtherDirsKept, LiveDir, Live, Chain;
    assert Lists(s, dir, names[dir]) && Lists(u, dir, names[dir] + {it});
    MoreSorted(Entries(s, dir), Entries(u, dir), it);
  }

  lemma Described(it: Dir.Item, d: Slots, leaf: Name, m: Entry.Meta)
    requires it == Entry.NewItem(d, leaf, m, it.pos)
    ensures Describes(it, d, leaf, m.attr, m.clus, m.size)
  {
    hide NeedsLfn, Entry.MakeAlias, ParseName, Narrowed;
  }

  lemma ChainsGrown(s: Volume, u: Volume, b: Vol, chains: Chains, names: Names, more: Chains, names2: Names,
                    r: seq<int>, dir: int)
    requires Viewed(s, chains, names) && Viewed(u, more, names2) && Wide(b, With(chains, r), more, dir)
    requires OnlyTook(s.v.t, b.t, r) && (r != [] ==> r[0] !in chains)
    ensures OtherChainsKept(s, u, dir)
  {
    hide LiveDir, Live, Chain, Lists, Alloc;
    AllocFree(b);
    forall h | h in chains
      ensures h in more && (more[h] == chains[h] || (h == dir && GrownByOne(s.v.t, chains[h], more[h])))
    {
      WithHas(chains, r, h);
    }
  }

  lemma AllocFree(v: Vol)
    ensures var c := Alloc(v).1; c != 0 ==> Valid(v.t, c) && v.t[c] == 0
  {
    AllocFinds(v.t, v.nextFree);
    hide AllocChoice;
  }

  lemma NewChainLive(s: Volume, u: Volume, chains: Chains, more: Chains, names: Names, b: Vol, r: seq<int>, f: int,
                     dir: int)
    requires Viewed(u, more, names) && f == First(r) && (r != [] ==> r[0] !in chains) && dir in chains
    requires Wide(b, With(chains, r), more, dir)
    ensures Chain(u.v.t, f) == r && (r != [] ==> Live(u, f))
  {
    hide Live, Chain, LiveDir, Lists, Alloc;
    if r == [] {
      ChainNone(u.v.t);
    } else {
      assert r[0] in With(chains, r);
    }
  }

  lemma NewSlots(s: Volume, u: Volume, dir: int, op: Op, f: int)
    requires Shaped(s) && op.Write? && u == WriteFile(s, dir, op) && Lookup(s, dir, op.leaf).None?
    requires AllocMore(s.v, 0, 0, op.n).1 == Granted(f)
    requires Shaped(Written(s, op)) && StoresNew(Written(s, op), dir, op, f)
    ensures Over(u.area, Written(s, op).area, Chain(u.v.t, dir))
  {
    hide Shaped, WriteFile, Written, Lookup, AllocMore, PutItem, Over, NewFile, Chain;
    WriteFileIs(s, dir, op);
    CommitIs(s, Written(s, op), dir, op, f);
    PutOver(Written(s, op), dir, op.leaf, NewFile(op, f));
  }

  lemma PutOver(b: Volume, dir: int, leaf: Name, m: Entry.Meta)
    requires Shaped(b)
    ensures var u := PutItem(b, dir, leaf, m).0; Over(u.area, b.area, Chain(u.v.t, dir))
  {
    hide Shaped, Chain, Alloc, Entry.PutEntry, PutEntry, DirOf;
    DirLength(b, dir);
  }

  lemma PutBeside(s: Volume, u: Volume, more: Chains, names: Names, b: Vol, chains: Chains, r: seq<int>, op: Op,
                  dir: int)
    requires Shaped(s) && op.Write? && Own(s.v, chains) && OnlyTook(s.v.t, b.t, r) && b == Written(s, op).v
    requires Own(b, With(chains, r)) && (r != [] ==> r[0] !in chains) && dir in chains
    requires Viewed(u, more, names) && Wide(b, With(chains, r), more, dir)
    requires Over(u.area, Written(s, op).area, Chain(u.v.t, dir))
    ensures forall c :: c in r ==> Put(s, u, op.junk, c)
  {
    hide Own, Chain, AllocMore, Alloc, LiveDir, Live, Lists;
    ChainOf(s.v, chains, dir);
    WithHas(chains, r, dir);
    AllocFree(b);
    if r != [] {
      ChainOf(b, With(chains, r), r[0]);
    }
    forall c | c in r
      ensures Put(s, u, op.junk, c)
    {
      assert s.v.t[c] == 0 && c !in chains[dir] && b.t[c] != 0;
    }
  }

  // ----- fat32_mkdir -----

  /** One more directory, `c`, and apart from `dir` the others list what they did. */
  ghost predicate OneMoreDir(s: Volume, u: Volume, dir: int, c: int) {
    && !LiveDir(s, c) && (forall h :: LiveDir(u, h) <==> LiveDir(s, h) || h == c)
    && (forall h :: LiveDir(s, h) && h != dir ==> Entries(u, h) == Entries(s, h))
  }

  /** A directory is made under a name that is not there: its entry, and a cluster of its own
      with "." and ".."; everything else is as before; or nothing has changed.  It is made if
      two clusters are free and the name can be stored. */
  lemma MakeDirEffect(s: Volume, op: Op, dir: int) returns (ok: bool, c: int, it: Dir.Item)
    requires WellKept(s) && op.MakeDir? && op.leaf != [] && op.leaf[0] != DOT && Walk(s, s.root, op.path) == Some(dir)
    requires Lookup(s, dir, op.leaf).None? && Storable(op.leaf)
    ensures Shaped(s) && (|FreeSet(s.v.t)| >= 2 ==> (ok <==> Nameable(DirOf(s, dir), op.leaf)))
    ensures ok ==> Nameable(DirOf(s, dir), op.leaf)
    ensures var u := Step(s, op);
            && WellKept(u)
            && if ok
               then OneMoreDir(s, u, dir, c) && Entry.Inserted(Entries(s, dir), Entries(u, dir), it)
                    && Describes(it, DirOf(s, dir), op.leaf, 0x10, c, 0)
                    && Valid(s.v.t, c) && s.v.t[c] == 0 && Chain(u.v.t, c) == [c] && OtherChainsKept(s, u, dir)
                    && forall x :: x in Entries(u, c) <==> x in TwoDots(c, dir, s.root)
               else Unchanged(s, u)
  {
    hide Good, Proper, WellKept, KeptAs, Viewed, Walk, Lookup, Step, Own, Entries, Mkdir, OneMoreDir, Added, Wider,
         Alone,
         Deeper, Cl, Alloc, FreeSet, Unchanged, Entry.NewItem, Storable, Nameable, Describes, OtherChainsKept, DirOf,
         MadeDir, PutItem, TwoDots, Wide, Chain;
    WellKeptShaped(s);
    hide Shaped;
    var chains, names, rank := Tree0(s, op.path);
    View(s, chains, names, rank);
    AsGood(s, chains, names, rank);
    StepIs(s, op);
    AllocIff(s.v);
    AsKeeps(s, chains, names, rank);
    RootChain(s, chains, names, rank);
    c := Alloc(s.v).1;
    if c == 0 {
      ok, it := false, Dir.Item(0, Tree.DOT_RAW, [], 0, 0, 0);
      NothingFree(s, chains, names);
      MkdirFull(s, dir, op);
      NoneFree(s.v.t);
      SameTree(s, Step(s, op), chains, names);
    } else {
      var more, dots;
      more, it, dots := DirMade(s, chains, names, rank, dir, op.leaf, op.date, op.time);
      ok := MakesNew(s, chains, names, dir, op);
      var u := Step(s, op);
      if ok {
        View(u, more, Wider(Added(names, dir, it), c, dots), Deeper(rank, c, Depth(rank, dir)));
        MadeThere(s, u, chains, names, more, dir, op, c, it, dots);
      } else {
        View(u, chains, names, rank);
        SameTree(s, u, chains, names);
      }
    }
  }

  lemma AsKeeps(s: Volume, chains: Chains, names: Names, rank: map<int, nat>)
    requires Good(s, chains, names, rank)
    ensures Keeps(s, chains, names)
  {
    hide Keeps, TreeOk;
  }

  lemma RootChain(s: Volume, chains: Chains, names: Names, rank: map<int, nat>)
    requires Good(s, chains, names, rank)
    ensures s.root in chains
  {
    hide Keeps, NamedOnce, EntriesOk, AllNamed;
  }

  lemma NoneFree(t: Table)
    requires FreeSet(t) == {}
    ensures |FreeSet(t)| == 0
  {
  }

  lemma MkdirFull(s: Volume, dir: int, op: Op)
    requires Shaped(s) && op.MakeDir? && op.leaf != [] && op.leaf[0] != DOT && Lookup(s, dir, op.leaf).None?
    requires Alloc(s.v).1 == 0
    ensures Mkdir(s, dir, op.leaf, op.date, op.time) == s.(v := Alloc(s.v).0)
  {
    hide Shaped, Lookup, Alloc;
  }

  function NewDir(op: Op, c: int): Entry.Meta
    requires op.MakeDir?
  {
    Entry.Meta(0x10, Cl(c), 0, op.date, op.time)
  }

  /** Whether the entry is stored. */
  lemma MakesNew(s: Volume, chains: Chains, names: Names, dir: int, op: Op) returns (ok: bool)
    requires Shaped(s) && Keeps(s, chains, names) && dir in names && s.root in chains
    requires op.MakeDir? && op.leaf != [] && op.leaf[0] != DOT && Lookup(s, dir, op.leaf).None? && Storable(op.leaf)
    requires Alloc(s.v).1 != 0
    ensures var c := Alloc(s.v).1;
            var b := MadeDir(s, dir, c, op.date, op.time);
            var p := PutItem(b, dir, op.leaf, NewDir(op, c));
            && ok == p.1 && Mkdir(s, dir, op.leaf, op.date, op.time) == (if p.1 then p.0 else Dropped(p.0, c))
    ensures |FreeSet(s.v.t)| >= 2 && Nameable(DirOf(s, dir), op.leaf) ==> ok
    ensures ok ==> Nameable(DirOf(s, dir), op.leaf)
  {
    hide Lookup, Keeps, FreeSet, Nameable, Dir.Tidy, DirOf, PutItem, Storable, Shaped, Alloc, Dropped, MadeDir, Cl,
         Runs.Near;
    var c := Alloc(s.v).1;
    var b := MadeDir(s, dir, c, op.date, op.time);
    MadeSame(s, chains, names, dir, op.date, op.time);
    LookupSame(s, b, dir, op.leaf);
    ok := PutItem(b, dir, op.leaf, NewDir(op, c)).1;
    HeldAt(s, chains, names, dir);
    MadeShape(s, dir, c, op.date, op.time);
    PutsIf(b, dir, op.leaf, NewDir(op, c));
    AllocTook(s.v);
    LeftOver(s.v.t, Alloc(s.v).0.t, [c]);
    AllocIff(b.v);
  }

  lemma MadeShape(s: Volume, dir: int, c: int, date: u16, time: u16)
    requires Shaped(s)
    ensures var b := MadeDir(s, dir, c, date, time); b.v == Alloc(s.v).0 && b.per == s.per
  {
    hide Shaped, Alloc, Tree.FreshDir;
  }

  lemma AllocTook(v: Vol)
    requires Alloc(v).1 != 0
    ensures OnlyTook(v.t, Alloc(v).0.t, [Alloc(v).1])
  {
    AllocFinds(v.t, v.nextFree);
    hide AllocChoice;
  }

  lemma MadeThere(s: Volume, u: Volume, chains: Chains, names: Names, more: Chains, dir: int, op: Op, c: int,
                  it: Dir.Item, dots: set<Dir.Item>)
    requires op.MakeDir? && Viewed(s, chains, names) && dir in names && c !in names && c !in chains && Shaped(s)
    requires c == Alloc(s.v).1 != 0 && Cl(c) == c && it !in names[dir] && dots == TwoDots(c, dir, s.root)
    requires it == Entry.NewItem(DirOf(s, dir), op.leaf, NewDir(op, c), it.pos)
    requires Viewed(u, more, Wider(Added(names, dir, it), c, dots))
    requires Wide(MadeDir(s, dir, c, op.date, op.time).v, Alone(chains, c), more, dir)
    ensures OneMoreDir(s, u, dir, c) && Entry.Inserted(Entries(s, dir), Entries(u, dir), it)
    ensures Describes(it, DirOf(s, dir), op.leaf, 0x10, c, 0)
    ensures Valid(s.v.t, c) && s.v.t[c] == 0 && Chain(u.v.t, c) == [c] && OtherChainsKept(s, u, dir)
    ensures forall x :: x in Entries(u, c) <==> x in TwoDots(c, dir, s.root)
  {
    hide Viewed, Entries, OneMoreDir, Added, Wider, Alone, Alloc, Entry.NewItem, Describes, OtherChainsKept, DirOf,
         MadeDir, TwoDots, Wide, Chain, Entry.Inserted, OnlyTook, Shaped;
    Described(it, DirOf(s, dir), op.leaf, NewDir(op, c));
    AllocFree(s.v);
    AllocTook(s.v);
    MadeShape(s, dir, c, op.date, op.time);
    AloneIs(chains, c);
    SeenDir(s, chains, names, dir);
    ChainsGrown(s, u, MadeDir(s, dir, c, op.date, op.time).v, chains, names, more,
                Wider(Added(names, dir, it), c, dots), [c], dir);
    NewChainLive(s, u, chains, more, Wider(Added(names, dir, it), c, dots), MadeDir(s, dir, c, op.date, op.time).v,
                 [c], c, dir);
    MoreDirs(s, u, chains, names, more, dir, c, it, dots);
  }

  lemma SeenDir(s: Volume, chains: Chains, names: Names, dir: int)
    requires Viewed(s, chains, names) && dir in names
    ensures dir in chains
  {
    hide Live, Chain, LiveDir, Lists;
  }

  lemma AloneIs(chains: Chains, c: int)
    ensures Alone(chains, c) == With(chains, [c])
  {
  }

  lemma MoreDirs(s: Volume, u: Volume, chains: Chains, names: Names, more: Chains, dir: int, c: int, it: Dir.Item,
                 dots: set<Dir.Item>)
    requires Viewed(s, chains, names) && dir in names && c !in names && it !in names[dir]
    requires Viewed(u, more, Wider(Added(names, dir, it), c, dots))
    ensures OneMoreDir(s, u, dir, c) && Entry.Inserted(Entries(s, dir), Entries(u, dir), it)
    ensures forall x :: x in Entries(u, c) <==> x in dots
  {
    EntriesSorted(s, dir);
    EntriesSorted(u, dir);
    hide LiveDir, Live, Chain, Entries;
    var names2 := Wider(Added(names, dir, it), c, dots);
    assert Lists(s, dir, names[dir]) && Lists(u, dir, names2[dir]) && Lists(u, c, names2[c]);
    MoreSorted(Entries(s, dir), Entries(u, dir), it);
    hide Lists;
    forall h | h in names && h != dir
      ensures Entries(u, h) == Entries(s, h)
    {
      assert Lists(s, h, names[h]) && Lists(u, h, names2[h]);
      SameList(s, u, h, names[h]);
    }
  }

  // ----- fat32_rmdir -----

  /** `c` is no directory any more, and apart from `dir` the others list what they did. */
  ghost predicate OneDirLess(s: Volume, u: Volume, dir: int, c: int) {
    && (forall h :: LiveDir(u, h) <==> LiveDir(s, h) && h != c)
    && (forall h :: LiveDir(s, h) && h != dir && h != c ==> Entries(u, h) == Entries(s, h))
  }

  /** A directory that lists nothing but "." and ".." goes: its entry, and its clusters are
      free; everything else is as before.  One that lists more stays as it is. */
  lemma RemoveDirEffect(s: Volume, path: seq<Name>, leaf: Name, dir: int)
    requires WellKept(s) && leaf != [] && leaf[0] != DOT && Walk(s, s.root, path) == Some(dir)
    requires Lookup(s, dir, leaf).Some? && Dir.IsDirItem(Lookup(s, dir, leaf).value)
    ensures Shaped(s)
    ensures var u, it := Step(s, RemoveDir(path, leaf)), Lookup(s, dir, leaf).value;
            if forall x :: x in Entries(s, it.clus) ==> Dot(x)
            then WellKept(u) && OneDirLess(s, u, dir, it.clus) && Removed(Entries(s, dir), Entries(u, dir), it)
                 && ChainFreed(s.v.t, u.v.t, it.clus)
            else u == s
  {
    hide Good, Proper, WellKept, KeptAs, Viewed, Walk, Lookup, Step, Own, Entries, Rmdir, OneDirLess, Freed,
         ChainFreed, Gone, DirOf, Tree.IsEmpty, Dot;
    WellKeptShaped(s);
    hide Shaped;
    var chains, names, rank := Tree0(s, path);
    View(s, chains, names, rank);
    AsGood(s, chains, names, rank);
    var u, it := Step(s, RemoveDir(path, leaf)), Lookup(s, dir, leaf).value;
    StepIs(s, RemoveDir(path, leaf));
    FoundDir(s, chains, names, rank, dir, leaf);
    EmptyIffDots(s, chains, names, rank, it.clus);
    if Tree.IsEmpty(DirOf(s, it.clus)) {
      DirDeleted(s, chains, names, rank, dir, leaf);
      View(u, Freed(chains, it.clus), Gone(names, dir, it), rank - {it.clus});
      GoneThere(s, u, chains, names, dir, it);
      RmdirIs(s, dir, leaf);
      RmdirTable(s, dir, it.pos, it.clus);
      SeenDir(s, chains, names, it.clus);
      DropFrees(s.v, chains, it.clus);
    } else {
      RmdirRefused(s, dir, leaf);
    }
  }

  lemma EmptyIffDots(s: Volume, chains: Chains, names: Names, rank: map<int, nat>, x: int)
    requires KeptAs(s, chains, names, rank) && x in names
    ensures Tree.IsEmpty(DirOf(s, x)) <==> forall jt :: jt in Entries(s, x) ==> Dot(jt)
  {
    hide Good, Dir.Scan, Tree.IsEmpty, Lists;
    AsGood(s, chains, names, rank);
    AsKeeps(s, chains, names, rank);
    HeldAt(s, chains, names, x);
    Tree.EmptyMeansDotted(DirOf(s, x), Idle, 0);
    DotsAreDotted();
  }

  lemma DotsAreDotted()
    ensures forall raw: Raw :: Tree.Dot(raw) ==> Tree.DotRaw(raw)
  {
  }

  lemma GoneThere(s: Volume, u: Volume, chains: Chains, names: Names, dir: int, it: Dir.Item)
    requires Viewed(s, chains, names) && dir in names && Viewed(u, Freed(chains, it.clus), Gone(names, dir, it))
    requires it in Entries(s, dir) && it.clus != dir
    ensures OneDirLess(s, u, dir, it.clus) && Removed(Entries(s, dir), Entries(u, dir), it)
  {
    EntriesSorted(s, dir);
    EntriesSorted(u, dir);
    hide LiveDir, Live, Chain, Entries;
    var names2 := Gone(names, dir, it);
    assert Lists(s, dir, names[dir]) && Lists(u, dir, names2[dir]);
    LessSorted(Entries(s, dir), Entries(u, dir), it);
    hide Lists;
    forall h | h in names && h != dir && h != it.clus
      ensures Entries(u, h) == Entries(s, h)
    {
      assert Lists(s, h, names[h]) && Lists(u, h, names2[h]);
      SameList(s, u, h, names[h]);
    }
  }

  lemma RmdirTable(s: Volume, dir: int, pos: nat, e: int)
    requires Shaped(s) && pos < |DirOf(s, dir)|
    ensures Dropped(Deleted(s, dir, pos), e).v == Files.Drop(s.v, e)
  {
    hide Shaped, DirOf, Files.Drop, Stored;
  }

  lemma RmdirRefused(s: Volume, dir: int, leaf: Name)
    requires Shaped(s) && Lookup(s, dir, leaf).Some? && !Tree.IsEmpty(DirOf(s, Lookup(s, dir, leaf).value.clus))
    ensures Rmdir(s, dir, leaf) == s
  {
    hide Shaped, DirOf, Lookup, Tree.IsEmpty, Dropped, Deleted;
  }

  // ----- What is refused -----

  /** The operation has nothing to work on, or something is in its way. */
  predicate Impossible(s: Volume, op: Op) {
    match Walk(s, s.root, op.path)
    case None => true
    case Some(dir) =>
      op.leaf == [] ||
      var found := Lookup(s, dir, op.leaf);
      match op
      case Write(_, _, _, _, _, _, _) => found.Some? && Dir.IsDirItem(found.value)
      case Delete(_, _) => found.None? || Dir.IsDirItem(found.value)
      case MakeDir(_, leaf, _, _) => leaf[0] == DOT || found.Some?
      case RemoveDir(_, leaf) => leaf[0] == DOT || found.None? || !Dir.IsDirItem(found.value)
  }

  lemma ImpossibleChangesNothing(s: Volume, op: Op)
    requires Shaped(s) && Impossible(s, op)
    ensures Step(s, op) == s
  {
    hide Shaped, Walk, Lookup, AllocMore, Commit, Alloc, MadeDir, PutItem, Deleted, Dropped, Tree.IsEmpty, DirOf,
         Scribbled;
    StepIs(s, op);
  }

  /** Contents for which there is no room: nothing has changed but what free clusters hold. */
  lemma FullEffect(s: Volume, op: Op, dir: int)
    requires WellKept(s) && op.Write? && op.leaf != [] && Walk(s, s.root, op.path) == Some(dir)
    requires Lookup(s, dir, op.leaf).Some? ==> !Dir.IsDirItem(Lookup(s, dir, op.leaf).value)
    requires op.n > |FreeSet(s.v.t)|
    ensures Shaped(s) && WellKept(Step(s, op)) && Unchanged(s, Step(s, op)) && Step(s, op).v.t == s.v.t
  {
    hide Good, Proper, WellKept, KeptAs, Viewed, Walk, Lookup, Step, Own, Entries, WriteFile, NoRoom, Written,
         AllocMore, FreeSet, Unchanged;
    WellKeptShaped(s);
    hide Shaped;
    var chains, names, rank := Tree0(s, op.path);
    View(s, chains, names, rank);
    AsGood(s, chains, names, rank);
    Room(s.v, chains, op.n);
    var r := Begun(s, chains, names, rank, dir, op);
    StepIs(s, op);
    FullAs(s, chains, names, rank, dir, op);
    View(Step(s, op), chains, names, rank);
    SameTree(s, Step(s, op), chains, names);
  }

  lemma FullAs(s: Volume, chains: Chains, names: Names, rank: map<int, nat>, dir: int, op: Op)
    requires op.Write? && Shaped(s) && NoRoom(s, chains, names, rank, op) && Proper(names, s.root)
    requires AllocMore(s.v, 0, 0, op.n).1.Full?
    requires Lookup(s, dir, op.leaf).Some? ==> !Dir.IsDirItem(Lookup(s, dir, op.leaf).value)
    ensures KeptAs(WriteFile(s, dir, op), chains, names, rank) && WriteFile(s, dir, op).v.t == s.v.t
  {
    hide Good, Proper, Shaped, AllocMore, Lookup, Commit;
    assert NoRoom(s, chains, names, rank, op);
    WriteFileIs(s, dir, op);
  }
}
