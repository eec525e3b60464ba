/** When rmdir of fs/fat32.c keeps every used cluster owned: the emptiness test skips
    names by their first bytes, and what hides behind them is lost. */
module FatRmdir {
  import opened FatOwner
  import opened FatLfn
  import opened FatNaming
  import opened FatLive
  import opened FatOps
  import Dir = FatDir
  import Tree = FatTree

  /** Nothing in directory `x` but "." and ".." names a chain. */
  ghost predicate NamesNothing(s: Volume, x: int) {
    forall jt :: jt in Entries(s, x) ==> Dot(jt) || jt.clus < 2
  }

  /** The volume after the removal of the directory that `it` names. */
  ghost function Removed(s: Volume, p: int, it: Dir.Item): (r: Volume)
    requires Shaped(s)
  {
    if it.pos < |DirOf(s, p)| then Dropped(Deleted(s, p, it.pos), it.clus) else s
  }

  lemma RemovedIs(s: Volume, chains: Chains, names: Names, rank: map<int, nat>, p: int, it: Dir.Item)
    requires Good(s, chains, names, rank) && p in names && it in names[p] && it in Entries(s, p)
    ensures Shaped(s) && it.pos < |DirOf(s, p)| && Removed(s, p, it) == Dropped(Deleted(s, p, it.pos), it.clus)
    ensures Deleted(s, p, it.pos).root == s.root && Removed(s, p, it).root == s.root
    ensures Keeps(Deleted(s, p, it.pos), chains, Less(names, p, it))
  {
    hide Good, Keeps, TreeOk, DirOf, Shaped, Less, Entries;
    GoodShaped(s, chains, names, rank);
    DeletedKeeps(s, chains, names, p, it);
  }

  lemma RemovedDisk(s: Volume, chains: Chains, names: Names, rank: map<int, nat>, p: int, it: Dir.Item)
    requires Good(s, chains, names, rank) && p in names && it in names[p] && it in Entries(s, p)
    requires !Dot(it) && Dir.IsDirItem(it) && it.clus in names
    ensures Shaped(s) && p != it.clus && it.clus in chains
    ensures Keeps(Removed(s, p, it), Freed(chains, it.clus), Gone(names, p, it))
  {
    hide Good, Keeps, TreeOk, DirOf, Shaped, Dot, Less, Gone, Freed, Dropped, Deleted, Entries, Removed;
    RemovedIs(s, chains, names, rank, p, it);
    GoodShaped(s, chains, names, rank);
    InChains(s, chains, names, it.clus);
    Deeper1(names, s.root, chains.Keys, rank, p, it);
    RemovedKeeps(Deleted(s, p, it.pos), chains, names, p, it);
  }

  lemma RemovedKeeps(d: Volume, chains: Chains, names: Names, p: int, it: Dir.Item)
    requires p in names && Keeps(d, chains, Less(names, p, it)) && p != it.clus && it.clus in chains
    ensures Keeps(Dropped(d, it.clus), Freed(chains, it.clus), Gone(names, p, it))
  {
    hide Keeps, Less, Gone, Freed, Dropped;
    KeepsGone(d, chains, names, p, it);
    DropKeepsDirs(d, chains, Gone(names, p, it), it.clus);
  }

  lemma Deeper1(names: Names, root: int, heads: set<int>, rank: map<int, nat>, p: int, it: Dir.Item)
    requires TreeOk(names, root, heads, rank) && p in names && it in names[p] && !Dot(it) && Dir.IsDirItem(it)
    ensures p != it.clus && root != it.clus
  {
    assert EntryOk(names, heads, rank, p, it);
  }

  // ----- Nothing is lost -----

  lemma NothingLost(s: Volume, chains: Chains, names: Names, rank: map<int, nat>, p: int, it: Dir.Item)
    requires Good(s, chains, names, rank) && p in names && it in names[p] && it in Entries(s, p)
    requires !Dot(it) && Dir.IsDirItem(it) && it.clus in names
    requires forall jt :: jt in names[it.clus] ==> Dot(jt) || jt.clus < 2
    ensures Shaped(s) && Owns(Removed(s, p, it))
  {
    hide Good, Keeps, TreeOk, DirOf, Shaped, Dot, Less, Gone, Freed, Dropped, Deleted, Entries, Owns, Removed;
    RemovedIs(s, chains, names, rank, p, it);
    var d := Deleted(s, p, it.pos);
    RemovedDir(s, d, chains, names, rank, p, it);
    GoodOwns(Dropped(d, it.clus), Freed(chains, it.clus), Gone(names, p, it), rank - {it.clus});
  }

  // ----- Something is lost -----

  /** No directory that is still reached is the removed one or the hidden one. */
  lemma {:induction false} Unreached(s: Volume, u: Volume, chains: Chains, names: Names, rank: map<int, nat>, p: int,
                                     it: Dir.Item, jt: Dir.Item, y: int, n: nat)
    requires Good(s, chains, names, rank) && p in names && it in names[p] && !Dot(it) && Dir.IsDirItem(it)
    requires it.clus in names && jt in names[it.clus] && !Dot(jt) && jt.clus >= 2
    requires u.root == s.root && AllHold(u, Gone(names, p, it)) && DirAt(u, y, n)
    ensures y in names && y != it.clus && y != jt.clus
    decreases n
  {
    hide Keeps, AllHold, AllNamed, Dot, Entries, Gone;
    if n == 0 {
      Deeper1(names, s.root, chains.Keys, rank, p, it);
      RootUnnamed(names, s.root, chains.Keys, rank, it.clus, jt);
    } else {
      var q, k :| DirAt(u, q, n - 1) && NamesAt(u, q, k, y) && Dir.IsDirItem(Entries(u, q)[k]);
      Unreached(s, u, chains, names, rank, p, it, jt, q, n - 1);
      StillNamed(s, u, chains, names, rank, p, it, jt, q, k, y);
      assert EntryOk(names, chains.Keys, rank, q, Entries(u, q)[k]);
    }
  }

  /** What an entry of a directory that is still there names. */
  lemma StillNamed(s: Volume, u: Volume, chains: Chains, names: Names, rank: map<int, nat>, p: int,
                   it: Dir.Item, jt: Dir.Item, q: int, k: int, y: int)
    requires Good(s, chains, names, rank) && p in names && it in names[p] && !Dot(it) && Dir.IsDirItem(it)
    requires it.clus in names && jt in names[it.clus] && !Dot(jt) && jt.clus >= 2
    requires AllHold(u, Gone(names, p, it)) && NamesAt(u, q, k, y) && q in names && q != it.clus
    ensures Entries(u, q)[k] in names[q] && y in chains && y != it.clus && y != jt.clus
  {
    hide AllHold, AllNamed, Dot, Entries, Own, Shaped;
    var e := Entries(u, q)[k];
    GoneEntry(names, p, it, q, e);
    InEntries(u, Gone(names, p, it), q, e);
    hide Gone;
    assert EntryOk(names, chains.Keys, rank, q, e) && EntryOk(names, chains.Keys, rank, p, it);
    OneName(names, p, it, q, e);
    OneName(names, it.clus, jt, q, e);
  }

  lemma GoneEntry(names: Names, p: int, it: Dir.Item, q: int, e: Dir.Item)
    requires p in names && q in names && q != it.clus
    ensures q in Gone(names, p, it)
    ensures e in Gone(names, p, it)[q] <==> e in names[q] && !(q == p && e == it)
  {
  }

  lemma NotLive(s: Volume, u: Volume, chains: Chains, names: Names, rank: map<int, nat>, p: int,
                it: Dir.Item, jt: Dir.Item, y: int)
    requires Good(s, chains, names, rank) && p in names && it in names[p] && !Dot(it) && Dir.IsDirItem(it)
    requires it.clus in names && jt in names[it.clus] && !Dot(jt) && jt.clus >= 2
    requires u.root == s.root && AllHold(u, Gone(names, p, it)) && Live(u, y)
    ensures y in chains && y != it.clus && y != jt.clus
  {
    hide Good, AllHold, Dot, Entries, Gone, Own, Shaped, NamesAt, DirAt;
    GoodShaped(s, chains, names, rank);
    if y == u.root {
      RootIn(names, s.root, chains.Keys, rank);
      Deeper1(names, s.root, chains.Keys, rank, p, it);
      RootUnnamed(names, s.root, chains.Keys, rank, it.clus, jt);
    } else {
      var q, k :| LiveDir(u, q) && NamesAt(u, q, k, y);
      var n: nat :| DirAt(u, q, n);
      Unreached(s, u, chains, names, rank, p, it, jt, q, n);
      StillNamed(s, u, chains, names, rank, p, it, jt, q, k, y);
    }
  }

  /** The chain of a hidden entry is still in use and nobody's. */
  lemma SomethingLost(s: Volume, chains: Chains, names: Names, rank: map<int, nat>, p: int, it: Dir.Item, jt: Dir.Item)
    requires Good(s, chains, names, rank) && p in names && it in names[p] && it in Entries(s, p)
    requires !Dot(it) && Dir.IsDirItem(it) && it.clus in names
    requires jt in names[it.clus] && !Dot(jt) && jt.clus >= 2
    ensures Shaped(s) && !Owns(Removed(s, p, it))
  {
    hide Good, Dot, Entries, Gone, Less, Shaped, Keeps, Removed, Deleted, Dropped, DirOf, Freed, Owns;
    RemovedDisk(s, chains, names, rank, p, it);
    RemovedIs(s, chains, names, rank, p, it);
    LostBy(s, Removed(s, p, it), chains, names, rank, p, it, jt);
  }

  lemma LostBy(s: Volume, u: Volume, chains: Chains, names: Names, rank: map<int, nat>, p: int, it: Dir.Item,
               jt: Dir.Item)
    requires Good(s, chains, names, rank) && p in names && it in names[p] && !Dot(it) && Dir.IsDirItem(it)
    requires it.clus in names && jt in names[it.clus] && !Dot(jt) && jt.clus >= 2
    requires u.root == s.root && Keeps(u, Freed(chains, it.clus), Gone(names, p, it))
    ensures !Owns(u)
  {
    hide Good, AllHold, Dot, Gone, Own, Shaped, Keeps, Live, Freed;
    HiddenHead(s, chains, names, rank, it.clus, jt);
    KeepsOwn(u, Freed(chains, it.clus), Gone(names, p, it));
    KeepsHeld(u, Freed(chains, it.clus), Gone(names, p, it));
    if Owns(u) {
      var other: Chains :| Own(u.v, other) && forall x :: x in other <==> Live(u, x);
      OtherOwner(s, u, chains, names, rank, p, it, jt, other);
      NoOwner(u.v, Freed(chains, it.clus), other, jt.clus);
    }
  }

  lemma KeepsHeld(s: Volume, chains: Chains, names: Names)
    requires Keeps(s, chains, names)
    ensures AllHold(s, names)
  {
    hide Own, Shaped, AllHold;
  }

  lemma OtherOwner(s: Volume, u: Volume, chains: Chains, names: Names, rank: map<int, nat>, p: int,
                   it: Dir.Item, jt: Dir.Item, other: Chains)
    requires Good(s, chains, names, rank) && p in names && it in names[p] && !Dot(it) && Dir.IsDirItem(it)
    requires it.clus in names && jt in names[it.clus] && !Dot(jt) && jt.clus >= 2
    requires u.root == s.root && AllHold(u, Gone(names, p, it)) && forall x :: x in other <==> Live(u, x)
    ensures jt.clus !in other && forall g :: g in other ==> g in Freed(chains, it.clus)
  {
    hide Good, AllHold, Dot, Gone, Live;
    forall g | g in other
      ensures g in Freed(chains, it.clus) && g != jt.clus
    {
      NotLive(s, u, chains, names, rank, p, it, jt, g);
    }
  }

  lemma HiddenHead(s: Volume, chains: Chains, names: Names, rank: map<int, nat>, x: int, jt: Dir.Item)
    requires Good(s, chains, names, rank) && x in names && jt in names[x] && !Dot(jt) && jt.clus >= 2
    ensures jt.clus in Freed(chains, x)
  {
    hide Own, AllHold, NamedOnce, AllNamed, Shaped;
    assert EntryOk(names, chains.Keys, rank, x, jt);
  }

  lemma RmdirIs(s: Volume, chains: Chains, names: Names, rank: map<int, nat>, dir: int, leaf: Name)
    requires Good(s, chains, names, rank) && dir in names && leaf != [] && leaf[0] != DOT && Lookup(s, dir, leaf).Some?
    requires var it := Lookup(s, dir, leaf).value;
             && Dir.IsDirItem(it) && it.clus >= 2 && Tree.IsEmpty(DirOf(s, it.clus))
             && it in names[dir] && it in Entries(s, dir)
    ensures Shaped(s) && Rmdir(s, dir, leaf) == Removed(s, dir, Lookup(s, dir, leaf).value)
  {
    hide Good, Lookup, Tree.IsEmpty, DirOf, Entries, Dropped, Deleted, Keeps;
    RemovedIs(s, chains, names, rank, dir, Lookup(s, dir, leaf).value);
  }

  /** Removing a directory that passes the emptiness test leaves every used cluster owned
      exactly if no entry of it other than "." and ".." names a chain. */
  lemma RmdirExactlyIf(s: Volume, dir: int, leaf: Name)
    requires InOrder(s) && LiveDir(s, dir) && leaf != [] && leaf[0] != DOT && Lookup(s, dir, leaf).Some?
    requires var it := Lookup(s, dir, leaf).value;
             Dir.IsDirItem(it) && it.clus >= 2 && Tree.IsEmpty(DirOf(s, it.clus))
    ensures Shaped(s)
    ensures Owns(Rmdir(s, dir, leaf)) <==> NamesNothing(s, Lookup(s, dir, leaf).value.clus)
  {
    hide Good, LiveDir, Lookup, Tree.IsEmpty, DirOf, Entries, Dot, Dropped, Deleted;
    var chains: Chains, names: Names, rank: map<int, nat> :| Good(s, chains, names, rank);
    hide InOrder;
    GoodShaped(s, chains, names, rank);
    LiveDirs(s, chains, names, rank, dir);
    var it := Lookup(s, dir, leaf).value;
    FoundDir(s, chains, names, rank, dir, leaf);
    RmdirIs(s, chains, names, rank, dir, leaf);
    hide Rmdir, Removed, Keeps, TreeOk, Owns;
    SameNames(s, chains, names, it.clus);
    if NamesNothing(s, it.clus) {
      NothingLost(s, chains, names, rank, dir, it);
    } else {
      var jt :| jt in Entries(s, it.clus) && !Dot(jt) && jt.clus >= 2;
      SomethingLost(s, chains, names, rank, dir, it, jt);
    }
  }

  lemma SameNames(s: Volume, chains: Chains, names: Names, x: int)
    requires Keeps(s, chains, names) && x in names
    ensures forall jt :: jt in names[x] <==> jt in Entries(s, x)
  {
    hide Own, Shaped, Formed, Entries;
    assert Holds(s, x, names[x]);
  }
}
