/** The whole volume of fs/fat32.c for the question who owns which cluster: the table,
    and the data area read as directory slots.  What is live is what the entries on the
    disk name, starting at the root. */
module FatLive {
  import opened Basics
  import opened FatChain
  import opened FatOwner
  import opened FatLfn
  import opened FatNaming
  import Dir = FatDir
  import Tree = FatTree
  import Runs = FatRuns

  type Slots = Dir.Slots

  /** `area` has the slots of every cluster, whatever the cluster is used for; a cluster
      has `per` slots. */
  datatype Volume = Volume(v: Vol, area: seq<Slots>, root: int, per: nat)

  // ----- Directories on the disk -----

  function At(area: seq<Slots>, c: int): Slots {
    if 0 <= c < |area| then area[c] else []
  }

  /** The slots of these clusters one behind the other. */
  function Flat(area: seq<Slots>, q: seq<int>): Slots
    decreases |q|
  {
    if q == [] then [] else At(area, q[0]) + Flat(area, q[1..])
  }

  /** The slots a scan from cluster `h` visits. */
  function DirOf(s: Volume, h: int): Slots {
    Flat(s.area, Chain(s.v.t, h))
  }

  function Entries(s: Volume, h: int): seq<Dir.Item> {
    Dir.Items(DirOf(s, h))
  }

  /** Every cluster has the slots of whole sectors. */
  ghost predicate Shaped(s: Volume) {
    && s.per >= 16 && s.per % 16 == 0 && |s.area| == |s.v.t|
    && forall c :: 0 <= c < |s.area| ==> |s.area[c]| == s.per
  }

  /** The number of slots in as many clusters. */
  function Span(q: seq<int>, per: nat): nat
    decreases |q|
  {
    if q == [] then 0 else per + Span(q[1..], per)
  }

  lemma {:induction false} SpanWhole(q: seq<int>, per: nat)
    requires per >= 16 && per % 16 == 0
    ensures Span(q, per) % per == 0 && Span(q, per) % 16 == 0
    decreases |q|
  {
    if q != [] {
      SpanWhole(q[1..], per);
      PerMore(Span(q[1..], per), per);
    } else {
      PerNone(per);
    }
  }

  lemma PerMore(n: nat, per: nat)
    requires per > 0 && per % 16 == 0 && n % per == 0 && n % 16 == 0
    ensures (per + n) % per == 0 && (per + n) % 16 == 0
  {
    Runs.AddOne(n, per);
    Sixteens(n, per);
  }

  lemma Sixteens(n: nat, per: nat)
    requires per % 16 == 0 && n % 16 == 0
    ensures (per + n) % 16 == 0
  {
  }

  lemma PerNone(per: nat)
    requires per > 0
    ensures 0 % per == 0
  {
  }

  lemma {:induction false} SpanMore(q: seq<int>, c: int, per: nat)
    ensures Span(q + [c], per) == Span(q, per) + per
    decreases |q|
  {
    if q == [] {
      assert [c][1..] == [];
    } else {
      assert (q + [c])[1..] == q[1..] + [c];
      SpanMore(q[1..], c, per);
    }
  }

  ghost predicate InArea(area: seq<Slots>, q: seq<int>, per: nat) {
    forall i :: 0 <= i < |q| ==> 0 <= q[i] < |area| && |area[q[i]]| == per
  }

  lemma {:induction false} FlatLength(area: seq<Slots>, q: seq<int>, per: nat)
    requires InArea(area, q, per)
    ensures |Flat(area, q)| == Span(q, per)
    decreases |q|
  {
    if q != [] {
      FlatLength(area, q[1..], per);
    }
  }

  /** Other clusters do not matter. */
  lemma {:induction false} FlatSame(a: seq<Slots>, b: seq<Slots>, q: seq<int>)
    requires forall c :: c in q ==> At(a, c) == At(b, c)
    ensures Flat(a, q) == Flat(b, q)
    decreases |q|
  {
    if q != [] {
      FlatSame(a, b, q[1..]);
    }
  }

  /** Slots written over the clusters `q`, one cluster after the other. */
  function Stored(area: seq<Slots>, q: seq<int>, d: Slots, per: nat): (r: seq<Slots>)
    ensures |r| == |area|
    ensures forall c :: 0 <= c < |area| && c !in q ==> r[c] == area[c]
    ensures (forall c :: 0 <= c < |area| ==> |area[c]| == per) ==> forall c :: 0 <= c < |r| ==> |r[c]| == per
    decreases |q|
  {
    if q == [] || !(0 <= q[0] < |area|) || |d| < per then area
    else Stored(area[q[0] := d[..per]], q[1..], d[per..], per)
  }

  lemma {:induction false} StoredFlat(area: seq<Slots>, q: seq<int>, d: Slots, per: nat)
    requires InArea(area, q, per) && NoDup(q) && |d| == Span(q, per)
    ensures Flat(Stored(area, q, d, per), q) == d
    decreases |q|
  {
    if q != [] {
      var a1, rest := area[q[0] := d[..per]], q[1..];
      assert forall i :: 0 <= i < |rest| ==> rest[i] == q[i + 1];
      StoredFlat(a1, rest, d[per..], per);
      var r := Stored(a1, rest, d[per..], per);
      assert r[q[0]] == a1[q[0]];
      assert d == d[..per] + d[per..];
    }
  }

  // ----- What is live -----

  /** The k-th entry of directory `p` names the chain from `x`. */
  ghost predicate NamesAt(s: Volume, p: int, k: int, x: int) {
    0 <= k < |Entries(s, p)| && !Dot(Entries(s, p)[k]) && Entries(s, p)[k].clus == x && x >= 2
  }

  /** Directory `x` is reached from the root in `n` steps. */
  ghost predicate DirAt(s: Volume, x: int, n: nat)
    decreases n
  {
    if n == 0 then x == s.root
    else exists p, k :: DirAt(s, p, n - 1) && NamesAt(s, p, k, x) && Dir.IsDirItem(Entries(s, p)[k])
  }

  ghost predicate LiveDir(s: Volume, x: int) {
    exists n: nat :: DirAt(s, x, n)
  }

  /** The root, and what entries of live directories name. */
  ghost predicate Live(s: Volume, x: int) {
    x == s.root || exists p, k :: LiveDir(s, p) && NamesAt(s, p, k, x)
  }

  /** The ownership invariant: the chains from the live start clusters are acyclic,
      disjoint and inside the data area, no other cluster is in use, and the free count
      is exact. */
  ghost predicate Owns(s: Volume) {
    exists chains: Chains :: Own(s.v, chains) && forall x :: x in chains <==> Live(s, x)
  }

  // ----- Well-formed volumes -----

  /** Well-formed slots, with every long-name run in one cluster. */
  ghost predicate Formed(d: Slots, per: nat) {
    per > 0 && Dir.Tidy(d, Idle) && Runs.Near(d, per)
  }

  /** The disk holds directory `p` with these entries. */
  ghost predicate Holds(s: Volume, p: int, entries: set<Dir.Item>) {
    Formed(DirOf(s, p), s.per) && forall it :: it in entries <==> it in Entries(s, p)
  }

  ghost predicate AllHold(s: Volume, names: Names) {
    forall p :: p in names ==> Holds(s, p, names[p])
  }

  /** `chains` are owned, and the directories among them have the entries `names`. */
  ghost predicate Keeps(s: Volume, chains: Chains, names: Names) {
    Shaped(s) && Own(s.v, chains) && names.Keys <= chains.Keys && AllHold(s, names)
  }

  /** A volume in order: a tree of well-formed directories in which everything that is
      used has one name. */
  ghost predicate Good(s: Volume, chains: Chains, names: Names, rank: map<int, nat>) {
    Keeps(s, chains, names) && TreeOk(names, s.root, chains.Keys, rank)
  }

  ghost predicate InOrder(s: Volume) {
    exists chains: Chains, names: Names, rank: map<int, nat> :: Good(s, chains, names, rank)
  }

  /** ... with "." and ".." where they belong, and no entry that passes for one of them. */
  ghost predicate WellKept(s: Volume) {
    exists chains: Chains, names: Names, rank: map<int, nat> :: Good(s, chains, names, rank) && Proper(names, s.root)
  }

  /** The same, with the tree and the chains named. */
  ghost predicate KeptAs(s: Volume, chains: Chains, names: Names, rank: map<int, nat>) {
    Good(s, chains, names, rank) && Proper(names, s.root)
  }

  // ----- Live is what the tree names -----

  /** The disk has the tree `names`, whatever else is in use. */
  ghost predicate Named(s: Volume, names: Names, heads: set<int>, rank: map<int, nat>) {
    AllHold(s, names) && TreeOk(names, s.root, heads, rank)
  }

  lemma InEntries(s: Volume, names: Names, p: int, it: Dir.Item)
    requires AllHold(s, names) && p in names
    ensures it in names[p] <==> it in Entries(s, p)
  {
    hide Formed;
    assert Holds(s, p, names[p]);
  }

  /** A directory that is reached is in the tree, at its depth. */
  lemma {:induction false} ReachedIn(s: Volume, names: Names, heads: set<int>, rank: map<int, nat>, x: int, n: nat)
    requires Named(s, names, heads, rank) && DirAt(s, x, n)
    ensures x in names && rank[x] == n
    decreases n
  {
    hide AllHold, NamedOnce, AllNamed, Entries;
    if n > 0 {
      var p, k :| DirAt(s, p, n - 1) && NamesAt(s, p, k, x) && Dir.IsDirItem(Entries(s, p)[k]);
      ReachedIn(s, names, heads, rank, p, n - 1);
      InEntries(s, names, p, Entries(s, p)[k]);
      assert EntryOk(names, heads, rank, p, Entries(s, p)[k]);
    }
  }

  lemma DirStep(s: Volume, p: int, k: int, x: int, n: nat)
    requires DirAt(s, p, n) && NamesAt(s, p, k, x) && Dir.IsDirItem(Entries(s, p)[k])
    ensures DirAt(s, x, n + 1)
  {
  }

  lemma RootReached(s: Volume)
    ensures DirAt(s, s.root, 0)
  {
  }

  /** Every directory of the tree is reached. */
  lemma {:induction false} InReached(s: Volume, names: Names, heads: set<int>, rank: map<int, nat>, x: int)
    requires Named(s, names, heads, rank) && x in names
    ensures DirAt(s, x, rank[x])
    decreases rank[x]
  {
    hide AllHold, NamedOnce, Entries, DirAt;
    if x != s.root {
      assert HasName(names, x);
      var p, it :| NamesIt(names, p, it, x);
      assert EntryOk(names, heads, rank, p, it);
      InReached(s, names, heads, rank, p);
      InEntries(s, names, p, it);
      var k :| 0 <= k < |Entries(s, p)| && Entries(s, p)[k] == it;
      DirStep(s, p, k, x, rank[p]);
    } else {
      RootReached(s);
    }
  }

  lemma DirsNamed(s: Volume, names: Names, heads: set<int>, rank: map<int, nat>, x: int)
    requires Named(s, names, heads, rank)
    ensures LiveDir(s, x) <==> x in names
  {
    hide AllHold, NamedOnce, AllNamed, EntriesOk, DirAt;
    if LiveDir(s, x) {
      var n: nat :| DirAt(s, x, n);
      ReachedIn(s, names, heads, rank, x, n);
    }
    if x in names {
      InReached(s, names, heads, rank, x);
    }
  }

  /** What is live are the start clusters the tree names. */
  lemma LiveIs(s: Volume, names: Names, heads: set<int>, rank: map<int, nat>, x: int)
    requires Named(s, names, heads, rank)
    ensures Live(s, x) <==> x in heads
  {
    hide AllHold, NamedOnce, LiveDir;
    if Live(s, x) && x != s.root {
      var p, k :| LiveDir(s, p) && NamesAt(s, p, k, x);
      DirsNamed(s, names, heads, rank, p);
      InEntries(s, names, p, Entries(s, p)[k]);
      assert EntryOk(names, heads, rank, p, Entries(s, p)[k]);
    }
    if x in heads && x != s.root {
      assert HasName(names, x);
      var p, it :| NamesIt(names, p, it, x);
      DirsNamed(s, names, heads, rank, p);
      InEntries(s, names, p, it);
      var k :| 0 <= k < |Entries(s, p)| && Entries(s, p)[k] == it;
      assert LiveDir(s, p) && NamesAt(s, p, k, x);
    }
  }

  lemma GoodNamed(s: Volume, chains: Chains, names: Names, rank: map<int, nat>)
    requires Good(s, chains, names, rank)
    ensures Named(s, names, chains.Keys, rank) && Own(s.v, chains)
  {
    hide Own, TreeOk, AllHold, Shaped;
  }

  lemma LiveDirs(s: Volume, chains: Chains, names: Names, rank: map<int, nat>, x: int)
    requires Good(s, chains, names, rank)
    ensures LiveDir(s, x) <==> x in names
  {
    GoodNamed(s, chains, names, rank);
    DirsNamed(s, names, chains.Keys, rank, x);
  }

  lemma GoodOwns(s: Volume, chains: Chains, names: Names, rank: map<int, nat>)
    requires Good(s, chains, names, rank)
    ensures Owns(s)
  {
    hide Own, Owns, Live, Named, Good;
    GoodNamed(s, chains, names, rank);
    forall x
      ensures x in chains <==> Live(s, x)
    {
      LiveIs(s, names, chains.Keys, rank, x);
    }
    OwnsBy(s, chains);
  }

  lemma OwnsBy(s: Volume, chains: Chains)
    requires Own(s.v, chains) && forall x :: x in chains <==> Live(s, x)
    ensures Owns(s)
  {
    hide Own, Live;
  }

  // ----- The path walk -----

  /** dir_lookup. */
  function Lookup(s: Volume, dir: int, leaf: Name): Option<Dir.Item> {
    Dir.Find(Entries(s, dir), leaf)
  }

  /** walk_to_parent, without the last component; cluster 0 is the root. */
  function Walk(s: Volume, dir: int, comps: seq<Name>): Option<int>
    decreases |comps|
  {
    if comps == [] then Some(dir)
    else
      match Lookup(s, dir, comps[0])
      case None => None
      case Some(it) =>
        if !Dir.IsDirItem(it) then None else Walk(s, if it.clus != 0 then it.clus else s.root, comps[1..])
  }

  /** One component leads from a directory of the tree to one: an entry to the directory
      below, "." to the same, ".." to the one above. */
  lemma StepInTree(s: Volume, names: Names, heads: set<int>, rank: map<int, nat>, dir: int, it: Dir.Item)
    requires Named(s, names, heads, rank) && DotsOk(names, s.root) && dir in names && it in Entries(s, dir)
    requires Dir.IsDirItem(it)
    ensures (if it.clus != 0 then it.clus else s.root) in names
  {
    hide AllHold, NamedOnce, EntriesOk, Entries;
    InEntries(s, names, dir, it);
    assert EntryOk(names, heads, rank, dir, it) by { Entry1(names, heads, rank, dir, it); }
    assert DotOk(names, s.root, dir, it);
    if it.raw == Tree.DOTDOT_RAW {
      assert HasName(names, dir);
      var q, jt :| NamesIt(names, q, jt, dir);
    }
  }

  lemma Entry1(names: Names, heads: set<int>, rank: map<int, nat>, p: int, it: Dir.Item)
    requires EntriesOk(names, heads, rank) && p in names && it in names[p]
    ensures EntryOk(names, heads, rank, p, it)
  {
  }

  lemma {:induction false} WalkInTree(s: Volume, names: Names, heads: set<int>, rank: map<int, nat>, dir: int,
                                      comps: seq<Name>)
    requires Named(s, names, heads, rank) && DotsOk(names, s.root) && dir in names
    ensures Walk(s, dir, comps).Some? ==> Walk(s, dir, comps).value in names
    decreases |comps|
  {
    hide Named, DotsOk, Entries;
    if comps != [] && Lookup(s, dir, comps[0]).Some? && Dir.IsDirItem(Lookup(s, dir, comps[0]).value) {
      var it := Lookup(s, dir, comps[0]).value;
      StepInTree(s, names, heads, rank, dir, it);
      WalkInTree(s, names, heads, rank, if it.clus != 0 then it.clus else s.root, comps[1..]);
    }
  }

  /** Every path that can be walked ends in a live directory, dots included. */
  lemma WalkLives(s: Volume, comps: seq<Name>)
    requires WellKept(s) && Walk(s, s.root, comps).Some?
    ensures LiveDir(s, Walk(s, s.root, comps).value)
  {
    hide Good, LiveDir, Walk, Proper;
    var chains: Chains, names: Names, rank: map<int, nat> :| Good(s, chains, names, rank) && Proper(names, s.root);
    hide WellKept;
    GoodNamed(s, chains, names, rank);
    RootNamed(s, names, chains.Keys, rank);
    assert DotsOk(names, s.root) by { ProperDots(names, s.root); }
    WalkInTree(s, names, chains.Keys, rank, s.root, comps);
    LiveDirs(s, chains, names, rank, Walk(s, s.root, comps).value);
  }

  lemma RootNamed(s: Volume, names: Names, heads: set<int>, rank: map<int, nat>)
    requires Named(s, names, heads, rank)
    ensures s.root in names
  {
  }

  lemma ProperDots(names: Names, root: int)
    requires Proper(names, root)
    ensures DotsOk(names, root)
  {
  }

  /** In a volume in order "." names the directory it is in, and ".." the one whose entry
      names that directory, the root as 0; the root has neither name above it. */
  lemma DotsName(s: Volume, h: int, it: Dir.Item)
    requires WellKept(s) && LiveDir(s, h) && it in Entries(s, h)
    ensures it.raw == Tree.DOT_RAW ==> it.clus == h
    ensures it.raw == Tree.DOTDOT_RAW ==>
              h != s.root && exists p, k :: LiveDir(s, p) && NamesAt(s, p, k, h) && it.clus == UpTo(p, s.root)
  {
    hide Good, LiveDir, DotsOk, Clean;
    var chains: Chains, names: Names, rank: map<int, nat> :| Good(s, chains, names, rank) && Proper(names, s.root);
    GoodNamed(s, chains, names, rank);
    LiveDirs(s, chains, names, rank, h);
    DotsNamed(s, names, chains.Keys, rank, h, it);
  }

  lemma DotsNamed(s: Volume, names: Names, heads: set<int>, rank: map<int, nat>, h: int, it: Dir.Item)
    requires Named(s, names, heads, rank) && DotsOk(names, s.root) && h in names && it in Entries(s, h)
    ensures it.raw == Tree.DOT_RAW ==> it.clus == h
    ensures it.raw == Tree.DOTDOT_RAW ==>
              h != s.root && exists p, k :: LiveDir(s, p) && NamesAt(s, p, k, h) && it.clus == UpTo(p, s.root)
  {
    hide AllHold, NamedOnce, EntriesOk, LiveDir;
    InEntries(s, names, h, it);
    assert DotOk(names, s.root, h, it);
    if it.raw == Tree.DOTDOT_RAW {
      assert HasName(names, h);
      var p, jt :| NamesIt(names, p, jt, h);
      InEntries(s, names, p, jt);
      DirsNamed(s, names, heads, rank, p);
      var k :| 0 <= k < |Entries(s, p)| && Entries(s, p)[k] == jt;
      assert LiveDir(s, p) && NamesAt(s, p, k, h);
    }
  }
}
