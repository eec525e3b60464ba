/** Whole operations of fs/fat32.c on the allocation level.  The start clusters of live
    files and directories are `heads`. */
module FatFiles {
  import opened FatChain
  import opened FatOwner

  datatype Sys = Sys(v: Vol, heads: set<int>)

  /** `e` is the start cluster of the entry found (0 for an empty file), `n` the
      clusters the new contents need, `dir` the parent directory. */
  datatype Op =
    | Overwrite(e: int, n: nat)
    | Create(n: nat, dir: int, slot: Storing)
    | Remove(e: int)
    | MakeDir(dir: int, slot: Storing)

  /** Freeing what an entry points to; clusters 0 and 1 mean nothing. */
  function Drop(v: Vol, e: int): Vol {
    if e >= 2 then Free(v, e) else v
  }

  function Heads(f: int): set<int> {
    if f != 0 then {f} else {}
  }

  /** New contents first, then the entry, and only then the old chain is freed. */
  function Step(s: Sys, op: Op): Sys {
    match op
    case Overwrite(e, n) =>
      var a := AllocMore(s.v, 0, 0, n);
      (match a.1
       case Full => Sys(a.0, s.heads)
       case Granted(f) => Sys(Drop(a.0, e), s.heads + Heads(f) - {e}))
    case Create(n, dir, slot) =>
      var a := AllocMore(s.v, 0, 0, n);
      (match a.1
       case Full => Sys(a.0, s.heads)
       case Granted(f) =>
         var p := PutEntry(a.0, dir, slot);
         if p.1 then Sys(p.0, s.heads + Heads(f)) else Sys(Drop(p.0, f), s.heads))
    case Remove(e) => Sys(Drop(s.v, e), s.heads - {e})
    case MakeDir(dir, slot) =>
      var a := Alloc(s.v);
      if a.1 == 0 then Sys(a.0, s.heads)
      else
        var p := PutEntry(a.0, dir, slot);
        if p.1 then Sys(p.0, s.heads + {a.1}) else Sys(Drop(p.0, a.1), s.heads)
  }

  /** Operations only name entries and directories that exist. */
  predicate Legal(s: Sys, op: Op) {
    match op
    case Overwrite(e, _) => e < 2 || e in s.heads
    case Create(_, dir, _) => dir in s.heads
    case Remove(e) => e < 2 || e in s.heads
    case MakeDir(dir, _) => dir in s.heads
  }

  /** The ownership invariant, over the chains a walk from each head visits. */
  ghost predicate Owns(s: Sys) {
    exists chains: Chains :: chains.Keys == s.heads && Own(s.v, chains)
  }

  /** What the invariant says about walks on the table itself. */
  lemma OwnsMeans(s: Sys)
    requires Owns(s)
    ensures forall h :: h in s.heads ==> Ends(s.v.t, h) && h in Chain(s.v.t, h)
    ensures forall h, c :: h in s.heads && c in Chain(s.v.t, h) ==> Valid(s.v.t, c) && s.v.t[c] != 0
    ensures forall g, h, c :: g in s.heads && h in s.heads && c in Chain(s.v.t, g) && c in Chain(s.v.t, h) ==> g == h
    ensures forall c :: Valid(s.v.t, c) && s.v.t[c] != 0 ==> exists h :: h in s.heads && c in Chain(s.v.t, h)
    ensures s.v.freeCount == |FreeSet(s.v.t)|
  {
    hide FreeSet, Chain, Ends, IsChain, Fits, Disjoint, Owned;
    var chains: Chains :| chains.Keys == s.heads && Own(s.v, chains);
    var t := s.v.t;
    forall h | h in chains
      ensures Chain(t, h) == chains[h] && Ends(t, h) && h in chains[h]
    {
      ChainShort(t, chains[h]);
      HeadIn(t, chains[h]);
    }
    forall h, c | h in s.heads && c in Chain(t, h)
      ensures Valid(t, c) && t[c] != 0
    {
      ChainUsed(t, chains[h], c);
    }
    hide Chained;
    DisjointMeans(chains);
    OwnedMeans(t, chains);
  }

  lemma HeadIn(t: Table, q: seq<int>)
    requires IsChain(t, q)
    ensures q[0] in q
  {
  }

  lemma DisjointMeans(chains: Chains)
    requires Disjoint(chains)
    ensures forall g, h, c :: g in chains.Keys && h in chains.Keys && c in chains[g] && c in chains[h] ==> g == h
  {
  }

  lemma OwnedMeans(t: Table, chains: Chains)
    requires Owned(t, chains)
    ensures forall c :: Valid(t, c) && t[c] != 0 ==> exists h :: h in chains.Keys && c in chains[h]
  {
    forall c | Valid(t, c) && t[c] != 0
      ensures exists h :: h in chains.Keys && c in chains[h]
    {
      assert HasOwner(chains, c);
    }
  }

  // ----- Each step keeps it -----

  lemma DropKeeps(v: Vol, chains: Chains, e: int)
    requires Own(v, chains) && (e < 2 || e in chains)
    ensures Own(Drop(v, e), chains - {e})
  {
    hide Own, Free;
    if e >= 2 {
      FreeKeeps(v, chains, e);
    } else {
      NoLowHead(v, chains, e);
      assert chains - {e} == chains;
    }
  }

  lemma NoLowHead(v: Vol, chains: Chains, e: int)
    requires Own(v, chains) && e < 2
    ensures e !in chains
  {
    hide Disjoint, Owned, Fits, FreeSet, NoDup, Linked;
    forall h | h in chains
      ensures h >= 2
    {
      assert Valid(v.t, chains[h][0]) by { assert IsChain(v.t, chains[h]); }
    }
  }

  /** The last cluster of a directory scan is the last of the owned chain. */
  lemma LastIs(v: Vol, chains: Chains, dir: int)
    requires Own(v, chains) && dir in chains
    ensures |chains[dir]| > 0 && LastOf(v.t, dir) == chains[dir][|chains[dir]| - 1]
    ensures Valid(v.t, LastOf(v.t, dir)) && LastOf(v.t, dir) in chains[dir]
  {
    hide Disjoint, Owned, Fits, FreeSet, NoDup, Linked;
    assert IsChain(v.t, chains[dir]) && chains[dir][0] == dir;
    ChainShort(v.t, chains[dir]);
  }

  /** Growing a directory lengthens its chain; nothing else changes owner. */
  lemma PutKeeps(v: Vol, chains: Chains, dir: int, slot: Storing) returns (more: Chains)
    requires Own(v, chains) && dir in chains
    ensures Own(PutEntry(v, dir, slot).0, more) && more.Keys == chains.Keys
    ensures forall h :: h in chains && h != dir ==> more[h] == chains[h]
    ensures !PutEntry(v, dir, slot).1 ==> PutEntry(v, dir, slot).0 == v && more == chains
    ensures slot == Grow ==> (PutEntry(v, dir, slot).1 <==> Alloc(v).1 != 0)
    ensures slot == Grow && Alloc(v).1 != 0 ==> more[dir] == chains[dir] + [Alloc(v).1]
  {
    hide Own, Alloc;
    more := chains;
    if slot == Grow {
      var a := Alloc(v);
      AllocKeeps(v, chains);
      LastIs(v, chains, dir);
      if a.1 != 0 {
        var wide := chains[a.1 := [a.1]];
        LastIs(a.0, wide, dir);
        LinkKeeps(a.0, wide, dir, a.1);
        more := Joined(wide, dir, a.1);
      }
    }
  }

  lemma WithKeys(chains: Chains, q: seq<int>)
    requires q != [] ==> q[0] != 0
    ensures With(chains, q).Keys == chains.Keys + Heads(First(q))
  {
  }

  lemma StepOwns(s: Sys, op: Op)
    requires Owns(s) && Legal(s, op)
    ensures Owns(Step(s, op))
  {
    hide Own, Alloc, PutEntry, Drop, AllocMore;
    var chains: Chains :| chains.Keys == s.heads && Own(s.v, chains);
    match op {
      case Overwrite(e, n) => OverwriteOwns(s, chains, e, n);
      case Create(n, dir, slot) => CreateOwns(s, chains, n, dir, slot);
      case Remove(e) =>
        DropKeeps(s.v, chains, e);
        assert (chains - {e}).Keys == s.heads - {e};
      case MakeDir(dir, slot) => MakeDirOwns(s, chains, dir, slot);
    }
  }

  lemma OwnIsNeat(v: Vol, chains: Chains)
    requires Own(v, chains)
    ensures Neat(v.t, chains)
  {
    hide Neat, Owned;
  }

  /** The new chain of a granted allocation, apart from all live ones. */
  lemma AllocOwns(v: Vol, chains: Chains, n: nat) returns (r: seq<int>)
    requires Own(v, chains)
    ensures match AllocMore(v, 0, 0, n).1
            case Granted(f) => f == First(r) && |r| == n && (r != [] ==> f !in chains && f != 0)
                               && Own(AllocMore(v, 0, 0, n).0, With(chains, r))
                               && OnlyTook(v.t, AllocMore(v, 0, 0, n).0.t, r)
            case Full => n > 0 && Own(AllocMore(v, 0, 0, n).0, chains)
                         && AllocMore(v, 0, 0, n).0.t == v.t && AllocMore(v, 0, 0, n).0.freeCount == v.freeCount
  {
    hide Own, AllocMore;
    OwnIsNeat(v, chains);
    BuildingStart(v, chains);
    r := AllocMoreKeeps(v, v, chains, [], n);
  }

  lemma OverwriteOwns(s: Sys, chains: Chains, e: int, n: nat)
    requires Own(s.v, chains) && chains.Keys == s.heads && Legal(s, Overwrite(e, n))
    ensures Owns(Step(s, Overwrite(e, n)))
  {
    hide Own, Drop, AllocMore;
    var r := AllocOwns(s.v, chains, n);
    var a := AllocMore(s.v, 0, 0, n);
    if a.1.Granted? {
      WithKeys(chains, r);
      var all := With(chains, r);
      DropKeeps(a.0, all, e);
      assert (all - {e}).Keys == s.heads + Heads(a.1.first) - {e};
    }
  }

  lemma CreateOwns(s: Sys, chains: Chains, n: nat, dir: int, slot: Storing)
    requires Own(s.v, chains) && chains.Keys == s.heads && Legal(s, Create(n, dir, slot))
    ensures Owns(Step(s, Create(n, dir, slot)))
  {
    hide Own, Drop, AllocMore, PutEntry;
    var r := AllocOwns(s.v, chains, n);
    var a := AllocMore(s.v, 0, 0, n);
    if a.1.Granted? {
      WithKeys(chains, r);
      var all := With(chains, r);
      var more := PutKeeps(a.0, all, dir, slot);
      var p := PutEntry(a.0, dir, slot);
      if !p.1 {
        UndoOwns(p.0, chains, r);
      } else {
        assert more.Keys == s.heads + Heads(a.1.first);
      }
    }
  }

  /** The entry was refused: the new chain goes, the rest stays. */
  lemma UndoOwns(v: Vol, chains: Chains, r: seq<int>)
    requires Own(v, With(chains, r)) && (r != [] ==> r[0] !in chains && r[0] != 0)
    ensures Own(Drop(v, First(r)), chains)
  {
    hide Own, Drop;
    if r == [] {
      assert Drop(v, 0) == v by { LowDrop(v); }
    } else {
      var all := With(chains, r);
      DropKeeps(v, all, r[0]);
      assert all - {r[0]} == chains;
    }
  }

  lemma LowDrop(v: Vol)
    ensures Drop(v, 0) == v
  {
  }

  lemma MakeDirOwns(s: Sys, chains: Chains, dir: int, slot: Storing)
    requires Own(s.v, chains) && chains.Keys == s.heads && Legal(s, MakeDir(dir, slot))
    ensures Owns(Step(s, MakeDir(dir, slot)))
  {
    hide Own, Drop, Alloc, PutEntry;
    AllocKeeps(s.v, chains);
    var a := Alloc(s.v);
    if a.1 != 0 {
      var all := chains[a.1 := [a.1]];
      var more := PutKeeps(a.0, all, dir, slot);
      var p := PutEntry(a.0, dir, slot);
      if !p.1 {
        DropKeeps(p.0, all, a.1);
        assert all - {a.1} == chains;
      } else {
        assert more.Keys == s.heads + {a.1};
      }
    }
  }

  // ----- A full disk -----

  /** A write that finds the disk full leaves the table and the free count exactly
      as they were, and it finds it full exactly when it needs more than is free. */
  lemma DiskFullRestores(s: Sys, n: nat)
    requires Owns(s)
    ensures var a := AllocMore(s.v, 0, 0, n);
            && (a.1.Full? <==> n > |FreeSet(s.v.t)|)
            && (a.1.Full? ==> a.0.t == s.v.t && a.0.freeCount == s.v.freeCount)
            && (a.1.Granted? ==> |FreeSet(a.0.t)| == |FreeSet(s.v.t)| - n)
  {
    hide Own, AllocMore;
    var chains: Chains :| chains.Keys == s.heads && Own(s.v, chains);
    var r := AllocOwns(s.v, chains, n);
    OwnIsNeat(s.v, chains);
    BuildingStart(s.v, chains);
    GrantedIfRoom(s.v, chains, [], s.v, n);
  }

  lemma AllocCount(v: Vol, chains: Chains)
    requires Neat(v.t, chains)
    ensures Alloc(v).1 == 0 ==> |FreeSet(v.t)| == 0
    ensures Alloc(v).1 != 0 ==> |FreeSet(Alloc(v).0.t)| == |FreeSet(v.t)| - 1
  {
    hide Neat, FreeSet, Alloc;
    AllocNeat(v, chains);
    var c := Alloc(v).1;
    if c != 0 {
      TakeOne(v.t, c, EOC);
    }
  }

  lemma LinkCount(v: Vol, v0: Vol, chains: Chains, q: seq<int>)
    requires Building(v0, v, chains, q) && Alloc(v).1 != 0
    ensures var a := Alloc(v);
            var w := if q == [] then a.0 else SetNext(a.0, Last(q), a.1);
            |FreeSet(w.t)| == |FreeSet(v.t)| - 1
  {
    hide Own, Neat, Alloc, FreeSet;
    var a := Alloc(v);
    AllocNeat(v, With(chains, q));
    AllocCount(v, With(chains, q));
    if q != [] {
      var more := With(chains, q)[a.1 := [a.1]];
      LinkSame(a.0, more, q[0], a.1);
      assert more[q[0]] == q;
    }
  }

  lemma LinkSame(v: Vol, chains: Chains, h: int, c: int)
    requires Neat(v.t, chains) && h in chains && c in chains
    ensures var q := chains[h];
            |q| > 0 && Valid(v.t, q[|q| - 1]) && FreeSet(SetNext(v, q[|q| - 1], c).t) == FreeSet(v.t)
  {
    hide Chained, Disjoint, FreeSet;
    LinkTable(v.t, chains, h, c);
  }

  lemma {:induction false} GrantedIfRoom(v: Vol, chains: Chains, q: seq<int>, v0: Vol, k: nat)
    requires Building(v0, v, chains, q)
    ensures var a := AllocMore(v, First(q), Last(q), k);
            && (a.1.Full? <==> k > |FreeSet(v.t)|)
            && (a.1.Granted? ==> |FreeSet(a.0.t)| == |FreeSet(v.t)| - k)
    decreases k
  {
    hide Own, Neat, Alloc, FreeSet;
    if k > 0 {
      AllocCount(v, With(chains, q));
      var a := Alloc(v);
      if a.1 != 0 {
        Extends(v0, v, chains, q);
        LinkCount(v, v0, chains, q);
        var w := if q == [] then a.0 else SetNext(a.0, Last(q), a.1);
        GrantedIfRoom(w, chains, q + [a.1], v0, k - 1);
      }
    }
  }
}
