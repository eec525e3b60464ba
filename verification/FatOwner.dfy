/** Who owns which cluster of fs/fat32.c.  A volume is its table, free count and
    next-free hint; `chains` maps the start cluster of every live file and
    directory to its clusters.  Writing, deleting, making and removing
    directories keep every chain acyclic, disjoint from the others and inside the
    data area, leave no cluster without an owner and the free count exact. */
module FatOwner {
  import opened FatChain

  const UNKNOWN := 0xFFFF_FFFF

  datatype Vol = Vol(t: Table, freeCount: int, nextFree: int)

  type Chains = map<int, seq<int>>

  // ----- The operations on the table -----

  /** fat_alloc_cluster: the cluster is 0 when the volume is full. */
  function Alloc(v: Vol): (r: (Vol, int))
    ensures |r.0.t| == |v.t| && (r.1 != 0 ==> Valid(v.t, r.1))
  {
    var c := AllocChoice(v.t, v.nextFree);
    AllocFinds(v.t, v.nextFree);
    if c == 0 then (v, 0)
    else (Vol(v.t[c := EOC],
              if v.freeCount != UNKNOWN && v.freeCount > 0 then v.freeCount - 1 else v.freeCount,
              2 + (c - 2 + 1) % (|v.t| - 2)), c)
  }

  function SetNext(v: Vol, c: int, value: int): Vol
    requires Valid(v.t, c)
  {
    v.(t := v.t[c := value])
  }

  /** fat_free_chain. */
  function Free(v: Vol, c: int): (r: Vol)
    ensures |r.t| == |v.t|
  {
    var r := FreeChain(v.t, c, v.nextFree);
    Vol(r.0, if r.1 > 0 && v.freeCount != UNKNOWN then v.freeCount + r.1 else v.freeCount, r.2)
  }

  datatype Grant = Full | Granted(first: int)

  /** The allocation loop of fat32_write_file: `k` more clusters behind `prev`
      (the first one if `first` is 0).  On a full volume the part is freed again. */
  function AllocMore(v: Vol, first: int, prev: int, k: nat): (r: (Vol, Grant))
    requires first != 0 ==> Valid(v.t, prev)
    ensures |r.0.t| == |v.t|
    decreases k
  {
    if k == 0 then (v, Granted(first))
    else
      var a := Alloc(v);
      if a.1 == 0 then (if first != 0 then Free(a.0, first) else a.0, Full)
      else if first == 0 then AllocMore(a.0, a.1, a.1, k - 1)
      else AllocMore(SetNext(a.0, prev, a.1), first, a.1, k - 1)
  }

  /** What storing a new directory entry needs: a slot that exists, one more
      cluster behind the directory, or it is refused before anything is written
      (name too long, no short alias left). */
  datatype Storing = InPlace | Grow | Refused

  function PutEntry(v: Vol, dir: int, slot: Storing): (r: (Vol, bool))
    ensures |r.0.t| == |v.t|
  {
    match slot
    case InPlace => (v, true)
    case Refused => (v, false)
    case Grow =>
      var a := Alloc(v);
      var last := LastOf(v.t, dir);
      if a.1 == 0 || !Valid(v.t, last) then (a.0, false)
      else (SetNext(a.0, last, a.1), true)
  }

  /** The last cluster a directory scan visits. */
  function LastOf(t: Table, dir: int): int {
    var q := Chain(t, dir);
    if q == [] then 0 else q[|q| - 1]
  }

  // ----- Ownership -----

  ghost predicate IsChain(t: Table, q: seq<int>) {
    && |q| > 0 && NoDup(q)
    && (forall i :: 0 <= i < |q| ==> Valid(t, q[i]))
    && Linked(t, q)
    && t[q[|q| - 1]] != 0 && !Valid(t, t[q[|q| - 1]])
  }

  ghost predicate Linked(t: Table, q: seq<int>) {
    forall i, j :: 0 <= i < |q| && j == i + 1 && j < |q| ==> Valid(t, q[i]) && t[q[i]] == q[j]
  }

  ghost predicate HasOwner(chains: Chains, c: int) {
    exists h :: h in chains && c in chains[h]
  }

  ghost predicate Owned(t: Table, chains: Chains) {
    forall c {:trigger HasOwner(chains, c)} :: Valid(t, c) && t[c] != 0 ==> HasOwner(chains, c)
  }

  ghost predicate Disjoint(chains: Chains) {
    forall g, h, c :: g in chains && h in chains && c in chains[g] && c in chains[h] ==> g == h
  }

  ghost predicate Chained(t: Table, chains: Chains) {
    forall h :: h in chains ==> IsChain(t, chains[h]) && chains[h][0] == h
  }

  /** Acyclic, disjoint chains inside the data area; other clusters may be in use too,
      and the free count may be wrong, as a crash leaves them. */
  ghost predicate Neat(t: Table, chains: Chains) {
    Fits(t) && Chained(t, chains) && Disjoint(chains)
  }

  ghost predicate Own(v: Vol, chains: Chains) {
    Neat(v.t, chains) && Owned(v.t, chains) && v.freeCount == |FreeSet(v.t)|
  }

  /** The recorded clusters are exactly what a walk from the head visits. */
  lemma {:induction false} ChainIs(t: Table, q: seq<int>, n: nat)
    requires IsChain(t, q) && n >= |q|
    ensures Path(t, q[0], n) == q
    decreases |q|
  {
    if |q| == 1 {
      assert Path(t, t[q[0]], n - 1) == [];
    } else {
      var rest := q[1..];
      TailIsChain(t, q);
      ChainIs(t, rest, n - 1);
      assert q == [q[0]] + rest;
    }
  }

  lemma TailIsChain(t: Table, q: seq<int>)
    requires IsChain(t, q) && |q| > 1
    ensures IsChain(t, q[1..]) && t[q[0]] == q[1] && q[0] !in q[1..]
  {
    var rest := q[1..];
    assert rest[|rest| - 1] == q[|q| - 1];
    assert forall i :: 0 <= i < |rest| ==> rest[i] == q[i + 1];
  }

  lemma {:induction false} ChainShort(t: Table, q: seq<int>)
    requires IsChain(t, q)
    ensures |q| < |t| && Chain(t, q[0]) == q && Ends(t, q[0])
  {
    assert Valid(t, q[0]);
    Pigeonhole(q, 2, |t|);
    ChainIs(t, q, |t|);
    PathIsNth(t, q[0], |t|);
  }

  lemma ChainUsed(t: Table, q: seq<int>, c: int)
    requires IsChain(t, q) && c in q
    ensures Valid(t, c) && t[c] != 0
  {
    var i :| 0 <= i < |q| && q[i] == c;
    if i < |q| - 1 {
      assert t[q[i]] == q[i + 1];
    }
  }

  lemma {:induction false} ChainFrame(t: Table, q: seq<int>, u: Table)
    requires IsChain(t, q) && |u| == |t| && forall c :: c in q ==> u[c] == t[c]
    ensures IsChain(u, q)
  {
    assert forall i :: 0 <= i < |q| ==> q[i] in q;
  }

  // ----- Allocation, linking, freeing -----

  /** A fresh cluster is a chain of its own, owned by nobody before. */
  lemma AllocNeat(v: Vol, chains: Chains)
    requires Neat(v.t, chains)
    ensures var r := Alloc(v);
            if r.1 == 0 then r.0 == v && FreeSet(v.t) == {}
            else Valid(v.t, r.1) && v.t[r.1] == 0 && r.1 !in chains
                 && r.0.t == v.t[r.1 := EOC] && Neat(r.0.t, chains[r.1 := [r.1]])
  {
    hide AllocChoice, FreeSet, Chained, Disjoint;
    AllocFinds(v.t, v.nextFree);
    var c := AllocChoice(v.t, v.nextFree);
    if c != 0 {
      FreshUnowned(v.t, chains, c);
      AddFresh(v.t, chains, c);
    }
  }

  /** ... and the free count stays exact. */
  lemma {:induction false} AllocKeeps(v: Vol, chains: Chains)
    requires Own(v, chains)
    ensures var r := Alloc(v);
            if r.1 == 0 then r.0 == v && FreeSet(v.t) == {}
            else Valid(v.t, r.1) && v.t[r.1] == 0 && r.1 !in chains
                 && r.0.t == v.t[r.1 := EOC] && Own(r.0, chains[r.1 := [r.1]])
  {
    hide AllocChoice, FreeSet, Chained, Disjoint, Owned;
    AllocNeat(v, chains);
    AllocFinds(v.t, v.nextFree);
    FreeBound(v.t);
    var c := AllocChoice(v.t, v.nextFree);
    if c != 0 {
      TakeOne(v.t, c, EOC);
      OwnedMore(v.t, chains, c);
    }
  }

  lemma FreshUnowned(t: Table, chains: Chains, c: int)
    requires Chained(t, chains) && Valid(t, c) && t[c] == 0
    ensures c !in chains && forall h :: h in chains ==> c !in chains[h]
  {
    if c in chains {
      assert chains[c][0] == c;
      ChainUsed(t, chains[c], c);
    }
    forall h | h in chains
      ensures c !in chains[h]
    {
      if c in chains[h] {
        ChainUsed(t, chains[h], c);
      }
    }
  }

  lemma AddFresh(t: Table, chains: Chains, c: int)
    requires Neat(t, chains)
    requires Valid(t, c) && t[c] == 0 && c !in chains && forall h :: h in chains ==> c !in chains[h]
    ensures Neat(t[c := EOC], chains[c := [c]])
  {
    hide Chained, Disjoint;
    FreshDisjoint(chains, c);
    FreshChained(t, chains, c);
  }

  lemma FreshDisjoint(chains: Chains, c: int)
    requires Disjoint(chains) && forall h :: h in chains ==> c !in chains[h]
    ensures Disjoint(chains[c := [c]])
  {
  }

  lemma FreshChained(t: Table, chains: Chains, c: int)
    requires Chained(t, chains) && Valid(t, c) && t[c] == 0 && |t| <= 0x0FFF_FFF7
    requires forall h :: h in chains ==> c !in chains[h]
    ensures Chained(t[c := EOC], chains[c := [c]])
  {
    var u, more := t[c := EOC], chains[c := [c]];
    SingleChain(u, c);
    hide IsChain;
    forall h | h in more
      ensures IsChain(u, more[h]) && more[h][0] == h
    {
      if h != c {
        ChainFrame(t, chains[h], u);
      }
    }
  }

  lemma OwnedMore(t: Table, chains: Chains, c: int)
    requires Owned(t, chains) && Valid(t, c) && c !in chains
    ensures Owned(t[c := EOC], chains[c := [c]])
  {
    var u, more := t[c := EOC], chains[c := [c]];
    forall x | Valid(u, x) && u[x] != 0
      ensures HasOwner(more, x)
    {
      if x == c {
        assert x in more[c];
      } else {
        assert HasOwner(chains, x);
        var h :| h in chains && x in chains[h];
        assert more[h] == chains[h];
      }
    }
  }

  lemma SingleChain(t: Table, c: int)
    requires Valid(t, c) && t[c] != 0 && !Valid(t, t[c])
    ensures IsChain(t, [c])
  {
  }

  /** Chains after hanging the chain of `c` behind the chain of `h`. */
  function Joined(chains: Chains, h: int, c: int): Chains
    requires h in chains && c in chains
  {
    (chains - {c})[h := chains[h] + chains[c]]
  }

  lemma LinkNeat(v: Vol, chains: Chains, h: int, c: int)
    requires Neat(v.t, chains) && h in chains && c in chains && h != c
    ensures var q := chains[h];
            |q| > 0 && Valid(v.t, q[|q| - 1]) && Neat(SetNext(v, q[|q| - 1], c).t, Joined(chains, h, c))
  {
    hide Chained, Disjoint, FreeSet;
    LinkTable(v.t, chains, h, c);
    LinkDisjoint(chains, h, c);
    LinkChained(v.t, chains, h, c);
  }

  lemma {:induction false} LinkKeeps(v: Vol, chains: Chains, h: int, c: int)
    requires Own(v, chains) && h in chains && c in chains && h != c
    ensures var q := chains[h];
            Own(SetNext(v, q[|q| - 1], c), Joined(chains, h, c))
  {
    hide Chained, Disjoint, Owned, FreeSet;
    LinkTable(v.t, chains, h, c);
    LinkNeat(v, chains, h, c);
    LinkOwned(v.t, chains, h, c, chains[h][|chains[h]| - 1]);
  }

  lemma LinkTable(t: Table, chains: Chains, h: int, c: int)
    requires Fits(t) && Chained(t, chains) && h in chains && c in chains
    ensures var q := chains[h];
            |q| > 0 && Valid(t, q[|q| - 1]) && t[q[|q| - 1]] != 0 && Fits(t[q[|q| - 1] := c])
            && FreeSet(t[q[|q| - 1] := c]) == FreeSet(t)
  {
    var q := chains[h];
    assert IsChain(t, q) && IsChain(t, chains[c]);
    assert q[|q| - 1] in q && chains[c][0] == c;
    ChainUsed(t, q, q[|q| - 1]);
    ChainUsed(t, chains[c], c);
  }

  lemma LinkDisjoint(chains: Chains, h: int, c: int)
    requires Disjoint(chains) && h in chains && c in chains && h != c
    ensures Disjoint(Joined(chains, h, c))
  {
    var more := Joined(chains, h, c);
    forall f, g, x | f in more && g in more && x in more[f] && x in more[g]
      ensures f == g
    {
      var f1 := if f == h && x in chains[c] then c else f;
      var g1 := if g == h && x in chains[c] then c else g;
      assert x in chains[f1] && x in chains[g1];
    }
  }

  lemma LinkChained(t: Table, chains: Chains, h: int, c: int)
    requires Chained(t, chains) && Disjoint(chains) && h in chains && c in chains && h != c
    ensures var q := chains[h];
            Chained(t[q[|q| - 1] := c], Joined(chains, h, c))
  {
    var q := chains[h];
    var last := q[|q| - 1];
    var u, more := t[last := c], Joined(chains, h, c);
    assert last in q;
    JoinChains(t, q, chains[c]);
    hide IsChain;
    forall g | g in more
      ensures IsChain(u, more[g]) && more[g][0] == g
    {
      if g != h {
        assert more[g] == chains[g] && last !in chains[g];
        ChainFrame(t, chains[g], u);
      }
    }
  }

  lemma LinkOwned(t: Table, chains: Chains, h: int, c: int, last: int)
    requires Owned(t, chains) && h in chains && c in chains && h != c
    requires Valid(t, last) && t[last] != 0
    ensures Owned(t[last := c], Joined(chains, h, c))
  {
    var u, more := t[last := c], Joined(chains, h, c);
    forall x | Valid(u, x) && u[x] != 0
      ensures HasOwner(more, x)
    {
      assert HasOwner(chains, x);
      var g :| g in chains && x in chains[g];
      var k := if g == c then h else g;
      assert k in more && x in more[k];
    }
  }

  lemma JoinChains(t: Table, q: seq<int>, r: seq<int>)
    requires IsChain(t, q) && IsChain(t, r) && forall c :: c in q ==> c !in r
    ensures IsChain(t[q[|q| - 1] := r[0]], q + r)
  {
    var u, s := t[q[|q| - 1] := r[0]], q + r;
    var n := |q|;
    assert forall i :: 0 <= i < n ==> s[i] == q[i] && q[i] in q;
    assert forall i :: n <= i < |s| ==> s[i] == r[i - n] && r[i - n] in r;
    forall i | 0 <= i < |s| - 1
      ensures u[s[i]] == s[i + 1]
    {
    }
  }

  /** Freeing a chain that ends zeroes exactly its clusters. */
  lemma {:induction false} FreeChainIs(t: Table, q: seq<int>, hint: int)
    requires IsChain(t, q)
    ensures var r := FreeChain(t, q[0], hint);
            r.1 == |q| && forall x :: 0 <= x < |t| ==> r.0[x] == if x in q then 0 else t[x]
    decreases |q|
  {
    ChainUsed(t, q, q[0]);
    ZeroOne(t, q[0]);
    var u, h := t[q[0] := 0], if q[0] < hint then q[0] else hint;
    if |q| == 1 {
      assert t[q[0]] == t[q[|q| - 1]];
      assert FreeChain(u, t[q[0]], h) == (u, 0, h);
    } else {
      var rest := q[1..];
      TailIsChain(t, q);
      ChainFrame(t, rest, u);
      FreeChainIs(u, rest, h);
      assert q == [q[0]] + rest;
    }
  }

  lemma FreeNeat(v: Vol, chains: Chains, h: int)
    requires Neat(v.t, chains) && h in chains
    ensures Neat(Free(v, h).t, chains - {h})
    ensures forall x :: 0 <= x < |v.t| ==> Free(v, h).t[x] == if x in chains[h] then 0 else v.t[x]
  {
    hide FreeChain, FreeSet, IsChain, Disjoint;
    var t := v.t;
    FreeChainIs(t, chains[h], v.nextFree);
    var u := Free(v, h).t;
    hide Free, Chained;
    FreedDisjoint(chains, h);
    FreedChained(t, chains, h, u);
  }

  lemma {:induction false} FreeKeeps(v: Vol, chains: Chains, h: int)
    requires Own(v, chains) && h in chains
    ensures Own(Free(v, h), chains - {h})
    ensures forall x :: 0 <= x < |v.t| ==> Free(v, h).t[x] == if x in chains[h] then 0 else v.t[x]
  {
    hide FreeChain, FreeSet, IsChain, Disjoint, Owned, Chained;
    FreeNeat(v, chains, h);
    FreeCounts(v.t, h, v.nextFree);
    FreeBound(v.t);
    FreedOwned(v.t, chains, h, Free(v, h).t);
  }

  lemma FreedDisjoint(chains: Chains, h: int)
    requires Disjoint(chains)
    ensures Disjoint(chains - {h})
  {
  }

  lemma FreedChained(t: Table, chains: Chains, h: int, u: Table)
    requires Chained(t, chains) && Disjoint(chains) && h in chains
    requires |u| == |t| && forall x :: 0 <= x < |t| ==> u[x] == if x in chains[h] then 0 else t[x]
    ensures Chained(u, chains - {h})
  {
    var less := chains - {h};
    forall g | g in less
      ensures IsChain(u, less[g]) && less[g][0] == g
    {
      assert forall c :: c in chains[g] ==> Valid(t, c) && c !in chains[h];
      hide IsChain;
      ChainFrame(t, chains[g], u);
    }
  }

  lemma FreedOwned(t: Table, chains: Chains, h: int, u: Table)
    requires Owned(t, chains) && h in chains
    requires |u| == |t| && forall x :: 0 <= x < |t| ==> u[x] == if x in chains[h] then 0 else t[x]
    ensures Owned(u, chains - {h})
  {
    var less := chains - {h};
    forall x | Valid(u, x) && u[x] != 0
      ensures HasOwner(less, x)
    {
      assert HasOwner(chains, x);
      var g :| g in chains && x in chains[g];
      assert g in less && x in less[g];
    }
  }

  /** The exact count never reaches the mark for "unknown". */
  lemma FreeBound(t: Table)
    requires Fits(t)
    ensures |FreeSet(t)| < UNKNOWN
  {
    if |t| >= 2 {
      SubsetCard(FreeSet(t), Range(2, |t|));
    } else {
      assert FreeSet(t) == {};
    }
  }

  // ----- The allocation loop of fat32_write_file -----

  /** Chains while a new file is being allocated: `q` are its clusters so far. */
  function With(chains: Chains, q: seq<int>): Chains {
    if q == [] then chains else chains[q[0] := q]
  }

  /** The table differs from `t0` only where the new file has taken free clusters. */
  ghost predicate OnlyTook(t0: Table, t: Table, q: seq<int>) {
    && |t| == |t0|
    && (forall x :: 0 <= x < |t| && x !in q ==> t[x] == t0[x])
    && (forall x :: x in q ==> Valid(t0, x) && t0[x] == 0)
  }

  /** A new file under construction on `v`, begun on `v0`. */
  ghost predicate Building(v0: Vol, v: Vol, chains: Chains, q: seq<int>) {
    && Neat(v0.t, chains) && Neat(v.t, With(chains, q)) && (Own(v0, chains) ==> Own(v, With(chains, q)))
    && OnlyTook(v0.t, v.t, q)
    && (q != [] ==> q[0] !in chains && Valid(v.t, q[0]) && Valid(v.t, q[|q| - 1]))
  }

  lemma BuildingStart(v: Vol, chains: Chains)
    requires Neat(v.t, chains)
    ensures Building(v, v, chains, [])
  {
    hide Own, Neat;
  }

  function First(q: seq<int>): int {
    if q == [] then 0 else q[0]
  }

  function Last(q: seq<int>): int {
    if q == [] then 0 else q[|q| - 1]
  }

  /** One more cluster: the new file grows by it. */
  lemma Extends(v0: Vol, v: Vol, chains: Chains, q: seq<int>)
    requires Building(v0, v, chains, q) && Alloc(v).1 != 0
    ensures var a := Alloc(v);
            Building(v0, if q == [] then a.0 else SetNext(a.0, Last(q), a.1), chains, q + [a.1])
  {
    hide Own, Neat, Alloc;
    var all, a := With(chains, q), Alloc(v);
    AllocNeat(v, all);
    ExtendsOwn(v, chains, q);
    var c := a.1;
    if q == [] {
      assert all[c := [c]] == With(chains, [c]) && [] + [c] == [c];
    } else {
      var more := all[c := [c]];
      assert more[q[0]] == q && more - {c} == all;
      LinkNeat(a.0, more, q[0], c);
      assert Joined(more, q[0], c) == With(chains, q + [c]);
    }
  }

  lemma ExtendsOwn(v: Vol, chains: Chains, q: seq<int>)
    requires Neat(v.t, With(chains, q)) && Alloc(v).1 != 0
    requires q != [] ==> Valid(v.t, q[0]) && Valid(v.t, q[|q| - 1])
    ensures var a := Alloc(v);
            Own(v, With(chains, q)) ==>
              Own(if q == [] then a.0 else SetNext(a.0, Last(q), a.1), With(chains, q + [a.1]))
  {
    hide Own, Neat, Alloc;
    var all, a := With(chains, q), Alloc(v);
    AllocNeat(v, all);
    if Own(v, all) {
      AllocKeeps(v, all);
      var c := a.1;
      if q == [] {
        assert all[c := [c]] == With(chains, [c]) && [] + [c] == [c];
      } else {
        var more := all[c := [c]];
        assert more[q[0]] == q && more - {c} == all;
        LinkKeeps(a.0, more, q[0], c);
        assert Joined(more, q[0], c) == With(chains, q + [c]);
      }
    }
  }

  /** Giving the part back restores the table, and an exact count, exactly. */
  lemma GivesBack(v0: Vol, v: Vol, chains: Chains, q: seq<int>)
    requires Building(v0, v, chains, q) && q != []
    ensures Neat(Free(v, q[0]).t, chains) && Free(v, q[0]).t == v0.t
    ensures Own(v0, chains) ==> Own(Free(v, q[0]), chains) && Free(v, q[0]).freeCount == v0.freeCount
  {
    hide Free, Own, Neat;
    var all := With(chains, q);
    FreeNeat(v, all, q[0]);
    assert all - {q[0]} == chains && all[q[0]] == q;
    assert Free(v, q[0]).t == v0.t;
    if Own(v0, chains) {
      FreeKeeps(v, all, q[0]);
      SameCount(Free(v, q[0]), v0, chains);
    }
  }

  lemma SameCount(v: Vol, w: Vol, chains: Chains)
    requires Own(v, chains) && Own(w, chains) && v.t == w.t
    ensures v.freeCount == w.freeCount
  {
    hide Neat, Owned;
  }

  /** The new file's chain is complete, or the table, and an exact count, are restored. */
  lemma {:induction false} AllocMoreKeeps(v0: Vol, v: Vol, chains: Chains, q: seq<int>, k: nat)
    returns (r: seq<int>)
    requires Building(v0, v, chains, q)
    ensures var a := AllocMore(v, First(q), Last(q), k);
            match a.1
            case Granted(f) => |r| == |q| + k && f == First(r) && Building(v0, a.0, chains, r)
            case Full => k > 0 && a.0.t == v0.t
                         && (Own(v0, chains) ==> a.0.freeCount == v0.freeCount && Own(a.0, chains))
    decreases k
  {
    hide Own, Neat, Alloc;
    r := q;
    if k > 0 {
      var a := Alloc(v);
      AllocNeat(v, With(chains, q));
      if a.1 != 0 {
        Extends(v0, v, chains, q);
        var w := if q == [] then a.0 else SetNext(a.0, Last(q), a.1);
        assert First(q + [a.1]) == (if q == [] then a.1 else q[0]) && Last(q + [a.1]) == a.1;
        r := AllocMoreKeeps(v0, w, chains, q + [a.1], k - 1);
      } else if q != [] {
        GivesBack(v0, v, chains, q);
      } else {
        assert v.t == v0.t;
        if Own(v0, chains) {
          SameCount(v, v0, chains);
        }
      }
    }
  }
}
