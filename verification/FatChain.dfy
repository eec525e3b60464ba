/** The file allocation table of fs/fat32.c as a sequence of 28-bit entries whose
    length is max_cluster: chains, cycles, allocation and freeing, on arbitrary
    (also cyclic or cross-linked) tables. */
module FatChain {
  const EOC := 0x0FFF_FFFF

  type Table = seq<int>

  predicate Valid(t: Table, c: int) {
    2 <= c < |t|
  }

  /** A table as it is read from disk: 28-bit entries, and no longer than FAT32
      allows, so that an end-of-chain mark is never a valid cluster. */
  predicate Fits(t: Table) {
    |t| <= 0x0FFF_FFF7 && forall c :: 0 <= c < |t| ==> 0 <= t[c] < 0x1000_0000
  }

  // ----- Walking -----

  /** The k-th cluster behind `s`; a walk that has left the data area stays out. */
  function Nth(t: Table, s: int, k: nat): int {
    if k == 0 then s
    else
      var c := Nth(t, s, k - 1);
      if Valid(t, c) then t[c] else c
  }

  /** The first `n` clusters of the walk from `s`. */
  function Path(t: Table, s: int, n: nat): (p: seq<int>)
    ensures |p| <= n
    decreases n
  {
    if n == 0 || !Valid(t, s) then [] else [s] + Path(t, t[s], n - 1)
  }

  /** The walk comes to an end instead of running into a cycle. */
  ghost predicate Ends(t: Table, s: int) {
    exists k: nat :: !Valid(t, Nth(t, s, k))
  }

  ghost predicate Cyclic(t: Table, s: int) {
    exists i: nat, j: nat :: i < j && Valid(t, Nth(t, s, i)) && Nth(t, s, i) == Nth(t, s, j)
  }

  /** All clusters of a chain that ends. */
  function Chain(t: Table, s: int): seq<int> {
    Path(t, s, |t|)
  }

  predicate NoDup(q: seq<int>) {
    forall i, j :: 0 <= i < j < |q| ==> q[i] != q[j]
  }

  lemma {:induction false} NthAdd(t: Table, s: int, a: nat, b: nat)
    ensures Nth(t, s, a + b) == Nth(t, Nth(t, s, a), b)
    decreases b
  {
    if b > 0 {
      NthAdd(t, s, a, b - 1);
    }
  }

  /** Off the data area the walk stands still. */
  lemma {:induction false} StaysOut(t: Table, s: int, k: nat, d: nat)
    requires !Valid(t, Nth(t, s, k))
    ensures Nth(t, s, k + d) == Nth(t, s, k)
    decreases d
  {
    if d > 0 {
      StaysOut(t, s, k, d - 1);
    }
  }

  /** A repeated cluster repeats for ever. */
  lemma {:induction false} Repeats(t: Table, s: int, i: nat, j: nat, d: nat)
    requires Nth(t, s, i) == Nth(t, s, j)
    ensures Nth(t, s, i + d) == Nth(t, s, j + d)
  {
    NthAdd(t, s, i, d);
    NthAdd(t, s, j, d);
  }

  lemma {:induction false} RepeatsTimes(t: Table, s: int, i: nat, j: nat, k: nat, m: nat)
    requires i < j && i <= k && Nth(t, s, i) == Nth(t, s, j)
    ensures Nth(t, s, k) == Nth(t, s, k + m * (j - i))
    decreases m
  {
    if m > 0 {
      RepeatsTimes(t, s, i, j, k, m - 1);
      Repeats(t, s, i, j, k + (m - 1) * (j - i) - i);
      assert k + m * (j - i) == j + (k + (m - 1) * (j - i) - i);
    }
  }

  lemma MulGrows(d: nat, n: nat)
    requires n >= 1
    ensures d <= d * n && (d >= 1 ==> n <= d * n)
  {
  }

  /** A walk that repeats a valid cluster never ends. */
  lemma {:induction false} CyclicNeverEnds(t: Table, s: int)
    requires Cyclic(t, s)
    ensures !Ends(t, s)
  {
    var i: nat, j: nat :| i < j && Valid(t, Nth(t, s, i)) && Nth(t, s, i) == Nth(t, s, j);
    forall k: nat
      ensures Valid(t, Nth(t, s, k))
    {
      if !Valid(t, Nth(t, s, k)) {
        hide Nth;
        RepeatsTimes(t, s, i, j, i, k + 1);
        var far := (k + 1) * (j - i);
        MulGrows(k + 1, j - i);
        var d: nat := i + far - k;
        assert k + d == i + far;
        StaysOut(t, s, k, d);
      }
    }
  }

  // ----- Pigeonhole -----

  function Range(lo: int, hi: int): (r: set<int>)
    requires lo <= hi
    ensures |r| == hi - lo && forall x :: x in r <==> lo <= x < hi
    decreases hi - lo
  {
    if lo == hi then {} else Range(lo, hi - 1) + {hi - 1}
  }

  lemma {:induction false} CardDistinct(q: seq<int>)
    requires NoDup(q)
    ensures |set x | x in q| == |q|
    decreases |q|
  {
    if q == [] {
      assert (set x | x in q) == {};
    } else {
      var init, last := q[..|q| - 1], q[|q| - 1];
      CardDistinct(init);
      assert q == init + [last];
      assert (set x | x in q) == (set x | x in init) + {last};
    }
  }

  lemma {:induction false} SubsetCard(a: set<int>, b: set<int>)
    requires a <= b
    ensures |a| <= |b|
  {
    assert b == a + (b - a);
  }

  /** Distinct clusters of the data area are at most max_cluster - 2 many. */
  lemma {:induction false} Pigeonhole(q: seq<int>, lo: int, hi: int)
    requires NoDup(q) && lo <= hi && forall x :: x in q ==> lo <= x < hi
    ensures |q| <= hi - lo
  {
    CardDistinct(q);
    SubsetCard((set x | x in q), Range(lo, hi));
  }

  // ----- Floyd's two runners -----

  /** A walk that has not ended after max_cluster - 2 steps runs in a cycle it
      has already closed. */
  lemma {:induction false} LongWalkRepeats(t: Table, s: int) returns (i: nat, j: nat)
    requires |t| >= 2 && forall k: nat :: k <= |t| - 2 ==> Valid(t, Nth(t, s, k))
    ensures i < j <= |t| - 2 && Nth(t, s, i) == Nth(t, s, j)
  {
    var q := seq(|t| - 1, k requires 0 <= k < |t| - 1 => Nth(t, s, k));
    assert !NoDup(q) by {
      if NoDup(q) {
        Pigeonhole(q, 2, |t|);
      }
    }
    i, j :| 0 <= i < j < |q| && q[i] == q[j];
  }

  /** Not ending is the same as running into a cycle. */
  lemma {:induction false} EndsOrCycles(t: Table, s: int)
    ensures Ends(t, s) <==> !Cyclic(t, s)
  {
    if Cyclic(t, s) {
      CyclicNeverEnds(t, s);
    }
    if !Ends(t, s) {
      assert Valid(t, Nth(t, s, 0));
      var i, j := LongWalkRepeats(t, s);
    }
  }

  /** On a cycle the slow and the fast runner meet within max_cluster - 2 steps. */
  lemma {:induction false} RunnersMeet(t: Table, s: int) returns (k: nat)
    requires |t| >= 2 && !Ends(t, s)
    ensures 1 <= k <= |t| - 2 && Nth(t, s, k) == Nth(t, s, 2 * k)
  {
    var i, j := LongWalkRepeats(t, s);
    var lam := j - i;
    var m := if i == 0 then 1 else (i + lam - 1) / lam;
    k := m * lam;
    assert i <= k <= j && k >= 1 by {
      if i > 0 {
        assert (i + lam - 1) / lam * lam + (i + lam - 1) % lam == i + lam - 1;
      }
    }
    RepeatsTimes(t, s, i, j, k, m);
  }

  /** An ending walk visits at most max_cluster - 2 clusters, each once. */
  lemma {:induction false} EndingWalk(t: Table, s: int, n: nat)
    requires Ends(t, s) && forall k: nat :: k < n ==> Valid(t, Nth(t, s, k))
    ensures n <= if |t| >= 2 then |t| - 2 else 0
    ensures NoDup(seq(n, k requires 0 <= k < n => Nth(t, s, k)))
  {
    var q := seq(n, k requires 0 <= k < n => Nth(t, s, k));
    if n > 0 {
      assert Valid(t, Nth(t, s, 0));
    }
    if !NoDup(q) {
      var a, b :| 0 <= a < b < |q| && q[a] == q[b];
      assert Cyclic(t, s);
      CyclicNeverEnds(t, s);
    } else if |t| >= 2 {
      Pigeonhole(q, 2, |t|);
    }
  }

  // ----- Nth and Path -----

  lemma {:induction false} NthShift(t: Table, s: int, k: nat)
    requires Valid(t, s)
    ensures Nth(t, s, k + 1) == Nth(t, t[s], k)
  {
    NthAdd(t, s, 1, k);
    assert Nth(t, s, 1) == t[s] by {
      assert Nth(t, s, 0) == s;
    }
  }

  lemma {:induction false} PathIsNth(t: Table, s: int, n: nat)
    ensures forall k: nat :: k < |Path(t, s, n)| ==> Path(t, s, n)[k] == Nth(t, s, k) && Valid(t, Nth(t, s, k))
    ensures |Path(t, s, n)| < n ==> !Valid(t, Nth(t, s, |Path(t, s, n)|))
    decreases n
  {
    if n > 0 && Valid(t, s) {
      PathIsNth(t, t[s], n - 1);
      var p, q := Path(t, s, n), Path(t, t[s], n - 1);
      forall k: nat | k < |p|
        ensures p[k] == Nth(t, s, k) && Valid(t, Nth(t, s, k))
      {
        if k > 0 {
          NthShift(t, s, k - 1);
          assert p[k] == q[k - 1];
        }
      }
      NthShift(t, s, |q|);
    }
  }

  /** A chain that ends is short enough for `Chain` to hold all of it. */
  lemma {:induction false} ChainComplete(t: Table, s: int)
    requires Ends(t, s)
    ensures |Chain(t, s)| <= (if |t| >= 2 then |t| - 2 else 0) && NoDup(Chain(t, s))
    ensures !Valid(t, Nth(t, s, |Chain(t, s)|))
  {
    var p := Chain(t, s);
    PathIsNth(t, s, |t|);
    EndingWalk(t, s, |p|);
    forall i, j | 0 <= i < j < |p|
      ensures p[i] != p[j]
    {
      var q := seq(|p|, k requires 0 <= k < |p| => Nth(t, s, k));
      assert q[i] != q[j];
    }
    if |t| == 0 {
      assert !Valid(t, s);
    }
  }

  // ----- Free clusters -----

  function FreeSet(t: Table): set<int> {
    set c | 2 <= c < |t| && t[c] == 0
  }

  function UsedSet(t: Table): set<int> {
    set c | 2 <= c < |t| && t[c] != 0
  }

  lemma {:induction false} ZeroOne(t: Table, c: int)
    requires Valid(t, c) && t[c] != 0
    ensures FreeSet(t[c := 0]) == FreeSet(t) + {c} && c !in FreeSet(t)
    ensures UsedSet(t[c := 0]) == UsedSet(t) - {c} && c in UsedSet(t)
    ensures |FreeSet(t[c := 0])| == |FreeSet(t)| + 1
    ensures |UsedSet(t[c := 0])| < |UsedSet(t)|
  {
  }

  lemma {:induction false} TakeOne(t: Table, c: int, v: int)
    requires Valid(t, c) && t[c] == 0 && v != 0
    ensures FreeSet(t[c := v]) == FreeSet(t) - {c} && c in FreeSet(t)
    ensures |FreeSet(t[c := v])| == |FreeSet(t)| - 1
  {
  }

  /** Table, number of clusters freed, and next-free hint after fat_free_chain. */
  function FreeChain(t: Table, c: int, hint: int): (r: (Table, nat, int))
    ensures |r.0| == |t|
    decreases |UsedSet(t)|
  {
    if !Valid(t, c) || t[c] == 0 then (t, 0, hint)
    else
      ZeroOne(t, c);
      var r := FreeChain(t[c := 0], t[c], if c < hint then c else hint);
      (r.0, r.1 + 1, r.2)
  }

  ghost predicate Reaches(t: Table, s: int, x: int) {
    exists k: nat :: Nth(t, s, k) == x
  }

  /** fat_free_chain turns exactly `freed` entries to zero, on any table. */
  lemma {:induction false} FreeCounts(t: Table, c: int, hint: int)
    ensures FreeSet(t) <= FreeSet(FreeChain(t, c, hint).0)
    ensures |FreeSet(FreeChain(t, c, hint).0)| == |FreeSet(t)| + FreeChain(t, c, hint).1
    decreases |UsedSet(t)|
  {
    if Valid(t, c) && t[c] != 0 {
      ZeroOne(t, c);
      FreeCounts(t[c := 0], t[c], if c < hint then c else hint);
    }
  }

  /** The entries it changes become zero, and behind each of them the walk goes
      on through entries that are zero afterwards. */
  lemma {:induction false} FreeClosed(t: Table, c: int, hint: int)
    ensures var r := FreeChain(t, c, hint).0;
            && (Valid(t, c) ==> r[c] == 0)
            && forall x :: Valid(t, x) && r[x] != t[x] ==> r[x] == 0 && (Valid(t, t[x]) ==> r[t[x]] == 0)
    decreases |UsedSet(t)|
  {
    if Valid(t, c) && t[c] != 0 {
      ZeroOne(t, c);
      var u, h := t[c := 0], if c < hint then c else hint;
      FreeClosed(u, t[c], h);
      ZeroStays(u, t[c], h, c);
      var r := FreeChain(t, c, hint).0;
      assert r == FreeChain(u, t[c], h).0;
      forall x | Valid(t, x) && r[x] != t[x]
        ensures r[x] == 0 && (Valid(t, t[x]) ==> r[t[x]] == 0)
      {
        assert x == c || u[x] == t[x];
      }
    }
  }

  lemma {:induction false} ZeroStays(t: Table, c: int, hint: int, x: int)
    requires Valid(t, x) && t[x] == 0
    ensures FreeChain(t, c, hint).0[x] == 0
    decreases |UsedSet(t)|
  {
    if Valid(t, c) && t[c] != 0 {
      ZeroOne(t, c);
      ZeroStays(t[c := 0], t[c], if c < hint then c else hint, x);
    }
  }

  /** Nothing off the walk is touched: if the walk avoids `x`, so does freeing. */
  lemma {:induction false} FreeOnly(t: Table, c: int, hint: int, x: int)
    requires Valid(t, x) && !Reaches(t, c, x)
    ensures FreeChain(t, c, hint).0[x] == t[x]
    decreases |UsedSet(t)|
  {
    assert Nth(t, c, 0) == c;
    if Valid(t, c) && t[c] != 0 {
      ZeroOne(t, c);
      var u := t[c := 0];
      forall k: nat
        ensures Nth(u, t[c], k) != x
      {
        if Nth(u, t[c], k) == x {
          DetourReaches(t, c, k);
        }
      }
      FreeOnly(u, t[c], if c < hint then c else hint, x);
    }
  }

  /** What is met after cutting the walk behind `c` was met before, or is 0. */
  lemma {:induction false} DetourReaches(t: Table, c: int, k: nat)
    requires Valid(t, c)
    ensures Nth(t[c := 0], t[c], k) == 0 || Reaches(t, c, Nth(t[c := 0], t[c], k))
    decreases k
  {
    var u := t[c := 0];
    if k == 0 {
      NthShift(t, c, 0);
    } else {
      DetourReaches(t, c, k - 1);
      var y := Nth(u, t[c], k - 1);
      if Valid(u, y) && y != c {
        var m: nat :| Nth(t, c, m) == y;
        assert Nth(t, c, m + 1) == t[y];
      }
    }
  }

  /** Complete account of fat_free_chain on an arbitrary table: every cluster the
      walk can reach is free afterwards, everything else is as before. */
  lemma {:induction false} FreeExactly(t: Table, c: int, hint: int, x: int)
    requires Valid(t, x)
    ensures FreeChain(t, c, hint).0[x] == if Reaches(t, c, x) then 0 else t[x]
  {
    if Reaches(t, c, x) {
      var k: nat :| Nth(t, c, k) == x;
      FreeReached(t, c, hint, k);
    } else {
      FreeOnly(t, c, hint, x);
    }
  }

  lemma {:induction false} FreeReached(t: Table, c: int, hint: int, k: nat)
    requires Valid(t, Nth(t, c, k))
    ensures FreeChain(t, c, hint).0[Nth(t, c, k)] == 0
    decreases k
  {
    FreeClosed(t, c, hint);
    if k > 0 {
      var y := Nth(t, c, k - 1);
      if !Valid(t, y) {
        assert false;
      }
      FreeReached(t, c, hint, k - 1);
      if t[y] == 0 {
        assert false;
      }
    }
  }

  // ----- Allocation -----

  /** The cluster looked at in round `i` of the search. */
  function Candidate(t: Table, base: nat, i: nat): int
    requires |t| > 2
  {
    2 + (base + i) % (|t| - 2)
  }

  /** The first free cluster from the hint on, with wrap-around; 0 when full. */
  function Seek(t: Table, base: nat, i: nat): int
    requires |t| > 2
    decreases |t| - 2 - i
  {
    if i >= |t| - 2 then 0
    else if t[Candidate(t, base, i)] == 0 then Candidate(t, base, i)
    else Seek(t, base, i + 1)
  }

  function HintBase(t: Table, nextFree: int): (b: nat) {
    if 2 <= nextFree < |t| then nextFree - 2 else 0
  }

  /** The cluster fat_alloc_cluster hands out, 0 for a full volume. */
  function AllocChoice(t: Table, nextFree: int): int {
    if |t| <= 2 then 0 else Seek(t, HintBase(t, nextFree), 0)
  }

  lemma {:induction false} SeekFinds(t: Table, base: nat, i: nat)
    requires |t| > 2
    ensures var c := Seek(t, base, i);
            && (c == 0 || (Valid(t, c) && t[c] == 0))
            && (c == 0 <==> forall k :: i <= k < |t| - 2 ==> t[Candidate(t, base, k)] != 0)
    decreases |t| - 2 - i
  {
    if i < |t| - 2 {
      if t[Candidate(t, base, i)] != 0 {
        SeekFinds(t, base, i + 1);
      }
    }
  }

  /** Some round of the search looks at every cluster. */
  lemma EveryCluster(t: Table, base: nat, c: int) returns (i: nat)
    requires Valid(t, c)
    ensures i < |t| - 2 && Candidate(t, base, i) == c
  {
    var n := |t| - 2;
    i := (c - 2 + n - base % n) % n;
    ModSum(base, c - 2, n);
  }

  lemma ModSum(base: nat, x: nat, n: nat)
    requires x < n
    ensures (base + (x + n - base % n) % n) % n == x
  {
    var b := base % n;
    assert base == base / n * n + b;
    if x >= b {
      assert (x + n - b) % n == x - b by {
        ModAdd(x - b, n);
      }
      ModMany(x, base / n, n);
    } else {
      assert (x + n - b) % n == x + n - b by {
        SmallMod(x + n - b, n);
      }
      assert base + (x + n - b) == (base / n + 1) * n + x;
      ModMany(x, base / n + 1, n);
    }
  }

  lemma SmallMod(x: nat, n: nat)
    requires x < n
    ensures x % n == x
  {
  }

  lemma ModAdd(x: nat, n: nat)
    requires x < n
    ensures (x + n) % n == x
  {
    ModMany(x, 1, n);
  }

  lemma ModMany(x: nat, q: nat, n: nat)
    requires x < n
    ensures (q * n + x) % n == x
  {
    var a := q * n + x;
    var d := a / n - q;
    assert d * n == x - a % n by {
      assert a == a / n * n + a % n;
      assert d * n == a / n * n - q * n;
    }
    if d > 0 {
      MulGrows(d, n);
    } else if d < 0 {
      assert (-d) * n == -(d * n);
      MulGrows(-d, n);
    }
  }

  /** The search fails exactly on a full volume, and never hands out a used cluster. */
  lemma {:induction false} AllocFinds(t: Table, nextFree: int)
    ensures var c := AllocChoice(t, nextFree);
            && (c == 0 <==> FreeSet(t) == {})
            && (c != 0 ==> Valid(t, c) && t[c] == 0)
  {
    if |t| > 2 {
      var base := HintBase(t, nextFree);
      SeekFinds(t, base, 0);
      forall c | c in FreeSet(t)
        ensures AllocChoice(t, nextFree) != 0
      {
        var i := EveryCluster(t, base, c);
        assert t[Candidate(t, base, i)] == 0;
      }
      if AllocChoice(t, nextFree) != 0 {
        assert AllocChoice(t, nextFree) in FreeSet(t);
      }
    }
  }

  // ----- Which cluster is handed out -----

  lemma {:induction false} SeekFirst(t: Table, base: nat, i: nat, k: nat)
    requires |t| > 2 && i <= k < |t| - 2 && t[Candidate(t, base, k)] == 0
    ensures exists m :: i <= m <= k && Seek(t, base, i) == Candidate(t, base, m)
                        && forall j :: i <= j < m ==> t[Candidate(t, base, j)] != 0
    decreases k - i
  {
    if t[Candidate(t, base, i)] == 0 {
      assert Seek(t, base, i) == Candidate(t, base, i);
    } else {
      SeekFirst(t, base, i + 1, k);
      var m :| i + 1 <= m <= k && Seek(t, base, i + 1) == Candidate(t, base, m)
               && forall j :: i + 1 <= j < m ==> t[Candidate(t, base, j)] != 0;
      assert Seek(t, base, i) == Candidate(t, base, m);
    }
  }

  /** The search looks at the clusters from the hint to the last, then from 2 to the hint. */
  lemma RoundOrder(t: Table, base: nat, j: nat)
    requires |t| > 2 && base < |t| - 2 && j < |t| - 2
    ensures Candidate(t, base, j) == if base + j < |t| - 2 then 2 + base + j else 2 + base + j - (|t| - 2)
  {
  }

  /** fat_alloc_cluster hands out the first free cluster from the hint on, and if there is
      none up to the last cluster, the first of all. */
  lemma AllocIsFirst(t: Table, nextFree: int, d: int)
    requires Valid(t, d) && t[d] == 0
    ensures var c, hint := AllocChoice(t, nextFree), if 2 <= nextFree < |t| then nextFree else 2;
            && Valid(t, c) && t[c] == 0
            && (d >= hint ==> hint <= c <= d)
            && (d < hint ==> c >= hint || c <= d)
  {
    var base := HintBase(t, nextFree);
    var k := if d - 2 >= base then d - 2 - base else d - 2 - base + (|t| - 2);
    RoundOrder(t, base, k);
    SeekFirst(t, base, 0, k);
    var m :| 0 <= m <= k && Seek(t, base, 0) == Candidate(t, base, m);
    RoundOrder(t, base, m);
    hide Candidate;
    AllocFinds(t, nextFree);
  }
}
