/** The directory tree of fs/fat32.c as the names in it: which entries name which start
    clusters.  Each operation adds, removes or redirects one entry, and the tree stays a
    tree in which every live cluster chain has exactly one name. */
module FatNaming {
  import opened FatDir
  import Tree = FatTree

  /** The entries each live directory reports. */
  type Names = map<int, set<Item>>

  predicate Dot(it: Item) {
    Tree.Dot(it.raw)
  }

  /** Entry `it` of directory `p` names the chain that starts at `x`; "." and ".." name
      nothing of their own. */
  predicate NamesIt(names: Names, p: int, it: Item, x: int) {
    p in names && it in names[p] && !Dot(it) && it.clus == x && x >= 2
  }

  /** `rank` is the depth of a directory below the root. */
  ghost predicate EntryOk(names: Names, heads: set<int>, rank: map<int, nat>, p: int, it: Item) {
    if Dot(it) then IsDirItem(it) && it.long == []
    else if IsDirItem(it) then
      it.clus >= 2 && it.clus in names && it.clus in rank && p in rank && rank[it.clus] == rank[p] + 1
    else it.clus < 2 || (it.clus in heads && it.clus !in names)
  }

  ghost predicate EntriesOk(names: Names, heads: set<int>, rank: map<int, nat>) {
    forall p, it :: p in names && it in names[p] ==> EntryOk(names, heads, rank, p, it)
  }

  ghost predicate NamedOnce(names: Names) {
    forall p, it, q, jt, x :: NamesIt(names, p, it, x) && NamesIt(names, q, jt, x) ==> p == q && it == jt
  }

  ghost predicate HasName(names: Names, x: int) {
    exists p, it :: NamesIt(names, p, it, x)
  }

  ghost predicate AllNamed(names: Names, root: int, heads: set<int>) {
    forall x {:trigger HasName(names, x)} :: x in heads && x != root ==> HasName(names, x)
  }

  /** The live directories form a tree from the root, and every live chain but the
      root's has exactly one name. */
  ghost predicate TreeOk(names: Names, root: int, heads: set<int>, rank: map<int, nat>) {
    && root in names && names.Keys <= heads && rank.Keys == names.Keys && rank[root] == 0
    && (forall h :: h in heads ==> h >= 2)
    && EntriesOk(names, heads, rank) && NamedOnce(names) && AllNamed(names, root, heads)
  }

  /** No entry passes for "." or ".." that is not. */
  ghost predicate Clean(names: Names) {
    forall p, it :: p in names && it in names[p] ==> !Tree.Hidden(it.raw)
  }

  /** What ".." holds in a directory below `q`. */
  function UpTo(q: int, root: int): int {
    if q == root then 0 else q
  }

  /** "." is the directory itself, ".." the one that names it. */
  ghost predicate DotOk(names: Names, root: int, p: int, it: Item) {
    && (it.raw == Tree.DOT_RAW ==> it.clus == p)
    && (it.raw == Tree.DOTDOT_RAW ==>
        p != root && forall q, jt :: NamesIt(names, q, jt, p) ==> it.clus == UpTo(q, root))
  }

  ghost predicate DotsOk(names: Names, root: int) {
    forall p, it :: p in names && it in names[p] ==> DotOk(names, root, p, it)
  }

  /** Every dot entry is what it should be, and nothing else passes for one. */
  ghost predicate Proper(names: Names, root: int) {
    Clean(names) && DotsOk(names, root)
  }

  function Added(names: Names, p: int, it: Item): Names
    requires p in names
  {
    names[p := names[p] + {it}]
  }

  function Less(names: Names, p: int, it: Item): Names
    requires p in names
  {
    names[p := names[p] - {it}]
  }

  function Redirected(names: Names, p: int, it: Item, jt: Item): Names
    requires p in names
  {
    names[p := names[p] - {it} + {jt}]
  }

  /** Without the entry and without the directory it names. */
  function Gone(names: Names, p: int, it: Item): Names
    requires p in names
  {
    (names - {it.clus})[p := names[p] - {it}]
  }

  /** One more directory. */
  function Wider(names: Names, c: int, entries: set<Item>): (r: Names)
    ensures forall h :: h in names ==> h in r
  {
    names[c := entries]
  }

  function Deeper(rank: map<int, nat>, c: int, n: nat): map<int, nat> {
    rank[c := n + 1]
  }

  function Plus(heads: set<int>, f: int): set<int> {
    if f >= 2 then heads + {f} else heads
  }

  lemma RootIn(names: Names, root: int, heads: set<int>, rank: map<int, nat>)
    requires TreeOk(names, root, heads, rank)
    ensures root in heads
  {
  }

  /** Nothing names the root. */
  lemma RootUnnamed(names: Names, root: int, heads: set<int>, rank: map<int, nat>, p: int, it: Item)
    requires TreeOk(names, root, heads, rank)
    ensures !NamesIt(names, p, it, root)
  {
    assert p in names && it in names[p] ==> EntryOk(names, heads, rank, p, it);
  }

  lemma OneName(names: Names, p: int, it: Item, q: int, jt: Item)
    requires NamedOnce(names) && NamesIt(names, p, it, it.clus)
    ensures NamesIt(names, q, jt, it.clus) ==> q == p && jt == it
  {
  }

  // ----- A new file -----

  lemma AddFile(names: Names, root: int, heads: set<int>, rank: map<int, nat>, p: int, it: Item)
    requires TreeOk(names, root, heads, rank) && p in names
    requires !Dot(it) && !IsDirItem(it) && (it.clus < 2 || it.clus !in heads)
    ensures TreeOk(Added(names, p, it), root, Plus(heads, it.clus), rank)
  {
    var more, wide := names[p := names[p] + {it}], Plus(heads, it.clus);
    forall q, jt | q in more && jt in more[q]
      ensures EntryOk(more, wide, rank, q, jt)
    {
      if !(q == p && jt == it) {
        assert EntryOk(names, heads, rank, q, jt);
      }
    }
    AddedNamed(names, root, heads, p, it);
    AddedOnce(names, root, heads, rank, p, it);
  }

  lemma AddedNamed(names: Names, root: int, heads: set<int>, p: int, it: Item)
    requires AllNamed(names, root, heads) && p in names && !Dot(it)
    ensures AllNamed(names[p := names[p] + {it}], root, Plus(heads, it.clus))
  {
    var more := names[p := names[p] + {it}];
    forall x | x in Plus(heads, it.clus) && x != root
      ensures HasName(more, x)
    {
      if x in heads {
        assert HasName(names, x);
        var q, jt :| NamesIt(names, q, jt, x);
        assert NamesIt(more, q, jt, x);
      } else {
        assert NamesIt(more, p, it, x);
      }
    }
  }

  lemma AddedOnce(names: Names, root: int, heads: set<int>, rank: map<int, nat>, p: int, it: Item)
    requires EntriesOk(names, heads, rank) && NamedOnce(names) && p in names && names.Keys <= heads
    requires it.clus < 2 || it.clus !in heads
    ensures NamedOnce(names[p := names[p] + {it}])
  {
    var more := names[p := names[p] + {it}];
    forall q, jt, r, kt, x | NamesIt(more, q, jt, x) && NamesIt(more, r, kt, x)
      ensures q == r && jt == kt
    {
      if x == it.clus {
        OldNamesLive(names, heads, rank, q, jt, x);
        OldNamesLive(names, heads, rank, r, kt, x);
      } else {
        assert NamesIt(names, q, jt, x) && NamesIt(names, r, kt, x);
      }
    }
  }

  lemma OldNamesLive(names: Names, heads: set<int>, rank: map<int, nat>, q: int, jt: Item, x: int)
    requires EntriesOk(names, heads, rank) && names.Keys <= heads
    ensures NamesIt(names, q, jt, x) ==> x in heads
  {
    if NamesIt(names, q, jt, x) {
      assert EntryOk(names, heads, rank, q, jt);
    }
  }

  lemma ProperFile(names: Names, root: int, heads: set<int>, rank: map<int, nat>, p: int, it: Item)
    requires TreeOk(names, root, heads, rank) && Proper(names, root) && p in names
    requires !Dot(it) && !Tree.Hidden(it.raw) && !IsDirItem(it) && (it.clus < 2 || it.clus !in heads)
    ensures Proper(Added(names, p, it), root)
  {
    hide Tree.Hidden;
    var more := Added(names, p, it);
    forall q, jt | q in more && jt in more[q]
      ensures DotOk(more, root, q, jt)
    {
      if !(q == p && jt == it) {
        assert DotOk(names, root, q, jt);
        forall r, kt | NamesIt(more, r, kt, q)
          ensures NamesIt(names, r, kt, q)
        {
        }
      }
    }
  }

  // ----- A new directory -----

  /** The two entries of a new directory `c` below `p`. */
  ghost predicate DotsOf(dots: set<Item>, c: int, p: int, root: int) {
    forall it :: it in dots ==>
      (it.raw == Tree.DOT_RAW ==> it.clus == c) && (it.raw == Tree.DOTDOT_RAW ==> it.clus == UpTo(p, root))
  }

  lemma ProperDir(names: Names, root: int, heads: set<int>, rank: map<int, nat>, p: int, it: Item, dots: set<Item>)
    requires TreeOk(names, root, heads, rank) && Proper(names, root) && p in names
    requires !Dot(it) && !Tree.Hidden(it.raw) && IsDirItem(it) && it.clus >= 2 && it.clus !in heads
    requires OnlyDots(dots) && DotsOf(dots, it.clus, p, root)
    ensures Proper(Wider(Added(names, p, it), it.clus, dots), root)
  {
    hide Tree.Hidden;
    var c := it.clus;
    var more := Wider(Added(names, p, it), c, dots);
    forall q, jt | q in more && jt in more[q]
      ensures DotOk(more, root, q, jt) && !Tree.Hidden(jt.raw)
    {
      DotNotHidden(jt);
      if q == c {
        forall r, kt | NamesIt(more, r, kt, c)
          ensures r == p
        {
          OldNamesLive(names, heads, rank, r, kt, c);
        }
      } else if !(q == p && jt == it) {
        assert DotOk(names, root, q, jt);
        forall r, kt | NamesIt(more, r, kt, q)
          ensures NamesIt(names, r, kt, q)
        {
        }
      }
    }
  }

  lemma DotNotHidden(it: Item)
    ensures Dot(it) ==> !Tree.Hidden(it.raw)
  {
  }

  ghost predicate OnlyDots(entries: set<Item>) {
    forall it :: it in entries ==> Dot(it) && IsDirItem(it) && it.long == []
  }

  lemma AddDir(names: Names, root: int, heads: set<int>, rank: map<int, nat>, p: int, it: Item, dots: set<Item>)
    requires TreeOk(names, root, heads, rank) && p in names
    requires !Dot(it) && IsDirItem(it) && it.clus >= 2 && it.clus !in heads && OnlyDots(dots)
    ensures TreeOk(Wider(Added(names, p, it), it.clus, dots), root, heads + {it.clus}, Deeper(rank, it.clus, rank[p]))
  {
    var c := it.clus;
    var more, wide, deep := names[p := names[p] + {it}][c := dots], heads + {c}, rank[c := rank[p] + 1];
    forall q, jt | q in more && jt in more[q]
      ensures EntryOk(more, wide, deep, q, jt)
    {
      if q != c && !(q == p && jt == it) {
        assert EntryOk(names, heads, rank, q, jt);
      }
    }
    AddedOnce(names, root, heads, rank, p, it);
    FreshOnce(names[p := names[p] + {it}], c, dots);
    AddedNamed(names, root, heads, p, it);
    forall x | x in wide && x != root
      ensures HasName(more, x)
    {
      assert HasName(names[p := names[p] + {it}], x);
      var q, jt :| NamesIt(names[p := names[p] + {it}], q, jt, x);
      assert NamesIt(more, q, jt, x);
    }
  }

  lemma FreshOnce(names: Names, c: int, dots: set<Item>)
    requires NamedOnce(names) && OnlyDots(dots) && c !in names
    ensures NamedOnce(names[c := dots])
  {
    var more := names[c := dots];
    forall q, jt, r, kt, x | NamesIt(more, q, jt, x) && NamesIt(more, r, kt, x)
      ensures q == r && jt == kt
    {
      assert NamesIt(names, q, jt, x) && NamesIt(names, r, kt, x);
    }
  }

  // ----- A file redirected or removed -----

  lemma Redirect(names: Names, root: int, heads: set<int>, rank: map<int, nat>, p: int, it: Item, jt: Item)
    requires TreeOk(names, root, heads, rank) && p in names && it in names[p]
    requires !Dot(it) && !IsDirItem(it) && jt.raw == it.raw && jt.attr == it.attr
    requires jt.clus < 2 || jt.clus !in heads
    ensures TreeOk(Redirected(names, p, it, jt), root, Plus(heads, jt.clus) - {it.clus}, rank)
  {
    RemoveFile(names, root, heads, rank, p, it);
    var less := names[p := names[p] - {it}];
    AddFile(less, root, heads - {it.clus}, rank, p, jt);
    assert less[p := less[p] + {jt}] == names[p := names[p] - {it} + {jt}];
    assert EntryOk(names, heads, rank, p, it);
    assert Plus(heads - {it.clus}, jt.clus) == Plus(heads, jt.clus) - {it.clus};
  }

  lemma RemoveFile(names: Names, root: int, heads: set<int>, rank: map<int, nat>, p: int, it: Item)
    requires TreeOk(names, root, heads, rank) && p in names && it in names[p] && !Dot(it) && !IsDirItem(it)
    ensures TreeOk(Less(names, p, it), root, heads - {it.clus}, rank)
  {
    var less, rest := names[p := names[p] - {it}], heads - {it.clus};
    assert EntryOk(names, heads, rank, p, it);
    forall q, jt | q in less && jt in less[q]
      ensures EntryOk(less, rest, rank, q, jt)
    {
      assert EntryOk(names, heads, rank, q, jt);
      if it.clus >= 2 {
        OneName(names, p, it, q, jt);
      }
    }
    FewerOnce(names, p, it);
    FewerNamed(names, root, heads, p, it);
  }

  lemma ProperLess(names: Names, root: int, p: int, it: Item)
    requires Proper(names, root) && p in names
    ensures Proper(Less(names, p, it), root)
  {
    hide Tree.Hidden;
    var less := Less(names, p, it);
    forall q, jt | q in less && jt in less[q]
      ensures DotOk(less, root, q, jt)
    {
      assert DotOk(names, root, q, jt);
      forall r, kt | NamesIt(less, r, kt, q)
        ensures NamesIt(names, r, kt, q)
      {
      }
    }
  }

  lemma ProperRedirected(names: Names, root: int, heads: set<int>, rank: map<int, nat>, p: int, it: Item, jt: Item)
    requires TreeOk(names, root, heads, rank) && Proper(names, root) && p in names && it in names[p]
    requires !Dot(it) && !IsDirItem(it) && jt.raw == it.raw && jt.attr == it.attr
    requires jt.clus < 2 || jt.clus !in heads
    ensures Proper(Redirected(names, p, it, jt), root)
  {
    assert !Tree.Hidden(it.raw);
    RemoveFile(names, root, heads, rank, p, it);
    ProperLess(names, root, p, it);
    var less := Less(names, p, it);
    ProperFile(less, root, heads - {it.clus}, rank, p, jt);
    assert Added(less, p, jt) == Redirected(names, p, it, jt);
  }

  lemma FewerOnce(names: Names, p: int, it: Item)
    requires NamedOnce(names) && p in names
    ensures NamedOnce(names[p := names[p] - {it}])
  {
    var less := names[p := names[p] - {it}];
    forall q, jt, r, kt, x | NamesIt(less, q, jt, x) && NamesIt(less, r, kt, x)
      ensures q == r && jt == kt
    {
      assert NamesIt(names, q, jt, x) && NamesIt(names, r, kt, x);
    }
  }

  lemma FewerNamed(names: Names, root: int, heads: set<int>, p: int, it: Item)
    requires AllNamed(names, root, heads) && p in names
    ensures AllNamed(names[p := names[p] - {it}], root, heads - {it.clus})
  {
    var less := names[p := names[p] - {it}];
    forall x | x in heads - {it.clus} && x != root
      ensures HasName(less, x)
    {
      assert HasName(names, x);
      var q, jt :| NamesIt(names, q, jt, x);
      assert NamesIt(less, q, jt, x);
    }
  }

  // ----- An empty directory removed -----

  lemma ProperGone(names: Names, root: int, p: int, it: Item)
    requires Proper(names, root) && p in names
    ensures Proper(Gone(names, p, it), root)
  {
    hide Tree.Hidden;
    var gone := Gone(names, p, it);
    forall q, jt | q in gone && jt in gone[q]
      ensures DotOk(gone, root, q, jt)
    {
      assert DotOk(names, root, q, jt);
      forall r, kt | NamesIt(gone, r, kt, q)
        ensures NamesIt(names, r, kt, q)
      {
      }
    }
  }

  lemma RemoveSubdir(names: Names, root: int, heads: set<int>, rank: map<int, nat>, p: int, it: Item)
    requires TreeOk(names, root, heads, rank) && p in names && it in names[p] && !Dot(it) && IsDirItem(it)
    requires it.clus in names && (forall jt :: jt in names[it.clus] ==> Dot(jt) || jt.clus < 2)
    ensures p != it.clus
    ensures TreeOk(Gone(names, p, it), root, heads - {it.clus}, rank - {it.clus})
  {
    var x := it.clus;
    assert EntryOk(names, heads, rank, p, it);
    var less, rest, deep := (names - {x})[p := names[p] - {it}], heads - {x}, rank - {x};
    forall q, jt | q in less && jt in less[q]
      ensures EntryOk(less, rest, deep, q, jt)
    {
      assert EntryOk(names, heads, rank, q, jt);
      OneName(names, p, it, q, jt);
    }
    forall q, jt, r, kt, y | NamesIt(less, q, jt, y) && NamesIt(less, r, kt, y)
      ensures q == r && jt == kt
    {
      assert NamesIt(names, q, jt, y) && NamesIt(names, r, kt, y);
    }
    forall y | y in rest && y != root
      ensures HasName(less, y)
    {
      assert HasName(names, y);
      var q, jt :| NamesIt(names, q, jt, y);
      assert NamesIt(less, q, jt, y);
    }
  }
}
