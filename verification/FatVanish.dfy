/** Names that vanish in fs/fat32.c: dir_put_entry stores a short name that begins with the
    byte of a deleted slot, reports success, and no entry names the chain.  Every other
    operation, under whatever name, keeps each used cluster owned. */
module FatVanish {
  import opened Basics
  import opened Words
  import opened FatChain
  import opened FatOwner
  import opened FatLfn
  import opened FatNaming
  import opened FatLive
  import opened FatOps
  import Dir = FatDir
  import Entry = FatEntry
  import Place = FatPlace
  import Runs = FatRuns
  import Files = FatFiles

  /** The entry is written and success reported: there is a slot for it, or a cluster to
      grow by. */
  ghost predicate Stored(s: Volume, dir: int, op: Op)
    requires Shaped(s)
  {
    match op
    case Write(_, leaf, n, size, date, time, junk) =>
      var a := AllocMore(s.v, 0, 0, n);
      a.1.Granted? && PutItem(s.(v := a.0, area := Scribbled(s, junk)), dir, leaf,
                              Entry.Meta(0x20, Cl(a.1.first), size, date, time)).1
    case MakeDir(_, leaf, date, time) =>
      var c := Alloc(s.v).1;
      c != 0 && PutItem(MadeDir(s, dir, c, date, time), dir, leaf, Entry.Meta(0x10, Cl(c), 0, date, time)).1
    case _ => false
  }

  /** A new file with contents, or a new directory, whose name vanishes. */
  ghost predicate Vanishes(s: Volume, op: Op)
    requires Shaped(s)
  {
    match Walk(s, s.root, op.path)
    case None => false
    case Some(dir) =>
      !Seen(op) && Lookup(s, dir, op.leaf).None? && (op.Write? ==> op.n > 0) && Stored(s, dir, op)
  }

  /** dir_put_entry for such a name: the directory reports what it did before. */
  lemma PutItemVanishes(s: Volume, chains: Chains, names: Names, p: int, leaf: Name, m: Entry.Meta)
    returns (more: Chains)
    requires Keeps(s, chains, names) && p in names
    requires IsString(leaf) && !Entry.Visible(leaf) && Lookup(s, p, leaf).None? && Entry.FileOrDir(m.attr)
    ensures var r := PutItem(s, p, leaf, m);
            && r.0.root == s.root && more.Keys == chains.Keys && Keeps(r.0, more, names)
            && (!r.1 ==> more == chains)
  {
    hide Own, Dir.Items, Dir.Tidy, Runs.Near, Entry.PutEntry, Chain, Entry.Visible, Entry.FileOrDir, Dir.Find;
    HeldAt(s, chains, names, p);
    var d, room := DirOf(s, p), Alloc(s.v).1 != 0;
    Entry.PutEntryVanishes(d, leaf, m, room, s.per);
    Runs.PutNear(d, leaf, m, room, s.per);
    PutLength(d, leaf, m, room, s.per);
    hide Alloc, PutEntry, DirOf;
    var r := Entry.PutEntry(d, leaf, m, room, s.per);
    more := GrownOwn(s, chains, p, d, r.0);
    var v := if |r.0| > |d| then PutEntry(s.v, p, Grow).0 else s.v;
    PutStored(s, chains, names, p, v, more, r.0, names[p]);
    assert names[p := names[p]] == names;
  }

  /** A chain in use that the tree does not name is lost. */
  lemma Unnamed(u: Volume, chains: Chains, names: Names, heads: set<int>, rank: map<int, nat>, f: int)
    requires Keeps(u, chains, names) && TreeOk(names, u.root, heads, rank)
    requires heads <= chains.Keys && f in chains && f !in heads
    ensures !Owns(u)
  {
    hide Own, Keeps, TreeOk, Live, Named, Owns;
    KeepsOwn(u, chains, names);
    KeepsNamed(u, chains, names, heads, rank);
    forall x
      ensures Live(u, x) <==> x in heads
    {
      LiveIs(u, names, heads, rank, x);
    }
    NotOwned(u, chains, heads, f);
  }

  lemma NotOwned(u: Volume, chains: Chains, heads: set<int>, f: int)
    requires Own(u.v, chains) && heads <= chains.Keys && f in chains && f !in heads
    requires forall x :: Live(u, x) <==> x in heads
    ensures !Owns(u)
  {
    hide Own, Live;
    if Owns(u) {
      var other: Chains :| Own(u.v, other) && forall x :: x in other <==> Live(u, x);
      forall g | g in other
        ensures g in chains
      {
        assert Live(u, g);
      }
      NoOwner(u.v, chains, other, f);
    }
  }

  lemma KeepsNamed(u: Volume, chains: Chains, names: Names, heads: set<int>, rank: map<int, nat>)
    requires Keeps(u, chains, names) && TreeOk(names, u.root, heads, rank)
    ensures Named(u, names, heads, rank)
  {
    hide Own, Shaped, AllHold, TreeOk;
  }

  // ----- A file -----

  lemma FileVanishes(s: Volume, chains: Chains, names: Names, rank: map<int, nat>, dir: int, op: Op)
    requires Good(s, chains, names, rank) && Proper(names, s.root) && op.Write? && dir in names
    requires Lookup(s, dir, op.leaf).None? && IsString(op.leaf) && !Entry.Visible(op.leaf)
    ensures Shaped(s)
    ensures if op.n > 0 && Stored(s, dir, op) then !Owns(WriteFile(s, dir, op)) else WellKept(WriteFile(s, dir, op))
  {
    hide Good, Proper, KeptAs, WellKept, Keeps, TreeOk, Lookup, Shaped, Own, AllocMore, With, Entry.Visible, Scribbled,
         Fresh, Owns, PutItem, Dropped, Cl;
    GoodShaped(s, chains, names, rank);
    KeepsOwn(s, chains, names);
    var r, all := NewChain(s.v, chains, op.n);
    var a := AllocMore(s.v, 0, 0, op.n);
    var b := s.(v := a.0, area := Scribbled(s, op.junk));
    ScribbleKeeps(s, chains, names, b, all, op.junk);
    ScribbleSame(s, chains, names, b, all, op.junk, dir);
    if a.1.Full? {
      KeptBy(b, chains, names, rank);
    } else {
      KeepsOwn(b, all, names);
      LookupSame(s, b, dir, op.leaf);
      var f := a.1.first;
      EntryVanishes(s, b, chains, names, rank, dir, op.leaf, r, f,
                    Entry.Meta(0x20, Cl(f), op.size, op.date, op.time), op.n);
    }
  }

  lemma EntryVanishes(s: Volume, b: Volume, chains: Chains, names: Names, rank: map<int, nat>, p: int, leaf: Name,
                      r: seq<int>, f: int, m: Entry.Meta, n: nat)
    requires Good(s, chains, names, rank) && Proper(names, s.root) && p in names && b.root == s.root
    requires Keeps(b, With(chains, r), names) && Shaped(b) && Lookup(b, p, leaf).None?
    requires IsString(leaf) && !Entry.Visible(leaf) && Fresh(chains, r, f) && m.attr == 0x20 && (r == [] <==> n == 0)
    ensures var q := PutItem(b, p, leaf, m);
            if q.1 && n > 0 then !Owns(q.0) else WellKept(if q.1 then q.0 else Dropped(q.0, f))
  {
    hide Good, Proper, KeptAs, WellKept, Keeps, TreeOk, Shaped, Dropped, PutItem, Entry.Visible, Lookup, With, Fresh,
         Owns;
    GoodShaped(s, chains, names, rank);
    FreshKeys(chains, r, f);
    var more := PutItemVanishes(b, With(chains, r), names, p, leaf, m);
    var q := PutItem(b, p, leaf, m);
    if !q.1 {
      FileRefused(s, q.0, chains, names, rank, r, f);
      KeptWell(Dropped(q.0, f), chains, names, rank);
    } else if n > 0 {
      Unnamed(q.0, more, names, chains.Keys, rank, f);
    } else {
      KeptBy(q.0, more, names, rank);
    }
  }

  lemma FreshKeys(chains: Chains, r: seq<int>, f: int)
    requires Fresh(chains, r, f)
    ensures r == [] ==> With(chains, r).Keys == chains.Keys
    ensures r != [] ==> With(chains, r).Keys == chains.Keys + {f} && f !in chains
  {
  }

  // ----- A directory -----

  lemma DirVanishes(s: Volume, chains: Chains, names: Names, rank: map<int, nat>, p: int, op: Op)
    requires Good(s, chains, names, rank) && Proper(names, s.root) && p in names && op.MakeDir?
    requires Lookup(s, p, op.leaf).None? && IsString(op.leaf) && !Entry.Visible(op.leaf)
    ensures Shaped(s)
    ensures var u := Mkdir(s, p, op.leaf, op.date, op.time);
            if Stored(s, p, op) then !Owns(u) else WellKept(u)
  {
    hide Good, Proper, KeptAs, WellKept, Keeps, TreeOk, Lookup, DirOf, Shaped, Dropped, Entries, MadeDir, PutItem,
         Entry.Visible, Alloc, Owns;
    GoodShaped(s, chains, names, rank);
    NotDotted(op.leaf);
    if Alloc(s.v).1 == 0 {
      NothingFree(s, chains, names);
      WellKeptBy(s, chains, names, rank);
    } else {
      MadeVanishes(s, chains, names, rank, p, op.leaf, op.date, op.time);
    }
  }

  lemma NotDotted(leaf: Name)
    requires !Entry.Visible(leaf)
    ensures leaf != [] && leaf[0] != DOT
  {
  }

  lemma MadeVanishes(s: Volume, chains: Chains, names: Names, rank: map<int, nat>, p: int, leaf: Name, date: u16,
                     time: u16)
    requires Good(s, chains, names, rank) && Proper(names, s.root) && p in names && Lookup(s, p, leaf).None?
    requires IsString(leaf) && !Entry.Visible(leaf) && Alloc(s.v).1 != 0 && Shaped(s)
    ensures var c := Alloc(s.v).1;
            var r := PutItem(MadeDir(s, p, c, date, time), p, leaf, Entry.Meta(0x10, Cl(c), 0, date, time));
            if r.1 then !Owns(r.0) else WellKept(Dropped(r.0, c))
  {
    hide Good, Proper, KeptAs, WellKept, Keeps, TreeOk, DirOf, Shaped, Dropped, Entries, MadeDir, PutItem,
         Entry.Visible, Alloc, Cl, Lookup, Wider, Alone, Owns;
    GoodShaped(s, chains, names, rank);
    var c := Alloc(s.v).1;
    MadeSame(s, chains, names, p, date, time);
    RootIn(names, s.root, chains.Keys, rank);
    var dots := MadeKeeps(s, chains, names, p, date, time);
    var b, m := MadeDir(s, p, c, date, time), Entry.Meta(0x10, Cl(c), 0, date, time);
    LookupSame(s, b, p, leaf);
    DirLost(s, b, chains, names, rank, p, leaf, m, dots);
  }

  lemma DirLost(s: Volume, b: Volume, chains: Chains, names: Names, rank: map<int, nat>, p: int, leaf: Name,
                m: Entry.Meta, dots: set<Dir.Item>)
    requires Good(s, chains, names, rank) && Proper(names, s.root) && p in names && b.root == s.root
    requires Keeps(b, Alone(chains, m.clus), Wider(names, m.clus, dots)) && Shaped(b)
    requires Lookup(b, p, leaf).None? && IsString(leaf) && !Entry.Visible(leaf) && m.attr == 0x10
    requires m.clus !in chains && m.clus !in names && m.clus >= 2
    ensures var r := PutItem(b, p, leaf, m);
            if r.1 then !Owns(r.0) else WellKept(Dropped(r.0, m.clus))
  {
    hide Good, Proper, KeptAs, WellKept, Keeps, TreeOk, Shaped, Dropped, PutItem, Entry.Visible, Lookup, Wider,
         Alone, Owns;
    GoodShaped(s, chains, names, rank);
    NamesIn(s, chains, names);
    MoreKeys(chains, m.clus);
    var more := PutItemVanishes(b, Alone(chains, m.clus), Wider(names, m.clus, dots), p, leaf, m);
    var r := PutItem(b, p, leaf, m);
    if r.1 {
      WithoutNew(r.0, more, names, m.clus, dots);
      Unnamed(r.0, more, names, chains.Keys, rank, m.clus);
    } else {
      NotMade(s, r.0, chains, names, rank, m.clus, dots);
      KeptWell(Dropped(r.0, m.clus), chains, names, rank);
    }
  }

  // ----- Every operation -----

  lemma SomeIn(s: Volume, chains: Chains, names: Names, rank: map<int, nat>, op: Op)
    requires Good(s, chains, names, rank) && Proper(names, s.root) && Walk(s, s.root, op.path).Some?
    ensures Walk(s, s.root, op.path).value in names
  {
    hide Good, Walk, Proper;
    GoodNamed(s, chains, names, rank);
    RootNamed(s, names, chains.Keys, rank);
    ProperDots(names, s.root);
    WalkInTree(s, names, chains.Keys, rank, s.root, op.path);
  }

  /** With a name that would vanish, in the directory the path leads to. */
  lemma InExactlyIf(s: Volume, chains: Chains, names: Names, rank: map<int, nat>, dir: int, op: Op)
    requires Good(s, chains, names, rank) && Proper(names, s.root) && dir in names && IsString(op.leaf) && !Seen(op)
    ensures Shaped(s)
    ensures if Lookup(s, dir, op.leaf).None? && (op.Write? ==> op.n > 0) && Stored(s, dir, op)
            then !Owns(StepIn(s, dir, op)) else WellKept(StepIn(s, dir, op))
  {
    hide Good, Proper, KeptAs, WellKept, Keeps, TreeOk, Lookup, Shaped, Entry.Visible, Owns, WriteFile, Mkdir, Stored;
    GoodShaped(s, chains, names, rank);
    match op {
      case Write(_, _, _, _, _, _, _) =>
        if Lookup(s, dir, op.leaf).Some? {
          WriteFileKeeps(s, chains, names, rank, dir, op);
        } else {
          FileVanishes(s, chains, names, rank, dir, op);
        }
      case MakeDir(_, leaf, date, time) =>
        if Lookup(s, dir, op.leaf).Some? {
          MkdirKeeps(s, chains, names, rank, dir, leaf, date, time);
        } else {
          DirVanishes(s, chains, names, rank, dir, op);
        }
      case Delete(_, _) =>
      case RemoveDir(_, _) =>
    }
  }

  /** Each operation, on any path and under any name, leaves every used cluster owned
      exactly if it does not store a new file with contents or a new directory under a
      name that vanishes. */
  lemma StepExactlyIf(s: Volume, op: Op)
    requires WellKept(s) && IsString(op.leaf)
    ensures Shaped(s) && (Owns(Step(s, op)) <==> !Vanishes(s, op))
    ensures !Vanishes(s, op) ==> WellKept(Step(s, op))
  {
    WellKeptShaped(s);
    StepIs(s, op);
    if Seen(op) || Walk(s, s.root, op.path).None? {
      hide WellKept, Walk, StepIn, Step, Seen, IsString, Shaped, Owns, Stored, Lookup;
      if Seen(op) {
        StepKeeps(s, op);
      }
      WellKeptOwns(Step(s, op));
    } else {
      UnseenLeaf(op);
      UnseenExactlyIf(s, Walk(s, s.root, op.path).value, op);
    }
  }

  lemma UnseenLeaf(op: Op)
    requires !Seen(op)
    ensures op.leaf != []
  {
  }

  lemma UnseenExactlyIf(s: Volume, dir: int, op: Op)
    requires WellKept(s) && IsString(op.leaf) && !Seen(op) && Walk(s, s.root, op.path) == Some(dir)
    ensures Shaped(s)
    ensures if Lookup(s, dir, op.leaf).None? && (op.Write? ==> op.n > 0) && Stored(s, dir, op)
            then !Owns(StepIn(s, dir, op)) else Owns(StepIn(s, dir, op)) && WellKept(StepIn(s, dir, op))
  {
    hide Good, Proper, Walk, StepIn, Seen, IsString, Shaped, Owns, Stored, Lookup;
    var chains: Chains, names: Names, rank: map<int, nat> :| Good(s, chains, names, rank) && Proper(names, s.root);
    hide WellKept;
    SomeIn(s, chains, names, rank, op);
    InExactlyIf(s, chains, names, rank, dir, op);
    if !(Lookup(s, dir, op.leaf).None? && (op.Write? ==> op.n > 0) && Stored(s, dir, op)) {
      WellKeptOwns(StepIn(s, dir, op));
    }
  }

  // ----- Every run -----

  /** The n-th operation of the run stores nothing that vanishes. */
  ghost predicate StaysAt(s: Volume, ops: seq<Op>, n: nat)
    requires Shaped(s)
  {
    n < |ops| ==> !Vanishes(FatOps.Run(s, ops[..n]), ops[n])
  }

  ghost predicate OwnsAt(s: Volume, ops: seq<Op>, n: nat)
    requires Shaped(s)
  {
    n <= |ops| ==> Owns(FatOps.Run(s, ops[..n]))
  }

  lemma {:induction false} RunStays(s: Volume, ops: seq<Op>, n: nat)
    requires Shaped(s) && WellKept(s) && n <= |ops| && forall k :: 0 <= k < |ops| ==> IsString(ops[k].leaf)
    requires forall m: nat :: m < n ==> StaysAt(s, ops, m)
    ensures WellKept(FatOps.Run(s, ops[..n]))
    decreases n
  {
    hide Step, Shaped, WellKept, IsString, Vanishes;
    if n == 0 {
      assert ops[..0] == [];
    } else {
      RunStays(s, ops, n - 1);
      assert StaysAt(s, ops, n - 1);
      assert ops[..n][..n - 1] == ops[..n - 1];
      StepExactlyIf(FatOps.Run(s, ops[..n - 1]), ops[n - 1]);
    }
  }

  /** Every run of operations on any paths and under any names, from a volume in order,
      keeps each used cluster owned at every point exactly if none of its operations
      stores a new file with contents or a new directory under a name that vanishes. */
  lemma RunExactlyIf(s: Volume, ops: seq<Op>)
    requires Shaped(s) && WellKept(s) && forall k :: 0 <= k < |ops| ==> IsString(ops[k].leaf)
    ensures (forall n: nat :: OwnsAt(s, ops, n)) <==> (forall n: nat :: StaysAt(s, ops, n))
  {
    hide StaysAt, OwnsAt, FatOps.Run, Shaped, WellKept, IsString;
    if forall n: nat :: StaysAt(s, ops, n) {
      forall n: nat
        ensures OwnsAt(s, ops, n)
      {
        OwnsSoFar(s, ops, n);
      }
    } else {
      var n: nat :| !StaysAt(s, ops, n);
      var m := FirstLoss(s, ops, n);
      LostThere(s, ops, m);
    }
  }

  lemma OwnsSoFar(s: Volume, ops: seq<Op>, n: nat)
    requires Shaped(s) && WellKept(s) && forall k :: 0 <= k < |ops| ==> IsString(ops[k].leaf)
    requires forall m: nat :: m < n ==> StaysAt(s, ops, m)
    ensures OwnsAt(s, ops, n)
  {
    hide StaysAt, FatOps.Run, Shaped, WellKept, IsString, Owns;
    if n <= |ops| {
      RunStays(s, ops, n);
      WellKeptOwns(FatOps.Run(s, ops[..n]));
    }
  }

  lemma {:induction false} FirstLoss(s: Volume, ops: seq<Op>, n: nat) returns (m: nat)
    requires Shaped(s) && !StaysAt(s, ops, n)
    ensures !StaysAt(s, ops, m) && forall k: nat :: k < m ==> StaysAt(s, ops, k)
    decreases n
  {
    hide StaysAt, Shaped;
    if k: nat :| k < n && !StaysAt(s, ops, k) {
      m := FirstLoss(s, ops, k);
    } else {
      m := n;
    }
  }

  lemma LostThere(s: Volume, ops: seq<Op>, m: nat)
    requires Shaped(s) && WellKept(s) && forall k :: 0 <= k < |ops| ==> IsString(ops[k].leaf)
    requires !StaysAt(s, ops, m) && forall k: nat :: k < m ==> StaysAt(s, ops, k)
    ensures !OwnsAt(s, ops, m + 1)
  {
    hide Step, Shaped, WellKept, IsString, Vanishes, Owns;
    RunStays(s, ops, m);
    assert ops[..m + 1][..m] == ops[..m];
    StepExactlyIf(FatOps.Run(s, ops[..m]), ops[m]);
  }

  // ----- Such a name -----

  const LOST_NAME: Name := [0xE5, 0x41]

  lemma LostNameVanishes()
    ensures IsString(LOST_NAME) && !Entry.Visible(LOST_NAME)
  {
    var a := LOST_NAME;
    assert Until(a[1..][1..], DOT, 6) == [];
    assert Until(a[1..], DOT, 7) == [a[1]];
    assert Until(a, DOT, 8) == [a[0], a[1]];
    assert AfterDot(a[1..][1..]) == [] && AfterDot(a[1..]) == [] && AfterDot(a) == [];
    var raw := ParseName(a);
    var base := raw[..8];
    assert base[0] == 0xE5 && base[1] == 0x41 && base[2] == SPACE && raw[8] == SPACE;
    assert Until(base[1..][1..], SPACE, 6) == [];
    assert Until(base[1..], SPACE, 7) == [base[1]];
    assert Until(base, SPACE, 8) == [base[0], base[1]];
  }

  /** On a new volume, a file written as E5 41 is accepted, and its cluster is lost. */
  lemma FileLost(n: nat, per: nat, size: u32, date: u16, time: u16, junk: seq<Slots>)
    requires 4 <= n <= 0x0FFF_FFF7 && per >= 16 && per % 16 == 0
    ensures var s, op := NewVolume(n, per), Write([], LOST_NAME, 1, size, date, time, junk);
            Shaped(s) && WellKept(s) && IsString(op.leaf) && Vanishes(s, op) && !Owns(Step(s, op))
  {
    NewVolumeKept(n, per);
    LostNameVanishes();
    var s, op := NewVolume(n, per), Write([], LOST_NAME, 1, size, date, time, junk);
    hide WellKept, Shaped, Owns, Step, Stored, NewVolume, DirOf, Entry.Visible, IsString, Entries, Vanishes;
    RootSlots(n, per);
    NewShape(n, per);
    NewAccepts(s, op);
    VanishesThere(s, op);
    StepExactlyIf(s, op);
  }

  lemma VanishesThere(s: Volume, op: Op)
    requires Shaped(s) && op.Write? && op.n > 0 && op.path == [] && !Entry.Visible(op.leaf)
    requires Entries(s, s.root) == [] && Stored(s, s.root, op)
    ensures Vanishes(s, op)
  {
    hide Stored, Entries, Shaped;
  }

  lemma NewAccepts(s: Volume, op: Op)
    requires s.root == 2 && Shaped(s) && exists n: nat :: 4 <= n <= 0x0FFF_FFF7 && s == NewVolume(n, s.per)
    requires op.Write? && op.n == 1 && !Entry.Visible(op.leaf)
    ensures Stored(s, 2, op)
  {
    hide NewVolume, Own, AllocMore, DirOf, FreeSet, Scribbled, Entry.Visible, Shaped, Owns, PutItem;
    var n: nat :| 4 <= n <= 0x0FFF_FFF7 && s == NewVolume(n, s.per);
    ShapedPer(s);
    NewOwn(n, s.per);
    RootSlots(n, s.per);
    NewRoom(n, s.per);
    var chains: Chains := map[2 := [2]];
    var r, all := NewChain(s.v, chains, 1);
    RoomGranted(s.v, chains);
    var a := AllocMore(s.v, 0, 0, 1);
    var b := s.(v := a.0, area := Scribbled(s, op.junk));
    RootKept(s, b, chains, all, op.junk);
    StillShaped(s, b, op.junk);
    BlankTakes(b, op.leaf, Entry.Meta(0x20, Cl(a.1.first), op.size, op.date, op.time));
  }

  lemma ShapedPer(s: Volume)
    requires Shaped(s)
    ensures s.per >= 16 && s.per % 16 == 0
  {
  }

  lemma StillShaped(s: Volume, b: Volume, junk: seq<Slots>)
    requires Shaped(s) && b == s.(v := b.v, area := Scribbled(s, junk)) && |b.v.t| == |s.v.t|
    ensures Shaped(b)
  {
  }

  lemma RoomGranted(v: Vol, chains: Chains)
    requires Own(v, chains) && |FreeSet(v.t)| >= 1
    ensures AllocMore(v, 0, 0, 1).1.Granted?
  {
    hide Own, AllocMore, FreeSet;
    var f := Files.Sys(v, chains.Keys);
    assert Files.Owns(f);
    Files.DiskFullRestores(f, 1);
  }

  lemma NewRoom(n: nat, per: nat)
    requires 4 <= n
    ensures |FreeSet(NewVolume(n, per).v.t)| >= 1
  {
    var t := NewVolume(n, per).v.t;
    assert 3 in FreeSet(t);
  }

  lemma RootKept(s: Volume, b: Volume, chains: Chains, all: Chains, junk: seq<Slots>)
    requires Own(s.v, chains) && Own(b.v, all) && 2 in chains && 2 in all && all[2] == chains[2]
    requires b.area == Scribbled(s, junk)
    ensures DirOf(b, 2) == DirOf(s, 2)
  {
    hide Own, Chain;
    ChainOf(s.v, chains, 2);
    DirSame(s, chains, b, all, 2);
  }

  /** In a directory of blank slots there is room at once. */
  lemma BlankTakes(s: Volume, leaf: Name, m: Entry.Meta)
    requires Shaped(s) && DirOf(s, 2) == Place.BlankSlots(s.per) && !Entry.Visible(leaf)
    ensures PutItem(s, 2, leaf, m).1
  {
    DirLength(s, 2);
    var d := DirOf(s, 2);
    hide DirOf, ParseName, NeedsLfn, Alloc;
    assert d[0][0] == 0;
    assert Place.FindSlot(d, ParseName(leaf), 0, None) == Place.Vacant(0);
  }
}
