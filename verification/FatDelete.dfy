/** mark_deleted_with_lfn of fs/fat32.c: deleting an entry takes its long-name run with
    it, as far as the run lies in the entry's cluster, and changes nothing else the
    directory reports. */
module FatDelete {
  import opened Basics
  import opened Words
  import opened FatLfn
  import opened FatDir

  /** A long-name slot the backward scan takes along. */
  predicate BelongsTo(de: Slot, sum: u8) {
    IsLfn(de) && de[0] != DELETED && de[13] == sum
  }

  /** How far back the scan goes, at most to `lo`, the start of the cluster. */
  function RunStart(d: Slots, p: nat, lo: nat, sum: u8): (s: nat)
    requires lo <= p <= |d|
    ensures lo <= s <= p
    ensures forall i :: s <= i < p ==> BelongsTo(d[i], sum)
    ensures s > lo ==> !BelongsTo(d[s - 1], sum)
    decreases p
  {
    if p > lo && BelongsTo(d[p - 1], sum) then RunStart(d, p - 1, lo, sum) else p
  }

  /** Slots s..p with the deletion mark. */
  function Marked(d: Slots, s: nat, p: nat): (r: Slots)
    ensures |r| == |d|
  {
    seq(|d|, i requires 0 <= i < |d| => if s <= i <= p then d[i][0 := DELETED] else d[i])
  }

  function Delete(d: Slots, p: nat, lo: nat): (r: Slots)
    requires lo <= p < |d|
    ensures |r| == |d|
  {
    Marked(d, RunStart(d, p, lo, Checksum(d[p][..11], 11)), p)
  }

  /** The first slot of the run the scan is in when it comes to slot `p`. */
  ghost function GroupStart(d: Slots, p: nat): (s: nat)
    requires p <= |d|
    ensures s <= p
    decreases p
  {
    if p == 0 || EndState(d[..p], Idle).Idle? then p else GroupStart(d, p - 1)
  }

  lemma Snoc(d: Slots, p: nat)
    requires 0 < p <= |d|
    ensures EndState(d[..p], Idle) == After(EndState(d[..p - 1], Idle), d[p - 1])
  {
    assert d[..p] == d[..p - 1] + [d[p - 1]];
    EndAppend(d[..p - 1], [d[p - 1]], Idle);
    OneSlot(d[p - 1], EndState(d[..p - 1], Idle));
  }

  /** A tidy directory is tidy from any slot on. */
  lemma TidyAt(d: Slots, p: nat)
    requires p < |d| && NoEnd(d[..p]) && Tidy(d, Idle)
    ensures Tidy(d[p..], EndState(d[..p], Idle)) && d[p..][0] == d[p] && d[p..][1..] == d[p + 1..]
  {
    assert d == d[..p] + d[p..];
    TidyAppend(d[..p], d[p..], Idle);
  }

  /** In a tidy directory the open run is exactly the long-name slots right before,
      all with the run's checksum, and the slot before those is none. */
  lemma {:induction false} GroupFacts(d: Slots, p: nat)
    requires p <= |d| && NoEnd(d[..p]) && Tidy(d, Idle)
    ensures var st, s := EndState(d[..p], Idle), GroupStart(d, p);
            && EndState(d[..s], Idle) == Idle
            && (forall i :: s <= i < p ==> !IsFree(d[i]) && IsLfn(d[i]) && st.Run? && d[i][13] == st.sum)
            && (s > 0 ==> !IsLfn(d[s - 1]) || d[s - 1][0] == DELETED)
    decreases p
  {
    hide EndState, AfterLfn, IsLabel, Checksum;
    if p == 0 {
      EndStateNone(Idle);
      assert d[..0] == [];
    } else {
      assert d[..p - 1] == d[..p][..p - 1] && d[p - 1] == d[..p][p - 1];
      Snoc(d, p);
      TidyAt(d, p - 1);
      var st', st := EndState(d[..p - 1], Idle), EndState(d[..p], Idle);
      if st.Run? {
        GroupFacts(d, p - 1);
        RunContinues(st', d[p - 1]);
      }
    }
  }

  /** A long-name slot that keeps a run open has the run's checksum. */
  lemma RunContinues(st: LfnState, de: Slot)
    requires Sane(st)
    ensures AfterLfn(st, de).Run? ==> AfterLfn(st, de).sum == de[13]
    ensures AfterLfn(st, de).Run? && st.Run? && de[0] / 64 % 2 == 0 ==> st.sum == de[13]
  {
  }

  /** Deletion marks report nothing and leave no run open. */
  lemma {:induction false} ScanDead(dead: Slots, post: Slots, base: nat)
    requires (forall i :: 0 <= i < |dead| ==> dead[i][0] == DELETED) && Tidy(post, Idle)
    ensures Scan(dead + post, Idle, base) == Scan(post, Idle, base + |dead|)
    ensures Tidy(dead + post, Idle)
    decreases |dead|
  {
    hide AfterLfn, IsLabel, IsLfn, ItemOf, Blank, Checksum;
    if dead == [] {
      assert dead + post == post;
    } else {
      var d := dead + post;
      assert d[1..] == dead[1..] + post && d[0] == dead[0];
      ScanDead(dead[1..], post, base + 1);
    }
  }

  function Later(a: nat, b: nat): nat {
    if a < b then b else a
  }

  /** The backward scan stops exactly at the start of the entry's own run, or at the
      start of the cluster if the run begins in an earlier one. */
  lemma RunStartIs(d: Slots, p: nat, lo: nat)
    requires p < |d| && NoEnd(d[..p]) && Tidy(d, Idle) && IsShort(d[p]) && lo <= p
    ensures RunStart(d, p, lo, Checksum(d[p][..11], 11)) == Later(GroupStart(d, p), lo)
    ensures EndState(d[..GroupStart(d, p)], Idle) == Idle
    ensures forall i :: GroupStart(d, p) <= i < p ==> !IsFree(d[i]) && IsLfn(d[i])
  {
    hide EndState, AfterLfn, Checksum;
    GroupFacts(d, p);
    TidyAt(d, p);
    var sum, s := Checksum(d[p][..11], 11), GroupStart(d, p);
    assert forall i :: s <= i < p ==> BelongsTo(d[i], sum);
  }

  /** Inside an entry's run the scan has a name under construction. */
  lemma {:induction false} RunIsOpen(d: Slots, p: nat, i: nat)
    requires i <= p <= |d| && GroupStart(d, p) < i
    ensures EndState(d[..i], Idle).Run?
    decreases p
  {
    if i < p {
      RunIsOpen(d, p - 1, i);
    }
  }

  /** Marks behind the head of a run end it silently; they are tidy only if no such
      head is left. */
  lemma LeftOver(left: Slots, dead: Slots, post: Slots, base: nat)
    requires forall i :: 0 <= i < |left| ==> !IsFree(left[i]) && IsLfn(left[i])
    requires |dead| > 0 && (forall i :: 0 <= i < |dead| ==> dead[i][0] == DELETED) && Tidy(post, Idle)
    ensures Scan(left + (dead + post), Idle, base) == Scan(post, Idle, base + |left| + |dead|)
    ensures EndState(left, Idle).Run? ==> !Tidy(left + (dead + post), Idle)
    ensures left == [] ==> Tidy(left + (dead + post), Idle)
  {
    hide EndState, AfterLfn, IsLfn, IsLabel, Checksum, ItemOf;
    RunNoEnd(left);
    RunSilent(left, Idle, base);
    var st, rest := EndState(left, Idle), dead[1..] + post;
    assert (dead + post)[0] == dead[0] && (dead + post)[1..] == rest;
    ScanAppend(left, dead + post, Idle, base);
    TidyAppend(left, dead + post, Idle);
    ScanDead(dead[1..], post, base + |left| + 1);
    assert left == [] ==> left + (dead + post) == dead + post;
    assert Scan(dead + post, st, base + |left|) == Scan(rest, Idle, base + |left| + 1);
  }

  /** Deleting an entry takes exactly its item out of what the directory reports. The
      directory stays well-formed exactly if the entry's run begins in its own cluster:
      otherwise the head of the run stays behind as orphan slots, which report nothing. */
  lemma DeleteRemoves(d: Slots, p: nat, lo: nat) returns (k: nat)
    requires p < |d| && NoEnd(d[..p]) && Tidy(d, Idle) && IsShort(d[p]) && lo <= p
    ensures k < |Items(d)| && Items(d)[k].pos == p && Items(d)[k].raw == d[p][..11]
    ensures Items(Delete(d, p, lo)) == Items(d)[..k] + Items(d)[k + 1..]
    ensures Tidy(Delete(d, p, lo), Idle) <==> lo <= GroupStart(d, p)
  {
    hide Tidy, Scan, EndState, Items, IsLfn, LongName, GroupStart, RunStart, Checksum, Cluster, Size, Later;
    k := |Scan(d[..GroupStart(d, p)], Idle, 0)|;
    DeleteItems(d, p, lo);
    DeleteTidy(d, p, lo);
  }

  /** The directory before and after the deletion, in pieces. */
  lemma Pieces(d: Slots, p: nat, lo: nat)
    requires p < |d| && NoEnd(d[..p]) && Tidy(d, Idle) && IsShort(d[p]) && lo <= p
    ensures var s, t := GroupStart(d, p), Later(GroupStart(d, p), lo);
            var pre, left, dead, post := d[..s], d[s..t], Marked(d, t, p)[t..p + 1], d[p + 1..];
            && s <= t <= p
            && d == pre + (d[s..p] + [d[p]] + post)
            && Delete(d, p, lo) == pre + (left + (dead + post))
            && |dead| > 0 && (forall i :: 0 <= i < |dead| ==> dead[i][0] == DELETED)
            && NoEnd(pre) && EndState(pre, Idle) == Idle && Tidy(post, Idle)
            && (forall i :: 0 <= i < |left| ==> !IsFree(left[i]) && IsLfn(left[i]))
            && (forall i :: 0 <= i < p - s ==> !IsFree(d[s..p][i]) && IsLfn(d[s..p][i]))
  {
    hide Tidy, EndState, GroupStart, RunStart, Checksum, IsLfn, IsFree, IsShort;
    RunStartIs(d, p, lo);
    var s, t := GroupStart(d, p), Later(GroupStart(d, p), lo);
    assert NoEnd(d[..s]) by { assert d[..s] == d[..p][..s]; }
    hide NoEnd;
    assert Delete(d, p, lo) == Marked(d, t, p);
    hide Delete;
    MarkedPieces(d, s, t, p);
    hide Marked, Later;
    SplitAt(d, s, p);
    assert forall i :: 0 <= i < p - s ==> d[s..p][i] == d[s + i];
    assert forall i :: 0 <= i < t - s ==> d[s..t][i] == d[s + i];
    GroupedTidy(d[..s], d[s..p], d[p], d[p + 1..]);
  }

  lemma SplitAt(d: Slots, s: nat, p: nat)
    requires s <= p < |d|
    ensures d == d[..s] + (d[s..p] + [d[p]] + d[p + 1..])
  {
  }

  lemma MarkedPieces(d: Slots, s: nat, t: nat, p: nat)
    requires s <= t <= p < |d|
    ensures Marked(d, t, p) == d[..s] + (d[s..t] + (Marked(d, t, p)[t..p + 1] + d[p + 1..]))
    ensures var dead := Marked(d, t, p)[t..p + 1]; forall i :: 0 <= i < |dead| ==> dead[i][0] == DELETED
  {
  }

  lemma DeleteItems(d: Slots, p: nat, lo: nat)
    requires p < |d| && NoEnd(d[..p]) && Tidy(d, Idle) && IsShort(d[p]) && lo <= p
    ensures var k := |Scan(d[..GroupStart(d, p)], Idle, 0)|;
            && k < |Items(d)| && Items(d)[k].pos == p && Items(d)[k].raw == d[p][..11]
            && Items(Delete(d, p, lo)) == Items(d)[..k] + Items(d)[k + 1..]
  {
    hide Tidy, Scan, EndState, Items, IsLfn, LongName, GroupStart, RunStart, Checksum, Cluster, Size, Later, Delete,
         Marked, NoEnd, IsFree, IsShort;
    Pieces(d, p, lo);
    var s, t := GroupStart(d, p), Later(GroupStart(d, p), lo);
    var pre, left, dead, post := d[..s], d[s..t], Marked(d, t, p)[t..p + 1], d[p + 1..];
    Grouped(pre, d[s..p], d[p], post);
    LeftOver(left, dead, post, s);
    ScanAppend(pre, left + (dead + post), Idle, 0);
    ItemsIs(d);
    ItemsIs(Delete(d, p, lo));
    var a, b := Scan(pre, Idle, 0), Scan(post, Idle, p + 1);
    assert Items(d)[..|a|] == a && Items(d)[|a| + 1..] == b;
  }

  lemma DeleteTidy(d: Slots, p: nat, lo: nat)
    requires p < |d| && NoEnd(d[..p]) && Tidy(d, Idle) && IsShort(d[p]) && lo <= p
    ensures Tidy(Delete(d, p, lo), Idle) <==> lo <= GroupStart(d, p)
  {
    hide Tidy, Scan, EndState, IsLfn, GroupStart, RunStart, Checksum, Delete, Marked, NoEnd, IsFree, IsShort;
    Pieces(d, p, lo);
    var s, t := GroupStart(d, p), Later(GroupStart(d, p), lo);
    var pre, left, dead, post := d[..s], d[s..t], Marked(d, t, p)[t..p + 1], d[p + 1..];
    LeftOver(left, dead, post, s);
    if lo <= s {
      assert left == [];
      TidySwap(pre, d[s..p] + [d[p]] + post, left + (dead + post), Idle);
    } else {
      assert d[..t] == pre + left;
      EndAppend(pre, left, Idle);
      RunIsOpen(d, p, t);
      TidyAppend(pre, left + (dead + post), Idle);
    }
  }

  lemma RunNoEnd(run: Slots)
    requires forall i :: 0 <= i < |run| ==> !IsFree(run[i]) && IsLfn(run[i])
    ensures NoEnd(run)
  {
  }

  lemma OneNoEnd(de: Slot)
    requires IsShort(de)
    ensures NoEnd([de])
  {
  }

  /** An entry with its run at the front reports its item. */
  lemma GroupScan(run: Slots, de: Slot, post: Slots, base: nat)
    requires IsShort(de) && forall i :: 0 <= i < |run| ==> !IsFree(run[i]) && IsLfn(run[i])
    ensures Scan(run + [de] + post, Idle, base)
         == [ItemOf(EndState(run, Idle), de, base + |run|)] + Scan(post, Idle, base + |run| + 1)
  {
    hide Tidy, Scan, EndState, ItemOf, NoEnd, IsShort;
    RunNoEnd(run);
    OneNoEnd(de);
    RunSilent(run, Idle, base);
    hide IsFree, IsLfn;
    var st := EndState(run, Idle);
    assert run + [de] + post == run + ([de] + post);
    ScanAppend(run, [de] + post, Idle, base);
    ScanAppend([de], post, st, base + |run|);
    ShortScan(de, st, base + |run|);
  }

  /** A directory split at one entry with its run. */
  lemma Grouped(pre: Slots, run: Slots, de: Slot, post: Slots)
    requires NoEnd(pre) && EndState(pre, Idle) == Idle && IsShort(de)
    requires forall i :: 0 <= i < |run| ==> !IsFree(run[i]) && IsLfn(run[i])
    ensures Scan(pre + (run + [de] + post), Idle, 0)
         == Scan(pre, Idle, 0) + [ItemOf(EndState(run, Idle), de, |pre| + |run|)]
            + Scan(post, Idle, |pre| + |run| + 1)
  {
    hide Scan, EndState, ItemOf, NoEnd, IsShort, IsFree, IsLfn;
    var a, it, b := Scan(pre, Idle, 0), ItemOf(EndState(run, Idle), de, |pre| + |run|),
                    Scan(post, Idle, |pre| + |run| + 1);
    var rest := run + [de] + post;
    assert Scan(rest, Idle, |pre|) == [it] + b by { GroupScan(run, de, post, |pre|); }
    ScanAppend(pre, rest, Idle, 0);
    Joined(a, it, b);
  }

  lemma Joined(a: seq<Item>, it: Item, b: seq<Item>)
    ensures a + ([it] + b) == a + [it] + b
  {
  }

  /** The slots behind that entry are tidy by themselves. */
  lemma GroupedTidy(pre: Slots, run: Slots, de: Slot, post: Slots)
    requires NoEnd(pre) && EndState(pre, Idle) == Idle && IsShort(de)
    requires forall i :: 0 <= i < |run| ==> !IsFree(run[i]) && IsLfn(run[i])
    requires Tidy(pre + (run + [de] + post), Idle)
    ensures Tidy(post, Idle)
  {
    hide Tidy, EndState, NoEnd, IsShort;
    RunNoEnd(run);
    OneNoEnd(de);
    hide IsFree, IsLfn;
    var st := EndState(run, Idle);
    assert run + [de] + post == run + ([de] + post);
    ShortScan(de, st, 0);
    TidyAppend(pre, run + [de] + post, Idle);
    TidyAppend(run, [de] + post, Idle);
    TidyAppend([de], post, st);
  }

  /** A reported item sits in a short slot before any end mark. */
  lemma {:induction false} Located(d: Slots, st: LfnState, base: nat, it: Item)
    requires Sane(st) && it in Scan(d, st, base)
    ensures base <= it.pos < base + |d| && NoEnd(d[..it.pos - base]) && IsShort(d[it.pos - base])
    decreases |d|
  {
    hide After, LongName;
    if it in Scan(d[1..], After(st, d[0]), base + 1) {
      Located(d[1..], After(st, d[0]), base + 1, it);
      assert d[..it.pos - base] == [d[0]] + d[1..][..it.pos - base - 1];
    }
  }

  /** No two reported items share a slot. */
  lemma {:induction false} PositionsApart(d: Slots, st: LfnState, base: nat, j: nat, k: nat)
    requires Sane(st) && j < k < |Scan(d, st, base)|
    ensures Scan(d, st, base)[j].pos < Scan(d, st, base)[k].pos
    decreases |d|
  {
    hide After, LongName;
    var rest := Scan(d[1..], After(st, d[0]), base + 1);
    if !IsShort(d[0]) {
      PositionsApart(d[1..], After(st, d[0]), base + 1, j, k);
    } else if j > 0 {
      PositionsApart(d[1..], After(st, d[0]), base + 1, j - 1, k - 1);
    } else {
      Located(d[1..], After(st, d[0]), base + 1, rest[k - 1]);
    }
  }

  /** Deleting what a lookup found takes out exactly that item. */
  lemma DeleteFound(d: Slots, w: Name, lo: nat) returns (k: nat)
    requires Tidy(d, Idle) && Find(Items(d), w).Some?
    requires lo <= Find(Items(d), w).value.pos < |d|
    ensures var p := Find(Items(d), w).value.pos;
            && k < |Items(d)| && Items(d)[k] == Find(Items(d), w).value
            && Items(Delete(d, p, lo)) == Items(d)[..k] + Items(d)[k + 1..]
            && (Tidy(Delete(d, p, lo), Idle) <==> lo <= GroupStart(d, p))
  {
    hide Tidy, Scan, Delete, GroupStart;
    var it := Find(Items(d), w).value;
    Located(d, Idle, 0, it);
    k := DeleteRemoves(d, it.pos, lo);
    var j :| 0 <= j < |Items(d)| && Items(d)[j] == it;
    if j < k {
      PositionsApart(d, Idle, 0, j, k);
    } else if k < j {
      PositionsApart(d, Idle, 0, k, j);
    }
  }

  /** Every lookup that did not find the deleted entry finds the same as before, and
      one that did finds the next entry of that name, if there is one. */
  lemma {:induction false} LookupsAfterDelete(items: seq<Item>, k: nat, w: Name)
    requires k < |items|
    ensures var rest := items[..k] + items[k + 1..];
            Find(rest, w) == if Find(items[..k], w).Some? then Find(items[..k], w) else Find(items[k + 1..], w)
    ensures Find(items, w) == if Find(items[..k], w).Some? then Find(items[..k], w)
                              else if Matches(items[k], w) then Some(items[k]) else Find(items[k + 1..], w)
  {
    FindInserted(items[..k], items[k], items[k + 1..], w);
    assert items == items[..k] + [items[k]] + items[k + 1..];
  }
}
