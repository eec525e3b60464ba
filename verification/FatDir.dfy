/** Directories of fs/fat32.c as the sequence of their slots in chain order: what a
    scan reports, where a new entry goes, and that storing and deleting entries
    changes exactly one reported item. */
module FatDir {
  import opened Basics
  import opened Words
  import opened FatLfn

  /** One reported entry and the slot it sits in. */
  datatype Item = Item(pos: nat, raw: Raw, long: Name, attr: u8, clus: int, size: int)

  type Slots = seq<Slot>

  // ----- Scanning (dir_iterate_inner) and looking up (dir_lookup) -----

  function ItemOf(st: LfnState, de: Slot, pos: nat): Item
    requires Sane(st)
  {
    Item(pos, de[..11], LongName(st, de), de[11], Cluster(de), Size(de))
  }

  /** What the scan reports from here on; a first byte of zero ends it. */
  function Scan(d: Slots, st: LfnState, base: nat): seq<Item>
    requires Sane(st)
    decreases |d|
  {
    if d == [] || d[0][0] == 0 then []
    else
      var rest := Scan(d[1..], After(st, d[0]), base + 1);
      if IsShort(d[0]) then [ItemOf(st, d[0], base)] + rest else rest
  }

  function Items(d: Slots): seq<Item> {
    Scan(d, Idle, 0)
  }

  /** The scan's state behind these slots. */
  function EndState(d: Slots, st: LfnState): (r: LfnState)
    requires Sane(st)
    ensures Sane(r)
    decreases |d|
  {
    if d == [] then st else EndState(d[1..], After(st, d[0]))
  }

  predicate Matches(it: Item, w: Name) {
    (it.long != [] && SameName(w, it.long)) || SameName(w, FormatName(it.raw))
  }

  /** The entry is a directory. */
  predicate IsDirItem(it: Item) {
    it.attr / 16 % 2 == 1
  }

  function Find(items: seq<Item>, w: Name): (r: Option<Item>)
    ensures r.Some? ==> r.value in items && Matches(r.value, w)
    ensures r.None? ==> forall it :: it in items ==> !Matches(it, w)
    decreases |items|
  {
    if items == [] then None
    else if Matches(items[0], w) then Some(items[0]) else Find(items[1..], w)
  }

  // ----- Well-formed directories -----

  predicate Blank(d: Slots) {
    forall i :: 0 <= i < |d| ==> d[i][0] == 0
  }

  predicate NoEnd(d: Slots) {
    forall i :: 0 <= i < |d| ==> d[i][0] != 0
  }

  predicate AllFree(d: Slots) {
    forall i :: 0 <= i < |d| ==> IsFree(d[i])
  }

  /** No orphan long-name run, and nothing but zero behind the first zero. */
  predicate Tidy(d: Slots, st: LfnState)
    requires Sane(st)
    decreases |d|
  {
    if d == [] then st.Idle?
    else if d[0][0] == 0 then st.Idle? && Blank(d)
    else if IsFree(d[0]) then st.Idle? && Tidy(d[1..], Idle)
    else if IsLfn(d[0]) then
      (d[0][0] / 64 % 2 == 1 ==> st.Idle?) && AfterLfn(st, d[0]).Run? && Tidy(d[1..], AfterLfn(st, d[0]))
    else if IsLabel(d[0]) then st.Idle? && Tidy(d[1..], Idle)
    else (st.Run? ==> st.due == 0 && st.sum == Checksum(d[0][..11], 11)) && Tidy(d[1..], Idle)
  }

  // ----- Scanning piecewise -----

  lemma {:induction false} ScanAppend(a: Slots, b: Slots, st: LfnState, base: nat)
    requires Sane(st) && NoEnd(a)
    ensures Scan(a + b, st, base) == Scan(a, st, base) + Scan(b, EndState(a, st), base + |a|)
    decreases |a|
  {
    if a == [] {
      assert a + b == b;
    } else {
      assert (a + b)[1..] == a[1..] + b;
      ScanAppend(a[1..], b, After(st, a[0]), base + 1);
    }
  }

  lemma {:induction false} EndAppend(a: Slots, b: Slots, st: LfnState)
    requires Sane(st)
    ensures EndState(a + b, st) == EndState(b, EndState(a, st))
    decreases |a|
  {
    if a == [] {
      assert a + b == b;
    } else {
      assert (a + b)[1..] == a[1..] + b;
      EndAppend(a[1..], b, After(st, a[0]));
    }
  }

  lemma {:induction false} TidyAppend(a: Slots, b: Slots, st: LfnState)
    requires Sane(st) && NoEnd(a)
    ensures Tidy(a + b, st) ==> Tidy(b, EndState(a, st))
    decreases |a|
  {
    if a == [] {
      assert a + b == b;
    } else {
      assert (a + b)[1..] == a[1..] + b;
      TidyAppend(a[1..], b, After(st, a[0]));
    }
  }

  /** Putting a tidy rest behind the same slots. */
  lemma {:induction false} TidySwap(a: Slots, b: Slots, c: Slots, st: LfnState)
    requires Sane(st) && NoEnd(a) && Tidy(a + b, st) && Tidy(c, EndState(a, st))
    ensures Tidy(a + c, st)
    decreases |a|
  {
    if a == [] {
      assert a + c == c;
    } else {
      assert (a + b)[1..] == a[1..] + b;
      assert (a + c)[1..] == a[1..] + c;
      TidySwap(a[1..], b, c, After(st, a[0]));
    }
  }

  lemma {:induction false} ScanBlank(d: Slots, st: LfnState, base: nat)
    requires Sane(st) && Blank(d)
    ensures Scan(d, st, base) == []
  {
  }

  /** Free slots report nothing and leave no run open; the rest is scanned as if
      it came first, unless a zero ends the scan, and then the rest is blank. */
  lemma {:induction false} ScanFree(mid: Slots, post: Slots, base: nat)
    requires AllFree(mid) && Tidy(mid + post, Idle)
    ensures Scan(mid + post, Idle, base) == Scan(post, Idle, base + |mid|)
    ensures Tidy(post, Idle)
    decreases |mid|
  {
    if mid == [] {
      assert mid + post == post;
    } else if mid[0][0] == 0 {
      assert forall i :: 0 <= i < |post| ==> post[i] == (mid + post)[|mid| + i];
      ScanBlank(post, Idle, base + |mid|);
      if post != [] {
        assert post[0][0] == 0;
      }
    } else {
      assert (mid + post)[1..] == mid[1..] + post;
      ScanFree(mid[1..], post, base + 1);
    }
  }

  // ----- Storing an entry -----

  /** Writing a complete entry (long-name slots and short slot) over free slots adds
      exactly its item, at its place. */
  lemma InsertItem(pre: Slots, mid: Slots, post: Slots, enc: Slots, it: Item)
    requires NoEnd(pre) && AllFree(mid) && |mid| > 0 && |enc| == |mid| && Tidy(pre + mid + post, Idle)
    requires NoEnd(enc) && EndState(enc, Idle) == Idle && Tidy(enc, Idle)
    requires Scan(enc, Idle, |pre|) == [it]
    ensures EndState(pre, Idle) == Idle
    ensures Items(pre + mid + post) == Scan(pre, Idle, 0) + Scan(post, Idle, |pre| + |mid|)
    ensures Items(pre + enc + post) == Scan(pre, Idle, 0) + [it] + Scan(post, Idle, |pre| + |mid|)
    ensures Tidy(pre + enc + post, Idle)
  {
    hide Scan, EndState, Items;
    assert pre + mid + post == pre + (mid + post) && pre + enc + post == pre + (enc + post);
    TidyAppend(pre, mid + post, Idle);
    assert (mid + post)[0] == mid[0];
    hide After;
    ScanAppend(pre, mid + post, Idle, 0);
    ScanFree(mid, post, |pre|);
    ScanAppend(pre, enc + post, Idle, 0);
    ScanAppend(enc, post, Idle, |pre|);
    EncTidy(enc, post);
    TidySwap(pre, mid + post, enc + post, Idle);
    ItemsIs(pre + mid + post);
    ItemsIs(pre + enc + post);
    assert Scan(pre, Idle, 0) + ([it] + Scan(post, Idle, |pre| + |mid|))
        == Scan(pre, Idle, 0) + [it] + Scan(post, Idle, |pre| + |mid|);
  }

  lemma ItemsIs(d: Slots)
    ensures Items(d) == Scan(d, Idle, 0)
  {
  }

  lemma EncTidy(enc: Slots, post: Slots)
    requires NoEnd(enc) && EndState(enc, Idle) == Idle && Tidy(enc, Idle) && Tidy(post, Idle)
    ensures Tidy(enc + post, Idle)
  {
    assert enc + [] == enc;
    TidySwap(enc, [], post, Idle);
  }

  /** What a lookup finds once one item is added between the others. */
  lemma {:induction false} FindInserted(a: seq<Item>, it: Item, b: seq<Item>, w: Name)
    ensures Find(a + [it] + b, w)
         == if Find(a, w).Some? then Find(a, w) else if Matches(it, w) then Some(it) else Find(b, w)
    ensures Find(a + b, w) == if Find(a, w).Some? then Find(a, w) else Find(b, w)
    decreases |a|
  {
    if a == [] {
      assert a + [it] + b == [it] + b && ([it] + b)[1..] == b && a + b == b;
    } else {
      assert (a + [it] + b)[1..] == a[1..] + [it] + b && (a + b)[1..] == a[1..] + b;
      FindInserted(a[1..], it, b, w);
    }
  }

  /** The new item answers to names nobody answered to before; so every lookup of
      another name, with any spelling, gives the item it gave before. */
  lemma LookupAfterPut(a: seq<Item>, it: Item, b: seq<Item>, w: Name)
    requires forall x :: Matches(it, x) ==> Find(a + b, x).None?
    ensures Find(a + [it] + b, w) == if Matches(it, w) then Some(it) else Find(a + b, w)
  {
    FindInserted(a, it, b, w);
  }

  // ----- The slots of a new entry -----

  /** `enc` is the entry for `name`: its long-name slots from the highest ordinal
      down, and the short entry. */
  ghost predicate EntrySlots(enc: Slots, name: Name, raw: Raw, attr: u8, clus: int, size: int) {
    var n := LfnSlots(|name|);
    && n < 32 && |enc| == n + 1
    && (forall k :: 0 <= k < n ==> IsLfnSlot(enc[k], n - k, n, Checksum(raw, 11), name))
    && ShortSlot(enc[n], raw, attr, clus, size)
  }

  ghost predicate ShortSlot(de: Slot, raw: Raw, attr: u8, clus: int, size: int) {
    de[..11] == raw && de[11] == attr && Cluster(de) == clus && Size(de) == size && IsShort(de)
  }

  /** The scan over the first `k` slots of the run. */
  lemma {:induction false} RunSoFar(enc: Slots, name: Name, raw: Raw, attr: u8, clus: int, size: int, k: nat)
    requires EntrySlots(enc, name, raw, attr, clus, size) && |name| < 260 && LfnSlots(|name|) <= 20
    requires forall i :: 0 <= i < |name| ==> name[i] != 0
    requires 1 <= k <= LfnSlots(|name|)
    ensures Midway(EndState(enc[..k], Idle), name, LfnSlots(|name|) - k, Checksum(raw, 11))
    ensures forall i :: 0 <= i < k ==> !IsFree(enc[i]) && IsLfn(enc[i])
    decreases k
  {
    hide Midway, After, IsLfnSlot, ShortSlot, Checksum;
    var n := LfnSlots(|name|);
    if k == 1 {
      assert enc[..1] == [enc[0]];
      RunStarts(Idle, enc[0], n, Checksum(raw, 11), name);
      OneSlot(enc[0], Idle);
    } else {
      RunSoFar(enc, name, raw, attr, clus, size, k - 1);
      assert enc[..k] == enc[..k - 1] + [enc[k - 1]];
      EndAppend(enc[..k - 1], [enc[k - 1]], Idle);
      OneSlot(enc[k - 1], EndState(enc[..k - 1], Idle));
      RunGoesOn(EndState(enc[..k - 1], Idle), enc[k - 1], n - k + 1, Checksum(raw, 11), name);
    }
  }

  lemma OneSlot(de: Slot, st: LfnState)
    requires Sane(st)
    ensures EndState([de], st) == After(st, de)
  {
    assert [de][1..] == [];
  }

  /** Slots of a run report nothing. */
  lemma {:induction false} RunSilent(d: Slots, st: LfnState, base: nat)
    requires Sane(st) && forall i :: 0 <= i < |d| ==> !IsFree(d[i]) && IsLfn(d[i])
    ensures Scan(d, st, base) == []
    decreases |d|
  {
    if d != [] {
      RunSilent(d[1..], After(st, d[0]), base + 1);
    }
  }

  /** The scan reads a stored long name back, exactly if it is 7-bit. */
  lemma EntryReadsBack(enc: Slots, name: Name, raw: Raw, attr: u8, clus: int, size: int, base: nat)
    requires EntrySlots(enc, name, raw, attr, clus, size) && |name| < 260 && LfnSlots(|name|) <= 20
    requires forall i :: 0 <= i < |name| ==> name[i] != 0
    ensures Scan(enc, Idle, base) == [Item(base + LfnSlots(|name|), raw, Narrowed(name), attr, clus, size)]
    ensures NoEnd(enc) && EndState(enc, Idle) == Idle && Tidy(enc, Idle)
  {
    hide Scan, EndState, Tidy, After, Midway, Checksum, IsLfnSlot, LongName;
    var n := LfnSlots(|name|);
    var run, last := enc[..n], enc[n];
    RunSoFar(enc, name, raw, attr, clus, size, n);
    assert enc == run + [last];
    var st := EndState(run, Idle);
    RunSilent(run, Idle, base);
    ScanAppend(run, [last], Idle, base);
    RunNames(st, last, Checksum(raw, 11), name);
    ShortScan(last, st, base + n);
    EndAppend(run, [last], Idle);
    RunTidy(enc, name, raw, attr, clus, size, n);
    assert enc[n - n..] == enc && enc[..n - n] == [];
    EndStateNone(Idle);
  }

  lemma EndStateNone(st: LfnState)
    requires Sane(st)
    ensures EndState([], st) == st
  {
  }

  lemma ShortScan(de: Slot, st: LfnState, base: nat)
    requires Sane(st) && IsShort(de)
    ensures Scan([de], st, base) == [ItemOf(st, de, base)] && EndState([de], st) == Idle
  {
    assert [de][1..] == [];
  }

  /** From the k-th slot on, the entry is tidy behind its first k slots. */
  lemma {:induction false} RunTidy(enc: Slots, name: Name, raw: Raw, attr: u8, clus: int, size: int, k: nat)
    requires EntrySlots(enc, name, raw, attr, clus, size) && |name| < 260 && LfnSlots(|name|) <= 20
    requires forall i :: 0 <= i < |name| ==> name[i] != 0
    requires k <= LfnSlots(|name|)
    ensures Tidy(enc[LfnSlots(|name|) - k..], EndState(enc[..LfnSlots(|name|) - k], Idle))
    decreases k
  {
    hide After, AfterLfn, Checksum;
    var n := LfnSlots(|name|);
    var at := n - k;
    RunSoFar(enc, name, raw, attr, clus, size, n);
    if at > 0 {
      RunSoFar(enc, name, raw, attr, clus, size, at);
    }
    var st := EndState(enc[..at], Idle);
    var rest := enc[at..];
    if k == 0 {
      assert rest == [enc[n]] && rest[1..] == [];
    } else {
      RunTidy(enc, name, raw, attr, clus, size, k - 1);
      RunSoFar(enc, name, raw, attr, clus, size, at + 1);
      assert rest[1..] == enc[at + 1..];
      assert enc[..at + 1] == enc[..at] + [enc[at]];
      EndAppend(enc[..at], [enc[at]], Idle);
      OneSlot(enc[at], st);
      AfterIsLfn(st, enc[at]);
      hide Midway;
      StartBit(enc[at], n - at, n, Checksum(raw, 11), name);
      assert at == 0 ==> st == Idle;
    }
  }

  lemma AfterIsLfn(st: LfnState, de: Slot)
    requires Sane(st) && !IsFree(de) && IsLfn(de)
    ensures After(st, de) == AfterLfn(st, de)
  {
  }

  lemma StartBit(de: Slot, ord: nat, n: nat, sum: u8, name: Name)
    requires 1 <= ord <= n < 32 && IsLfnSlot(de, ord, n, sum, name)
    ensures de[0] / 64 % 2 == 1 <==> ord == n
  {
  }

  /** A lone short entry. */
  lemma ShortReadsBack(de: Slot, raw: Raw, attr: u8, clus: int, size: int, base: nat)
    requires ShortSlot(de, raw, attr, clus, size)
    ensures Scan([de], Idle, base) == [Item(base, raw, [], attr, clus, size)]
    ensures NoEnd([de]) && EndState([de], Idle) == Idle && Tidy([de], Idle)
  {
    assert [de][1..] == [];
  }
}
