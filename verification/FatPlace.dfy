/** Where fs/fat32.c puts a new directory entry: a run of free slots inside one
    sector, after turning end marks it passes into deleted ones, or one more
    cluster.  None of that changes what the directory reports. */
module FatPlace {
  import opened Basics
  import opened FatLfn
  import opened FatDir

  predicate RunAt(d: Slots, p: nat, count: nat) {
    p + count <= |d| && forall i :: p <= i < p + count ==> IsFree(d[i])
  }

  /** The first run of `count` free slots in [p, hi). */
  function FirstRun(d: Slots, p: nat, hi: nat, count: nat): (r: Option<nat>)
    requires hi <= |d|
    ensures r.Some? ==> p <= r.value && r.value + count <= hi && RunAt(d, r.value, count)
    ensures forall q :: p <= q && q + count <= hi && (r.None? || q < r.value) ==> !RunAt(d, q, count)
    decreases hi + 1 - p
  {
    if p + count > hi then None
    else if RunAt(d, p, count) then Some(p) else FirstRun(d, p + 1, hi, count)
  }

  function Erased(de: Slot): Slot {
    if de[0] == 0 then de[0 := DELETED] else de
  }

  /** The slots in [lo, hi) with every end mark turned into a deletion mark. */
  function Blanked(d: Slots, lo: int, hi: int): (r: Slots)
    ensures |r| == |d|
  {
    seq(|d|, i requires 0 <= i < |d| => if lo <= i < hi then Erased(d[i]) else d[i])
  }

  /** dir_alloc_run, sector by sector from slot `at` on. */
  function Place(d: Slots, count: nat, at: nat): (r: (Slots, Option<nat>))
    requires |d| % 16 == 0 && at % 16 == 0
    ensures |r.0| == |d|
    decreases |d| - at
  {
    if at >= |d| then (d, None)
    else
      match FirstRun(d, at, at + 16, count)
      case Some(p) => (d, Some(p))
      case None => Place(Blanked(d, at, at + 16), count, at + 16)
  }

  function BlankSlots(n: nat): (d: Slots)
    ensures |d| == n && Blank(d)
  {
    seq(n, i => Zeros(32))
  }

  /** ... and one more zeroed cluster of `perClus` slots where nothing fits, if the
      volume has `room` for it. */
  function AllocRun(d: Slots, count: nat, room: bool, perClus: nat): (Slots, Option<nat>)
    requires |d| % 16 == 0
  {
    if count < 1 || count > 16 then (d, None)
    else
      var r := Place(d, count, 0);
      if r.1.None? && room then (r.0 + BlankSlots(perClus), Some(|d|)) else r
  }

  // ----- End marks become deletion marks -----

  lemma {:induction false} BlankedBlank(d: Slots, hi: int, base: nat)
    requires Blank(d)
    ensures Scan(Blanked(d, 0, hi), Idle, base) == [] && Tidy(Blanked(d, 0, hi), Idle)
    decreases |d|
  {
    var b := Blanked(d, 0, hi);
    if d != [] {
      if hi > 0 {
        assert b[1..] == Blanked(d[1..], 0, hi - 1);
        BlankedBlank(d[1..], hi - 1, base + 1);
      } else {
        assert b == d;
      }
    }
  }

  lemma {:induction false} BlankedKeeps(d: Slots, st: LfnState, lo: nat, hi: int, base: nat)
    requires Sane(st) && lo <= |d| && NoEnd(d[..lo]) && Tidy(d, st)
    ensures Scan(Blanked(d, lo, hi), st, base) == Scan(d, st, base) && Tidy(Blanked(d, lo, hi), st)
    decreases |d|
  {
    hide After, AfterLfn, LongName, IsLabel, IsDir, Checksum;
    var b := Blanked(d, lo, hi);
    if d != [] {
      assert lo > 0 ==> d[0] == d[..lo][0];
      if d[0][0] == 0 {
        BlankedBlank(d, hi, base);
      } else {
        var lo1: nat := if lo == 0 then 0 else lo - 1;
        NoEndTail(d, lo);
        BlankedTail(d, lo, hi);
        NextState(d[0], st);
        BlankedKeeps(d[1..], After(st, d[0]), lo1, hi - 1, base + 1);
        assert b[0] == d[0];
      }
    }
  }

  lemma NoEndTail(d: Slots, n: nat)
    requires n <= |d| && d != [] && NoEnd(d[..n])
    ensures NoEnd(d[1..][..if n == 0 then 0 else n - 1])
  {
    if n > 0 {
      assert d[1..][..n - 1] == d[..n][1..];
    }
  }

  lemma BlankedTail(d: Slots, lo: nat, hi: int)
    requires d != []
    ensures Blanked(d, lo, hi)[1..] == Blanked(d[1..], if lo == 0 then 0 else lo - 1, hi - 1)
  {
  }

  lemma NextState(de: Slot, st: LfnState)
    requires Sane(st)
    ensures !IsFree(de) && IsLfn(de) ==> After(st, de) == AfterLfn(st, de)
    ensures IsFree(de) || !IsLfn(de) ==> After(st, de) == Idle
  {
  }

  /** A blank cluster behind a directory without end mark reports nothing. */
  lemma GrowKeeps(d: Slots, n: nat)
    requires NoEnd(d) && Tidy(d, Idle)
    ensures Items(d + BlankSlots(n)) == Items(d) && Tidy(d + BlankSlots(n), Idle)
  {
    var z := BlankSlots(n);
    assert d + [] == d;
    TidyAppend(d, [], Idle);
    TidySwap(d, [], z, Idle);
    ScanAppend(d, z, Idle, 0);
    ScanBlank(z, EndState(d, Idle), |d|);
    assert Scan(d, Idle, 0) + [] == Scan(d, Idle, 0);
  }

  // ----- Where the entry goes -----

  /** A zero in a tidy directory blanks everything behind it. */
  lemma {:induction false} ZerosBehind(d: Slots, st: LfnState, z: nat, i: nat)
    requires Sane(st) && Tidy(d, st) && z <= i < |d| && d[z][0] == 0
    ensures d[i][0] == 0
    decreases |d|
  {
    if d[0][0] != 0 {
      NextState(d[0], st);
      ZerosBehind(d[1..], After(st, d[0]), z - 1, i - 1);
    }
  }

  /** The chosen run in sector `at` has no end mark before it. */
  lemma NoEndBefore(d: Slots, at: nat, count: nat)
    requires at + 16 <= |d| && NoEnd(d[..at]) && Tidy(d, Idle) && 1 <= count
    requires FirstRun(d, at, at + 16, count).Some?
    ensures NoEnd(d[..FirstRun(d, at, at + 16, count).value])
  {
    var p := FirstRun(d, at, at + 16, count).value;
    forall z | 0 <= z < p
      ensures d[z][0] != 0
    {
      if z < at {
        assert d[..at][z] == d[z];
      } else if d[z][0] == 0 {
        forall i | z <= i < z + count
          ensures IsFree(d[i])
        {
          ZerosBehind(d, Idle, z, i);
        }
        assert RunAt(d, z, count);
      }
    }
  }

  /** dir_alloc_run reports the same items, and its run can be filled. */
  lemma {:induction false} PlaceTidy(d: Slots, count: nat, at: nat)
    requires |d| % 16 == 0 && at % 16 == 0 && at <= |d| && 1 <= count <= 16
    requires Tidy(d, Idle) && NoEnd(d[..at])
    ensures var r := Place(d, count, at);
            && Items(r.0) == Items(d) && Tidy(r.0, Idle)
            && match r.1
               case Some(p) => RunAt(r.0, p, count) && NoEnd(r.0[..p])
               case None => NoEnd(r.0)
    decreases |d| - at
  {
    hide Tidy, Scan;
    if at >= |d| {
      assert d[..at] == d;
    } else {
      match FirstRun(d, at, at + 16, count) {
        case Some(p) => NoEndBefore(d, at, count);
        case None =>
          var b := Blanked(d, at, at + 16);
          BlankedKeeps(d, Idle, at, at + 16, 0);
          forall i | 0 <= i < at + 16
            ensures b[i][0] != 0
          {
            assert i < at ==> d[..at][i] == d[i];
          }
          PlaceTidy(b, count, at + 16);
      }
    }
  }

  lemma AllocRunTidy(d: Slots, count: nat, room: bool, perClus: nat)
    requires |d| % 16 == 0 && 1 <= count <= 16 <= perClus && Tidy(d, Idle)
    ensures var r := AllocRun(d, count, room, perClus);
            && Items(r.0) == Items(d) && Tidy(r.0, Idle) && |d| <= |r.0|
            && (r.1.Some? ==> RunAt(r.0, r.1.value, count) && NoEnd(r.0[..r.1.value]))
            && (room ==> r.1.Some?)
  {
    PlaceTidy(d, count, 0);
    var r := Place(d, count, 0);
    if r.1.None? && room {
      GrowKeeps(r.0, perClus);
      var g := r.0 + BlankSlots(perClus);
      assert g[..|d|] == r.0;
      forall i | |d| <= i < |d| + count
        ensures IsFree(g[i])
      {
        assert g[i] == BlankSlots(perClus)[i - |d|];
      }
    }
  }

  // ----- dir_find_or_alloc -----

  datatype Choice = Existing(pos: nat) | Vacant(pos: nat) | Full

  function Chosen(free: Option<nat>, i: nat): nat {
    match free
    case Some(f) => f
    case None => i
  }

  /** The scan from slot `i` on, with the first free slot seen so far. */
  function FindSlot(d: Slots, raw: Raw, i: nat, free: Option<nat>): Choice
    requires i <= |d|
    decreases |d| - i
  {
    if i == |d| then (if free.Some? then Vacant(free.value) else Full)
    else if d[i][0] == 0 then Vacant(Chosen(free, i))
    else if d[i][0] == DELETED then FindSlot(d, raw, i + 1, Some(Chosen(free, i)))
    else if IsLfn(d[i]) || IsLabel(d[i]) || IsDir(d[i]) then FindSlot(d, raw, i + 1, free)
    else if d[i][..11] == raw then Existing(i)
    else FindSlot(d, raw, i + 1, free)
  }

  /** A slot with that short name, seen by the scan, is reported. */
  lemma {:induction false} Reported(d: Slots, st: LfnState, base: nat, i: nat)
    requires Sane(st) && i < |d| && NoEnd(d[..i]) && IsShort(d[i])
    ensures exists it :: it in Scan(d, st, base) && it.raw == d[i][..11] && it.pos == base + i
    decreases i
  {
    hide After;
    if i == 0 {
      assert Scan(d, st, base)[0] == ItemOf(st, d[0], base);
    } else {
      assert d[0] == d[..i][0];
      NoEndTail(d, i);
      Reported(d[1..], After(st, d[0]), base + 1, i - 1);
      var it :| it in Scan(d[1..], After(st, d[0]), base + 1) && it.raw == d[i][..11] && it.pos == base + i;
      assert it in Scan(d, st, base);
    }
  }

  /** For a short name nobody has, the first free slot is chosen, or none is free. */
  lemma {:induction false} FindsVacant(d: Slots, raw: Raw, i: nat, free: Option<nat>)
    requires i <= |d| && NoEnd(d[..i]) && forall it :: it in Items(d) ==> it.raw != raw
    requires match free
             case Some(f) => f < i && IsFree(d[f])
             case None => forall k :: 0 <= k < i ==> !IsFree(d[k])
    ensures match FindSlot(d, raw, i, free)
            case Existing(_) => false
            case Vacant(p) => p < |d| && IsFree(d[p]) && NoEnd(d[..p])
            case Full => NoEnd(d) && forall k :: 0 <= k < |d| ==> !IsFree(d[k])
    decreases |d| - i
  {
    if free.Some? {
      assert forall k :: 0 <= k < free.value ==> d[..free.value][k] == d[..i][k];
    }
    if i == |d| {
      assert d[..i] == d;
    } else if d[i][0] != 0 {
      assert forall k :: 0 <= k < i + 1 ==> k < i ==> d[..i + 1][k] == d[..i][k];
      if IsShort(d[i]) {
        Reported(d, Idle, 0, i);
      }
      FindsVacant(d, raw, i + 1, if d[i][0] == DELETED then Some(Chosen(free, i)) else free);
    }
  }
}
