/** Directory slots of fs/fat32.c: 8.3 names, long-name slots, the state the
    directory scan carries from slot to slot, and the proof that a long name
    written by dir_put_entry is read back by the scan. */
module FatLfn {
  import opened Words
  import opened FatDisk

  type Slot = s: seq<u8> | |s| == 32 witness seq(32, i => 0)

  type Raw = r: seq<u8> | |r| == 11 witness seq(11, i => 0)

  /** A name as the C string it is, without its terminator. */
  type Name = seq<u8>

  const SPACE: u8 := 0x20
  const DOT: u8 := 0x2E
  const TILDE: u8 := 0x7E
  const DELETED: u8 := 0xE5

  function Up(c: u8): u8 {
    if 0x61 <= c <= 0x7A then c - 32 else c
  }

  /** name_ieq. */
  predicate SameName(a: Name, b: Name) {
    |a| == |b| && forall i :: 0 <= i < |a| ==> Up(a[i]) == Up(b[i])
  }

  // ----- 8.3 names -----

  /** The characters up to the next `stop`, at most `max`. */
  function Until(s: Name, stop: u8, max: nat): (r: Name)
    ensures |r| <= max && |r| <= |s|
    ensures forall i :: 0 <= i < |r| ==> r[i] == s[i] && r[i] != stop
    ensures |r| == max || |r| == |s| || s[|r|] == stop
    decreases |s|
  {
    if s == [] || s[0] == stop || max == 0 then [] else [s[0]] + Until(s[1..], stop, max - 1)
  }

  function Upper(s: Name): (r: Name)
    ensures |r| == |s| && forall i :: 0 <= i < |s| ==> r[i] == Up(s[i])
  {
    seq(|s|, i requires 0 <= i < |s| => Up(s[i]))
  }

  function Padded(s: Name, n: nat): (r: Name)
    requires |s| <= n
    ensures |r| == n
  {
    s + seq(n - |s|, i => SPACE)
  }

  /** What follows the first dot. */
  function AfterDot(s: Name): (r: Name)
    ensures |r| <= |s|
    decreases |s|
  {
    if s == [] then [] else if s[0] == DOT then s[1..] else AfterDot(s[1..])
  }

  function Truncated(s: Name, n: nat): (r: Name)
    ensures |r| <= n && |r| <= |s|
  {
    if |s| <= n then s else s[..n]
  }

  /** parse_name. */
  function ParseName(name: Name): Raw {
    Padded(Upper(Until(name, DOT, 8)), 8) + Padded(Upper(Truncated(AfterDot(name), 3)), 3)
  }

  /** fmt_name. */
  function FormatName(raw: Raw): (r: Name)
    ensures |r| <= 12
  {
    Until(raw[..8], SPACE, 8) + if raw[8] != SPACE then [DOT] + Until(raw[8..], SPACE, 3) else []
  }

  predicate NeedsLfn(name: Name) {
    FormatName(ParseName(name)) != name
  }

  /** lfn_checksum over the first `n` bytes. */
  function Checksum(raw: Raw, n: nat): u8
    requires n <= 11
  {
    if n == 0 then 0
    else
      var sum := Checksum(raw, n - 1);
      var mixed: int := (sum % 2) * 0x80 + sum / 2;
      (mixed + raw[n - 1]) % 0x100
  }

  // ----- The scan, slot by slot -----

  /** Long-name bytes collected so far; idle when there is no run to finish. */
  datatype LfnState = Idle | Run(n: nat, due: nat, term: int, sum: u8, buf: seq<u8>)

  predicate IsLfn(de: Slot) {
    de[11] % 16 == 15
  }

  predicate IsLabel(de: Slot) {
    de[11] / 8 % 2 == 1
  }

  predicate IsDir(de: Slot) {
    de[11] / 16 % 2 == 1
  }

  predicate IsFree(de: Slot) {
    de[0] == 0 || de[0] == DELETED
  }

  /** A slot the scan reports: neither free nor long name nor volume label. */
  predicate IsShort(de: Slot) {
    !IsFree(de) && !IsLfn(de) && !IsLabel(de)
  }

  /** Byte offset of the j-th character in a long-name slot. */
  function CharOff(j: nat): (o: nat)
    requires j < 13
    ensures 1 <= o <= 30
  {
    if j < 5 then 1 + 2 * j else if j < 11 then 14 + 2 * (j - 5) else 28 + 2 * (j - 11)
  }

  function Char(de: Slot, j: nat): (c: int)
    requires j < 13
    ensures 0 <= c < 0x1_0000
  {
    Rd16(de, CharOff(j))
  }

  predicate IsEnd(c: int) {
    c == 0 || c == 0xFFFF
  }

  /** The first of the 13 characters that ends the name; 13 if none does. */
  function FirstEnd(de: Slot, j: nat): (f: nat)
    requires j <= 13
    ensures j <= f <= 13 && (forall k :: j <= k < f ==> !IsEnd(Char(de, k))) && (f < 13 ==> IsEnd(Char(de, f)))
    decreases 13 - j
  {
    if j == 13 || IsEnd(Char(de, j)) then j else FirstEnd(de, j + 1)
  }

  function Narrow(c: int): u8
    requires 0 <= c
  {
    if c < 0x80 then c else 0x3F
  }

  /** The buffer after one long-name slot whose first character has position `base`. */
  function Filled(buf: seq<u8>, de: Slot, base: nat): (r: seq<u8>)
    requires |buf| == 261
    ensures |r| == 261
  {
    seq(261, i requires 0 <= i < 261 => FilledAt(buf, de, base, i))
  }

  function FilledAt(buf: seq<u8>, de: Slot, base: nat, i: nat): u8
    requires |buf| == 261 && i < 261
  {
    if base <= i < base + 13 && i < 260 && !IsEnd(Char(de, i - base)) then Narrow(Char(de, i - base)) else buf[i]
  }

  function Ended(term: int, de: Slot, base: nat): int {
    var f := FirstEnd(de, 0);
    if f == 13 then term else if term < 0 || base + f < term then base + f else term
  }

  predicate Sane(st: LfnState) {
    st.Run? ==> |st.buf| == 261
  }

  function Zeros(n: nat): (z: seq<u8>)
    ensures |z| == n
  {
    seq(n, i => 0)
  }

  /** A long-name slot: a start opens a new run, anything out of order ends it. */
  function AfterLfn(st: LfnState, de: Slot): (r: LfnState)
    requires Sane(st)
    ensures Sane(r)
  {
    var ord: int := de[0] % 32;
    if de[0] / 64 % 2 == 1 && (ord < 1 || ord > 20) then Idle
    else
      var cur := if de[0] / 64 % 2 == 1 then Run(ord, ord, -1, de[13], Zeros(261)) else st;
      if cur.Idle? || ord != cur.due || de[13] != cur.sum || ord == 0 then Idle
      else cur.(due := cur.due - 1,
                buf := Filled(cur.buf, de, (ord - 1) * 13),
                term := Ended(cur.term, de, (ord - 1) * 13))
  }

  /** The long name a short entry gets: the finished run with its checksum, or none. */
  function LongName(st: LfnState, de: Slot): Name
    requires Sane(st)
  {
    if st.Run? && st.due == 0 then
      var term := if st.term >= 0 then st.term else st.n * 13;
      if st.sum == Checksum(de[..11], 11) && term <= 260 then st.buf[..term] else []
    else []
  }

  function After(st: LfnState, de: Slot): (r: LfnState)
    requires Sane(st)
    ensures Sane(r)
  {
    if !IsFree(de) && IsLfn(de) then AfterLfn(st, de) else Idle
  }

  // ----- Writing slots -----

  /** One character of a long-name slot: the name, its terminator, then padding. */
  function LfnChar(name: Name, idx: nat): (c: int)
    ensures 0 <= c < 0x1_0000
  {
    if idx < |name| then name[idx] else if idx == |name| then 0 else 0xFFFF
  }

  /** `de` is the long-name slot `ord` (of `n`) of `name`. */
  predicate IsLfnSlot(de: Slot, ord: nat, n: nat, sum: u8, name: Name)
    requires 1 <= ord <= n < 32
  {
    && de[0] == ord + (if ord == n then 0x40 else 0) && de[11] == 0x0F && de[13] == sum
    && forall j :: 0 <= j < 13 ==> Char(de, j) == LfnChar(name, (ord - 1) * 13 + j)
  }

  /** A long-name slot after its first `j` characters are filled in. */
  function LfnFilled(ord: nat, isLast: bool, sum: u8, name: Name, j: nat): (de: Slot)
    requires 1 <= ord < 32 && j <= 13
    ensures de[0] == ord + (if isLast then 0x40 else 0) && de[11] == 0x0F && de[13] == sum
    decreases j
  {
    if j == 0 then Zeros(32)[0 := ord + if isLast then 0x40 else 0][11 := 0x0F][13 := sum]
    else PutChar(LfnFilled(ord, isLast, sum, name, j - 1), j - 1, LfnChar(name, (ord - 1) * 13 + j - 1))
  }

  function LfnSlot(ord: nat, isLast: bool, sum: u8, name: Name): Slot
    requires 1 <= ord < 32
  {
    LfnFilled(ord, isLast, sum, name, 13)
  }

  /** set_lfn_entry. */
  method SetLfnEntry(ord: nat, isLast: bool, sum: u8, name: Name) returns (de: Slot)
    requires 1 <= ord < 32
    ensures de == LfnSlot(ord, isLast, sum, name)
  {
    de := Zeros(32);
    de := de[0 := ord + if isLast then 0x40 else 0][11 := 0x0F][13 := sum];
    var base := (ord - 1) * 13;
    var j := 0;
    while j < 13
      invariant 0 <= j <= 13 && de == LfnFilled(ord, isLast, sum, name, j)
    {
      var idx := base + j;
      var ch: int := if idx < |name| then name[idx] else if idx == |name| then 0 else 0xFFFF;
      de := PutChar(de, j, ch);
      j := j + 1;
    }
  }

  lemma {:induction false} FilledChars(ord: nat, isLast: bool, sum: u8, name: Name, j: nat, k: nat)
    requires 1 <= ord < 32 && k < j <= 13
    ensures Char(LfnFilled(ord, isLast, sum, name, j), k) == LfnChar(name, (ord - 1) * 13 + k)
    decreases j
  {
    hide Char, PutChar;
    PutCharChar(LfnFilled(ord, isLast, sum, name, j - 1), j - 1, LfnChar(name, (ord - 1) * 13 + j - 1), k);
    if k < j - 1 {
      FilledChars(ord, isLast, sum, name, j - 1, k);
    }
  }

  lemma LfnSlotIs(ord: nat, n: nat, sum: u8, name: Name)
    requires 1 <= ord <= n < 32
    ensures IsLfnSlot(LfnSlot(ord, ord == n, sum, name), ord, n, sum, name)
  {
    hide Char, LfnFilled;
    var isLast := ord == n;
    var de := LfnSlot(ord, isLast, sum, name);
    forall j | 0 <= j < 13
      ensures Char(de, j) == LfnChar(name, (ord - 1) * 13 + j)
    {
      FilledChars(ord, isLast, sum, name, 13, j);
    }
  }

  function PutChar(de: Slot, j: nat, c: int): (r: Slot)
    requires j < 13 && 0 <= c < 0x1_0000
    ensures r[0] == de[0] && r[11] == de[11] && r[13] == de[13]
  {
    de[CharOff(j) := c % 0x100][CharOff(j) + 1 := c / 0x100]
  }

  lemma PutCharChar(de: Slot, j: nat, c: int, k: nat)
    requires j < 13 && k < 13 && 0 <= c < 0x1_0000
    ensures Char(PutChar(de, j, c), k) == if k == j then c else Char(de, k)
  {
    if k != j {
      assert CharOff(k) + 2 <= CharOff(j) || CharOff(j) + 2 <= CharOff(k);
    }
  }

  /** set_dirent. */
  function Dirent(raw: Raw, attr: u8, clus: u32, size: u32, date: u16, time: u16): (de: Slot)
    ensures de[..11] == raw && de[11] == attr
  {
    raw + [attr, 0, 0] + Word(time) + Word(date) + Word(date) + Word(clus / 0x1_0000)
      + Word(time) + Word(date) + Word(clus % 0x1_0000) + Word(size % 0x1_0000) + Word(size / 0x1_0000)
  }

  function Word(w: u16): (r: seq<u8>)
    ensures |r| == 2
  {
    [w % 0x100, w / 0x100]
  }

  function Cluster(de: Slot): int {
    Rd16(de, 20) * 0x1_0000 + Rd16(de, 26)
  }

  function Size(de: Slot): int {
    Rd32(de, 28)
  }

  lemma DirentFields(raw: Raw, attr: u8, clus: u32, size: u32, date: u16, time: u16)
    ensures var de := Dirent(raw, attr, clus, size, date, time);
            Cluster(de) == clus && Size(de) == size && de[0] == raw[0]
  {
    var de := Dirent(raw, attr, clus, size, date, time);
    assert de[20] == clus / 0x1_0000 % 0x100 && de[21] == clus / 0x1_0000 / 0x100;
    assert de[26] == clus % 0x1_0000 % 0x100 && de[27] == clus % 0x1_0000 / 0x100;
    assert de[28] == size % 0x1_0000 % 0x100 && de[29] == size % 0x1_0000 / 0x100;
    assert de[30] == size / 0x1_0000 % 0x100 && de[31] == size / 0x1_0000 / 0x100;
  }

  // ----- Reading back what was written -----

  /** Number of long-name slots. */
  function LfnSlots(len: nat): (n: nat)
    ensures 13 * (n - 1) <= len < 13 * n && n >= 1
  {
    (len + 13) / 13
  }

  /** A name has no terminator in it. */
  predicate IsString(name: Name) {
    forall i :: 0 <= i < |name| ==> name[i] != 0
  }

  predicate SevenBit(name: Name) {
    forall i :: 0 <= i < |name| ==> 0 < name[i] < 0x80
  }

  /** The scan in the middle of the run written for `name`: ordinals n..m+1 are read. */
  ghost predicate Midway(st: LfnState, name: Name, m: nat, sum: u8) {
    var n := LfnSlots(|name|);
    && |name| < 260 && st.Run? && st.n == n && st.due == m < n && st.sum == sum && |st.buf| == 261 && st.term == |name|
    && forall i :: m * 13 <= i < |name| ==> st.buf[i] == Narrow(name[i])
  }

  lemma EndOfSlot(de: Slot, ord: nat, n: nat, sum: u8, name: Name)
    requires |name| < 260 && (forall i :: 0 <= i < |name| ==> name[i] != 0)
    requires n == LfnSlots(|name|) && 1 <= ord <= n < 32 && IsLfnSlot(de, ord, n, sum, name)
    ensures FirstEnd(de, 0) == if ord == n then |name| - (ord - 1) * 13 else 13
  {
    hide Char;
    var f := FirstEnd(de, 0);
    if f < 13 {
      assert IsEnd(LfnChar(name, (ord - 1) * 13 + f));
    }
    if ord == n {
      var k := |name| - (ord - 1) * 13;
      assert IsEnd(Char(de, k));
    }
  }

  /** The first slot of the run. */
  lemma RunStarts(st: LfnState, de: Slot, n: nat, sum: u8, name: Name)
    requires Sane(st) && |name| < 260 && (forall i :: 0 <= i < |name| ==> name[i] != 0)
    requires n == LfnSlots(|name|) < 32 && n <= 20 && IsLfnSlot(de, n, n, sum, name)
    ensures !IsFree(de) && IsLfn(de) && Midway(After(st, de), name, n - 1, sum)
  {
    hide Char;
    EndOfSlot(de, n, n, sum, name);
    assert de[0] % 32 == n && de[0] / 64 % 2 == 1;
  }

  /** Each further slot. */
  lemma RunGoesOn(st: LfnState, de: Slot, m: nat, sum: u8, name: Name)
    requires |name| < 260 && (forall i :: 0 <= i < |name| ==> name[i] != 0)
    requires 1 <= m < LfnSlots(|name|) <= 20 && Midway(st, name, m, sum)
    requires IsLfnSlot(de, m, LfnSlots(|name|), sum, name)
    ensures !IsFree(de) && IsLfn(de) && Midway(After(st, de), name, m - 1, sum)
  {
    hide Char;
    EndOfSlot(de, m, LfnSlots(|name|), sum, name);
    assert de[0] % 32 == m && de[0] / 64 % 2 == 0;
  }

  function Narrowed(name: Name): (r: Name)
    ensures |r| == |name|
  {
    seq(|name|, i requires 0 <= i < |name| => Narrow(name[i]))
  }

  /** The short entry behind the run gets the name, with every byte from 0x80 on
      read as a question mark. */
  lemma RunNames(st: LfnState, de: Slot, sum: u8, name: Name)
    requires |name| < 260 && Midway(st, name, 0, sum) && sum == Checksum(de[..11], 11)
    ensures LongName(st, de) == Narrowed(name)
  {
    assert st.buf[..|name|] == Narrowed(name);
  }

  /** So the name read back is the name written exactly for 7-bit names. */
  lemma NarrowedSame(name: Name)
    requires forall i :: 0 <= i < |name| ==> name[i] != 0
    ensures Narrowed(name) == name <==> SevenBit(name)
  {
    if !SevenBit(name) {
      var i :| 0 <= i < |name| && name[i] >= 0x80;
      assert Narrowed(name)[i] != name[i];
    } else {
      assert Narrowed(name) == name;
    }
  }
}
