/** The account file of kernel/user.c as bytes: printing (build_db), parsing
    (parse_line, parse_records, load_db), and that they undo each other. */
module UserCodec {
  import opened Basics
  import opened Words

  type Bytes = seq<u8>

  const COLON: u8 := 0x3A
  const NEWLINE: u8 := 0x0A
  const RETURN: u8 := 0x0D
  const ZERO: u8 := 0x30

  const NAME_MAX := 31
  const SALT_LEN := 16
  const HASH_LEN := 32
  const MAX_USERS := 16
  const HEADER := 20
  const BUFFER := 4096

  /** "#RTOSDB1:" */
  const MAGIC: Bytes := [0x23, 0x52, 0x54, 0x4F, 0x53, 0x44, 0x42, 0x31, 0x3A]

  datatype Account = Account(name: Bytes, uid: u32, caps: u32, salt: Bytes, hash: Bytes, mustChange: bool)

  // ----- Names -----

  predicate NameChar(c: u8) {
    c != 0 && c != COLON && c != NEWLINE && c != RETURN
  }

  predicate NameOk(n: Bytes) {
    1 <= |n| <= NAME_MAX && forall i :: 0 <= i < |n| ==> NameChar(n[i])
  }

  // ----- Hexadecimal -----

  function HexDigit(v: int): u8
    requires 0 <= v < 16
  {
    if v < 10 then 0x30 + v else 0x61 + v - 10
  }

  function HexValue(c: u8): int {
    if 0x30 <= c <= 0x39 then c - 0x30
    else if 0x61 <= c <= 0x66 then c - 0x61 + 10
    else if 0x41 <= c <= 0x46 then c - 0x41 + 10
    else -1
  }

  /** to_hex. */
  function ToHex(b: Bytes): (h: Bytes)
    ensures |h| == 2 * |b|
    ensures forall i :: 0 <= i < |h| ==> HexValue(h[i]) >= 0
    decreases |b|
  {
    if b == [] then [] else [HexDigit(b[0] / 16), HexDigit(b[0] % 16)] + ToHex(b[1..])
  }

  /** from_hex on `n` bytes. */
  function FromHex(h: Bytes, n: nat): (b: Option<Bytes>)
    requires |h| == 2 * n
    ensures b.Some? ==> |b.value| == n
    decreases n
  {
    if n == 0 then Some([])
    else
      var hi, lo := HexValue(h[0]), HexValue(h[1]);
      var rest := FromHex(h[2..], n - 1);
      if hi < 0 || lo < 0 || rest.None? then None else Some([hi * 16 + lo] + rest.value)
  }

  lemma {:induction false} HexRoundTrip(b: Bytes)
    ensures FromHex(ToHex(b), |b|) == Some(b)
    decreases |b|
  {
    if b != [] {
      HexRoundTrip(b[1..]);
      assert ToHex(b)[2..] == ToHex(b[1..]);
      assert b == [b[0]] + b[1..];
    }
  }

  // ----- Decimal -----

  predicate IsDigit(c: u8) {
    0x30 <= c <= 0x39
  }

  /** put_dec. */
  function PutDec(v: nat): (s: Bytes)
    ensures |s| > 0 && forall i :: 0 <= i < |s| ==> IsDigit(s[i])
    decreases v
  {
    if v < 10 then [ZERO + v] else PutDec(v / 10) + [ZERO + v % 10]
  }

  predicate AllDigits(s: Bytes) {
    forall i :: 0 <= i < |s| ==> IsDigit(s[i])
  }

  /** is_dec. */
  predicate IsDec(s: Bytes) {
    s != [] && AllDigits(s)
  }

  /** parse_dec of a digit string, in 32-bit arithmetic. */
  function ParseDec(s: Bytes): u32
    requires AllDigits(s)
    decreases |s|
  {
    if s == [] then 0
    else
      var d: int := s[|s| - 1] - ZERO;
      Wrap(ParseDec(s[..|s| - 1]) * 10 + d)
  }

  lemma {:induction false} DecRoundTrip(v: u32)
    ensures ParseDec(PutDec(v)) == v
    decreases v
  {
    var s := PutDec(v);
    if v < 10 {
      assert s[..0] == [];
    } else {
      DecRoundTrip(v / 10);
      assert s[..|s| - 1] == PutDec(v / 10) && s[|s| - 1] == ZERO + v % 10;
    }
  }

  lemma {:induction false} DecLength(v: nat, n: nat)
    requires n >= 1 && v < Pow10(n)
    ensures |PutDec(v)| <= n
    decreases n
  {
    if v >= 10 {
      assert Pow10(n) == 10 * Pow10(n - 1);
      DecLength(v / 10, n - 1);
    }
  }

  function Pow10(n: nat): nat {
    if n == 0 then 1 else 10 * Pow10(n - 1)
  }

  // ----- One line -----

  function Flag(b: bool): nat {
    if b then 1 else 0
  }

  /** One record without its line end. */
  function PrintLine(u: Account): Bytes {
    u.name + [COLON] + ToHex(u.salt) + [COLON] + ToHex(u.hash) + [COLON] + PutDec(u.uid) + [COLON]
      + PutDec(u.caps) + [COLON] + PutDec(Flag(u.mustChange))
  }

  /** Index of the first `c` in `s`, its length without one. */
  function IndexOf(s: Bytes, c: u8): (i: nat)
    ensures i <= |s| && (forall j :: 0 <= j < i ==> s[j] != c) && (i < |s| ==> s[i] == c)
    decreases |s|
  {
    if s == [] || s[0] == c then 0 else 1 + IndexOf(s[1..], c)
  }

  lemma {:induction false} IndexOfIs(s: Bytes, c: u8, i: nat)
    requires i <= |s| && (forall j :: 0 <= j < i ==> s[j] != c) && (i < |s| ==> s[i] == c)
    ensures IndexOf(s, c) == i
    decreases |s|
  {
    if i > 0 {
      assert s[0] != c;
      IndexOfIs(s[1..], c, i - 1);
    }
  }

  /** Cutting a line at its colons into at most `n` fields. */
  function Cut(s: Bytes, n: nat): (f: seq<Bytes>)
    requires n >= 1
    ensures 1 <= |f| <= n
    decreases n
  {
    var i := IndexOf(s, COLON);
    if n == 1 || i == |s| then [s] else [s[..i]] + Cut(s[i + 1..], n - 1)
  }

  predicate Known(users: seq<Account>, name: Bytes) {
    exists i :: 0 <= i < |users| && users[i].name == name
  }

  predicate FieldsOk(f: seq<Bytes>) {
    && (|f| == 5 || |f| == 6)
    && NameOk(f[0]) && |f[1]| == 2 * SALT_LEN && |f[2]| == 2 * HASH_LEN
    && IsDec(f[3]) && IsDec(f[4]) && (|f| == 6 ==> IsDec(f[5]))
  }

  /** The account a line's fields describe. */
  function FromFields(f: seq<Bytes>): Option<Account>
    requires FieldsOk(f)
  {
    var salt, hash := FromHex(f[1], SALT_LEN), FromHex(f[2], HASH_LEN);
    if salt.None? || hash.None? then None
    else Some(Account(f[0], ParseDec(f[3]), ParseDec(f[4]), salt.value, hash.value, |f| == 6 && ParseDec(f[5]) != 0))
  }

  /** parse_line, given the accounts already read. */
  function ParseLine(line: Bytes, users: seq<Account>): Option<Account> {
    var f := Cut(line, 6);
    if |users| >= MAX_USERS || !FieldsOk(f) || Known(users, f[0]) then None else FromFields(f)
  }

  lemma CutOne(a: Bytes, rest: Bytes, n: nat)
    requires n >= 2 && forall i :: 0 <= i < |a| ==> a[i] != COLON
    ensures Cut(a + [COLON] + rest, n) == [a] + Cut(rest, n - 1)
  {
    var s := a + [COLON] + rest;
    IndexOfIs(s, COLON, |a|);
    assert s[..|a|] == a && s[|a| + 1..] == rest;
  }

  lemma CutLast(a: Bytes, n: nat)
    requires n >= 1 && forall i :: 0 <= i < |a| ==> a[i] != COLON
    ensures Cut(a, n) == [a]
  {
    IndexOfIs(a, COLON, |a|);
  }

  predicate AccountOk(u: Account) {
    NameOk(u.name) && |u.salt| == SALT_LEN && |u.hash| == HASH_LEN
  }

  /** The fields of a printed line are the printed fields. */
  lemma PrintedFields(u: Account)
    requires AccountOk(u)
    ensures Cut(PrintLine(u), 6)
         == [u.name, ToHex(u.salt), ToHex(u.hash), PutDec(u.uid), PutDec(u.caps), PutDec(Flag(u.mustChange))]
  {
    hide Cut, PutDec, ToHex;
    var a, b, c, d, e, f := u.name, ToHex(u.salt), ToHex(u.hash), PutDec(u.uid),
        PutDec(u.caps), PutDec(Flag(u.mustChange));
    var r5 := e + [COLON] + f;
    var r4 := d + [COLON] + r5;
    var r3 := c + [COLON] + r4;
    var r2 := b + [COLON] + r3;
    assert PrintLine(u) == a + [COLON] + r2;
    CutOne(a, r2, 6);
    CutOne(b, r3, 5);
    CutOne(c, r4, 4);
    CutOne(d, r5, 3);
    CutOne(e, f, 2);
    CutLast(f, 1);
    assert [a] + ([b] + ([c] + ([d] + ([e] + [f])))) == [a, b, c, d, e, f];
  }

  /** A printed line parses back to its account, if the name is new and there is room. */
  lemma LineRoundTrip(u: Account, users: seq<Account>)
    requires AccountOk(u) && |users| < MAX_USERS && !Known(users, u.name)
    ensures ParseLine(PrintLine(u), users) == Some(u)
  {
    hide Cut, PrintLine, FieldsOk, FromFields, PutDec, ToHex;
    PrintedFields(u);
    var f := [u.name, ToHex(u.salt), ToHex(u.hash), PutDec(u.uid), PutDec(u.caps), PutDec(Flag(u.mustChange))];
    FieldsRoundTrip(u);
    assert f[0] == u.name;
  }

  lemma FieldsRoundTrip(u: Account)
    requires AccountOk(u)
    ensures var f := [u.name, ToHex(u.salt), ToHex(u.hash), PutDec(u.uid), PutDec(u.caps), PutDec(Flag(u.mustChange))];
            FieldsOk(f) && FromFields(f) == Some(u)
  {
    hide PutDec, ToHex, FromHex, ParseDec;
    HexRoundTrip(u.salt);
    HexRoundTrip(u.hash);
    DecRoundTrip(u.uid);
    DecRoundTrip(u.caps);
    DecRoundTrip(Flag(u.mustChange));
  }

  // ----- All lines -----

  /** A line as parse_line sees it: up to its first zero byte. */
  function CString(s: Bytes): Bytes {
    s[..IndexOf(s, 0)]
  }

  /** parse_records on the bytes behind the header; nothing if any line is invalid. */
  function ParseRecords(b: Bytes, users: seq<Account>): Option<seq<Account>>
    decreases |b|
  {
    if b == [] then Some(users)
    else
      var i := IndexOf(b, NEWLINE);
      var rest := if i == |b| then [] else b[i + 1..];
      if i == 0 then ParseRecords(rest, users)
      else
        var u := ParseLine(CString(b[..i]), users);
        if u.None? then None else ParseRecords(rest, users + [u.value])
  }

  /** The record lines of build_db. */
  function PrintRecords(users: seq<Account>): Bytes
    decreases |users|
  {
    if users == [] then [] else PrintLine(users[0]) + [NEWLINE] + PrintRecords(users[1..])
  }

  /** Accounts that can be in memory together. */
  ghost predicate ListOk(users: seq<Account>) {
    && |users| <= MAX_USERS
    && (forall i :: 0 <= i < |users| ==> AccountOk(users[i]))
    && (forall i, j :: 0 <= i < j < |users| ==> users[i].name != users[j].name)
  }

  predicate Plain(s: Bytes) {
    forall i :: 0 <= i < |s| ==> s[i] != 0 && s[i] != NEWLINE
  }

  lemma PlainLine(u: Account)
    requires AccountOk(u)
    ensures Plain(PrintLine(u)) && |PrintLine(u)| > 0
  {
    hide PutDec, ToHex;
    assert forall c: u8 :: HexValue(c) >= 0 ==> c != 0 && c != NEWLINE;
    assert Plain(u.name) && Plain(ToHex(u.salt)) && Plain(ToHex(u.hash));
    assert Plain(PutDec(u.uid)) && Plain(PutDec(u.caps)) && Plain(PutDec(Flag(u.mustChange)));
  }

  lemma LineEnds(line: Bytes, rest: Bytes)
    requires Plain(line)
    ensures IndexOf(line + [NEWLINE] + rest, NEWLINE) == |line| && CString(line) == line
  {
    IndexOfIs(line + [NEWLINE] + rest, NEWLINE, |line|);
    IndexOfIs(line, 0, |line|);
    assert line[..|line|] == line;
  }

  /** Parsing undoes printing, behind any accounts read before. */
  lemma {:induction false} RecordsRoundTrip(users: seq<Account>, before: seq<Account>)
    requires ListOk(before + users)
    ensures ParseRecords(PrintRecords(users), before) == Some(before + users)
    decreases |users|
  {
    if users == [] {
      assert before + users == before;
    } else {
      hide ListOk, ParseRecords, AccountOk;
      FirstOfList(before, users);
      var u, rest := users[0], users[1..];
      LineRoundTrip(u, before);
      PlainLine(u);
      ParsesLine(PrintLine(u), PrintRecords(rest), before);
      RecordsRoundTrip(rest, before + [u]);
    }
  }

  lemma FirstOfList(before: seq<Account>, users: seq<Account>)
    requires ListOk(before + users) && users != []
    ensures AccountOk(users[0]) && |before| < MAX_USERS && !Known(before, users[0].name)
    ensures before + [users[0]] + users[1..] == before + users
  {
    hide AccountOk;
    var all := before + users;
    assert all[|before|] == users[0];
    forall i | 0 <= i < |before|
      ensures before[i].name != users[0].name
    {
      assert all[i] == before[i];
    }
  }

  /** One printed line at the front. */
  lemma ParsesLine(line: Bytes, rest: Bytes, users: seq<Account>)
    requires Plain(line) && |line| > 0
    ensures ParseRecords(line + [NEWLINE] + rest, users)
         == match ParseLine(line, users) case None => None case Some(u) => ParseRecords(rest, users + [u])
  {
    hide ParseLine;
    LineEnds(line, rest);
    var b := line + [NEWLINE] + rest;
    assert b[..|line|] == line && b[|line| + 1..] == rest;
  }

  /** What parsing lets through is always a well-formed list. */
  lemma {:induction false} ParsedOk(b: Bytes, users: seq<Account>)
    requires ListOk(users)
    ensures ParseRecords(b, users).Some? ==> ListOk(ParseRecords(b, users).value)
    decreases |b|
  {
    hide ListOk, ParseLine;
    if b != [] {
      var i := IndexOf(b, NEWLINE);
      var rest := if i == |b| then [] else b[i + 1..];
      if i == 0 {
        ParsedOk(rest, users);
      } else {
        var u := ParseLine(CString(b[..i]), users);
        if u.Some? {
          ParsedLineOk(CString(b[..i]), users);
          ParsedOk(rest, users + [u.value]);
        }
      }
    }
  }

  lemma ParsedLineOk(line: Bytes, users: seq<Account>)
    requires ListOk(users) && ParseLine(line, users).Some?
    ensures ListOk(users + [ParseLine(line, users).value])
  {
    hide Cut, ParseDec, FromHex;
    var u := ParseLine(line, users).value;
    assert AccountOk(u) && !Known(users, u.name) && |users| < MAX_USERS;
    hide ParseLine, FieldsOk, FromFields, AccountOk;
    var all := users + [u];
    forall i, j | 0 <= i < j < |all|
      ensures all[i].name != all[j].name
    {
    }
  }

  // ----- The next uid -----

  const LAST_UID: u32 := 0xFFFF_FFFF

  /** s_next_uid after these accounts have been read one after the other. */
  function NextUid(users: seq<Account>): u32
    decreases |users|
  {
    if users == [] then 0
    else
      var n, uid := NextUid(users[..|users| - 1]), users[|users| - 1].uid;
      if uid != LAST_UID && uid + 1 > n then uid + 1 else n
  }

  /** It is the least number beyond every uid read, the last one aside. */
  lemma {:induction false} NextUidIsLeast(users: seq<Account>)
    ensures forall i :: 0 <= i < |users| && users[i].uid != LAST_UID ==> users[i].uid < NextUid(users)
    ensures NextUid(users) > 0 ==> exists i :: 0 <= i < |users| && users[i].uid == NextUid(users) - 1
    decreases |users|
  {
    if users != [] {
      var front := users[..|users| - 1];
      NextUidIsLeast(front);
      if NextUid(users) == NextUid(front) && NextUid(front) > 0 {
        var i :| 0 <= i < |front| && front[i].uid == NextUid(front) - 1;
        assert users[i].uid == NextUid(users) - 1;
      }
      forall i | 0 <= i < |users| && users[i].uid != LAST_UID
        ensures users[i].uid < NextUid(users)
      {
        assert i < |front| ==> users[i] == front[i];
      }
    }
  }

  /** The uid the next account will get is in nobody's use, unless the numbers are used
      up: then it is the last one, and somebody has it. */
  lemma NextUidIsFree(users: seq<Account>)
    ensures (forall i :: 0 <= i < |users| ==> users[i].uid != NextUid(users))
            <==> !(NextUid(users) == LAST_UID && exists i :: 0 <= i < |users| && users[i].uid == LAST_UID)
  {
    NextUidIsLeast(users);
    hide NextUid;
  }

  // ----- The whole file -----

  /** The payload length in ten digits, most significant first. */
  function Digits(v: nat, n: nat): (s: Bytes)
    ensures |s| == n && AllDigits(s)
    decreases n
  {
    if n == 0 then [] else Digits(v / 10, n - 1) + [ZERO + v % 10]
  }

  lemma {:induction false} DigitsRoundTrip(v: nat, n: nat)
    requires v < Pow10(n) && v < 0x1_0000_0000
    ensures ParseDec(Digits(v, n)) == v
    decreases n
  {
    if n > 0 {
      DigitsRoundTrip(v / 10, n - 1);
      var s := Digits(v, n);
      assert s[..|s| - 1] == Digits(v / 10, n - 1) && s[|s| - 1] == ZERO + v % 10;
    }
  }

  /** build_db: the file for these accounts. */
  function Build(users: seq<Account>): (b: Bytes)
    ensures |b| == HEADER + |PrintRecords(users)|
  {
    MAGIC + Digits(|PrintRecords(users)|, 10) + [NEWLINE] + PrintRecords(users)
  }

  datatype Loaded = Absent | Corrupt | Users(users: seq<Account>)

  predicate HeaderOk(b: Bytes) {
    |b| >= HEADER && b[..9] == MAGIC && b[19] == NEWLINE && AllDigits(b[9..19])
  }

  /** load_db. */
  function Load(file: Option<Bytes>): Loaded {
    match file
    case None => Absent
    case Some(b) =>
      if b == [] || |b| > BUFFER - 1 || !HeaderOk(b) then Corrupt
      else if |b| != Wrap(HEADER + ParseDec(b[9..19])) then Corrupt
      else
        match ParseRecords(b[20..], [])
        case None => Corrupt
        case Some(users) => if users == [] then Corrupt else Users(users)
  }

  // ----- Sizes -----

  lemma LineLength(u: Account)
    requires AccountOk(u)
    ensures |PrintLine(u)| <= |u.name| + 122
  {
    Pow10Values();
    DecLength(u.uid, 10);
    DecLength(u.caps, 10);
    DecLength(Flag(u.mustChange), 1);
    hide Pow10, PutDec, ToHex;
  }

  lemma Pow10Values()
    ensures Pow10(1) == 10 && Pow10(10) == 10_000_000_000
  {
    assert Pow10(0) == 1;
    assert Pow10(1) == 10 && Pow10(2) == 100 && Pow10(3) == 1000 && Pow10(4) == 10_000 && Pow10(5) == 100_000;
    assert Pow10(6) == 1_000_000 && Pow10(7) == 10_000_000 && Pow10(8) == 100_000_000 && Pow10(9) == 1_000_000_000;
  }

  lemma {:induction false} RecordsLength(users: seq<Account>)
    requires forall i :: 0 <= i < |users| ==> AccountOk(users[i])
    ensures |PrintRecords(users)| <= 154 * |users|
    decreases |users|
  {
    if users != [] {
      LineLength(users[0]);
      RecordsLength(users[1..]);
    }
  }

  /** The file always fits the buffer it is read back into. */
  lemma BuildFits(users: seq<Account>)
    requires ListOk(users)
    ensures |Build(users)| <= BUFFER - 1
  {
    RecordsLength(users);
  }

  // ----- Load undoes Build; strict prefixes are rejected -----

  lemma BuiltHeader(users: seq<Account>)
    requires ListOk(users)
    ensures var b := Build(users);
            HeaderOk(b) && ParseDec(b[9..19]) == |PrintRecords(users)| && b[20..] == PrintRecords(users)
  {
    hide PrintRecords, Digits, ParseDec;
    var p := PrintRecords(users);
    var b := Build(users);
    BuildFits(users);
    Pow10Values();
    DigitsRoundTrip(|p|, 10);
    assert b[..9] == MAGIC && b[9..19] == Digits(|p|, 10) && b[20..] == p;
  }

  /** Loading a saved file gives back exactly the saved accounts. */
  lemma LoadBuild(users: seq<Account>)
    requires ListOk(users) && users != []
    ensures Load(Some(Build(users))) == Users(users)
  {
    hide PrintRecords, ParseRecords, Build, ParseDec, HeaderOk;
    BuiltHeader(users);
    BuildFits(users);
    assert [] + users == users;
    RecordsRoundTrip(users, []);
  }

  /** A torn file, however short, is never taken for a valid one. */
  lemma TornIsCorrupt(users: seq<Account>, k: nat)
    requires ListOk(users) && k < |Build(users)|
    ensures Load(Some(Build(users)[..k])) == Corrupt
  {
    hide PrintRecords, ParseRecords, ParseDec;
    BuiltHeader(users);
    BuildFits(users);
    var b := Build(users);
    var t := b[..k];
    if k >= HEADER {
      assert t[9..19] == b[9..19];
    }
  }

  lemma LoadedOk(file: Option<Bytes>)
    requires Load(file).Users?
    ensures ListOk(Load(file).users) && Load(file).users != []
  {
    hide ParseRecords, ParseDec;
    ParsedOk(file.value[20..], []);
  }
}
