/** The account table of kernel/user.c and its one file buffer: records printed into
    the buffer piece by piece, and lines cut in place while they are parsed. */
module UserDb {
  import opened Basics
  import opened Words
  import opened UserCodec

  class Database {
    var users: seq<Account>
    var nextUid: u32
    const buf: array<u8>

    constructor ()
      ensures Valid() && users == [] && Counted() && fresh(buf)
    {
      users := [];
      nextUid := 0;
      buf := new u8[BUFFER];
    }

    ghost predicate Valid() {
      buf.Length == BUFFER
    }

    /** The next uid is that of the accounts in the table. */
    ghost predicate Counted()
      reads this
    {
      nextUid == NextUid(users)
    }

    // ----- build_db -----

    /** memcpy to position `pos`. */
    method Put(pos: nat, s: Bytes) returns (next: nat)
      requires pos + |s| <= buf.Length
      modifies buf
      ensures next == pos + |s| && buf[..next] == old(buf[..pos]) + s
    {
      ghost var was := buf[..pos];
      forall i | 0 <= i < |s| {
        buf[pos + i] := s[i];
      }
      next := pos + |s|;
      assert buf[..next] == was + s;
    }

    /** to_hex. */
    method PutHex(pos: nat, b: Bytes) returns (next: nat)
      requires pos + 2 * |b| <= buf.Length
      modifies buf
      ensures next == pos + 2 * |b| && buf[..next] == old(buf[..pos]) + ToHex(b)
    {
      next := pos;
      var i := 0;
      while i < |b|
        invariant 0 <= i <= |b| && next == pos + 2 * i
        invariant buf[..next] + ToHex(b[i..]) == old(buf[..pos]) + ToHex(b)
      {
        ghost var was := buf[..next];
        HexStep(b, i);
        buf[next] := HexDigit(b[i] / 16);
        buf[next + 1] := HexDigit(b[i] % 16);
        next := next + 2;
        assert buf[..next] == was + [HexDigit(b[i] / 16), HexDigit(b[i] % 16)];
        i := i + 1;
      }
      assert b[i..] == [];
      assert buf[..next] + [] == buf[..next];
    }

    /** The digits of a number, last first. */
    method Backwards(v: nat) returns (t: Bytes)
      ensures PutDec(v) == Reversed(t)
    {
      t := [];
      var rest := v;
      while rest >= 10
        invariant PutDec(v) == PutDec(rest) + Reversed(t)
        decreases rest
      {
        ghost var was := t;
        t := t + [ZERO + rest % 10];
        ReversedMore(t);
        assert t[..|t| - 1] == was;
        rest := rest / 10;
      }
      ghost var was := t;
      t := t + [ZERO + rest];
      ReversedMore(t);
      assert t[..|t| - 1] == was;
    }

    /** put_dec: the digits come out backwards and are turned round. */
    method PutNumber(pos: nat, v: nat) returns (next: nat)
      requires pos + |PutDec(v)| <= buf.Length
      modifies buf
      ensures next == pos + |PutDec(v)| && buf[..next] == old(buf[..pos]) + PutDec(v)
    {
      hide PutDec;
      var t := Backwards(v);
      next := PutReversed(pos, t);
    }

    method PutReversed(pos: nat, t: Bytes) returns (next: nat)
      requires pos + |t| <= buf.Length
      modifies buf
      ensures next == pos + |t| && buf[..next] == old(buf[..pos]) + Reversed(t)
    {
      next := pos;
      var i := 0;
      assert t[..|t|] == t;
      while i < |t|
        invariant 0 <= i <= |t| && next == pos + i
        invariant buf[..next] + Reversed(t[..|t| - i]) == old(buf[..pos]) + Reversed(t)
      {
        ghost var was := buf[..next];
        ReversedPart(t, i);
        buf[next] := t[|t| - 1 - i];
        next := next + 1;
        assert buf[..next] == was + [t[|t| - 1 - i]];
        i := i + 1;
      }
      assert t[..0] == [] && buf[..next] + [] == buf[..next];
    }

    /** Name, salt and hash of a record. */
    method PutSecrets(pos: nat, u: Account) returns (next: nat)
      requires AccountOk(u) && pos + |SecretPart(u)| <= buf.Length
      modifies buf
      ensures next == pos + |SecretPart(u)| && buf[..next] == old(buf[..pos]) + SecretPart(u)
    {
      hide ToHex;
      next := Put(pos, u.name + [COLON]);
      next := PutHex(next, u.salt);
      next := Put(next, [COLON]);
      next := PutHex(next, u.hash);
      next := Put(next, [COLON]);
      assert buf[..next] == old(buf[..pos]) + SecretPart(u);
    }

    /** Its numbers and the line end. */
    method PutNumbers(pos: nat, u: Account) returns (next: nat)
      requires pos + |NumberPart(u)| <= buf.Length
      modifies buf
      ensures next == pos + |NumberPart(u)| && buf[..next] == old(buf[..pos]) + NumberPart(u)
    {
      hide PutDec;
      next := PutNumber(pos, u.uid);
      next := Put(next, [COLON]);
      next := PutNumber(next, u.caps);
      next := Put(next, [COLON]);
      next := PutNumber(next, Flag(u.mustChange));
      next := Put(next, [NEWLINE]);
      assert buf[..next] == old(buf[..pos]) + NumberPart(u);
    }

    /** One record and its line end. */
    method PutRecord(pos: nat, u: Account) returns (next: nat)
      requires Valid() && AccountOk(u) && pos + |u.name| + 134 <= BUFFER
      modifies buf
      ensures next == pos + |PrintLine(u)| + 1 <= BUFFER
      ensures buf[..next] == old(buf[..pos]) + (PrintLine(u) + [NEWLINE])
    {
      hide SecretPart, NumberPart, PrintLine, AccountOk;
      RecordParts(u);
      NameLength(u);
      next := PutSecrets(pos, u);
      next := PutNumbers(next, u);
    }

    /** The same, seen behind the header. */
    method AddRecord(pos: nat, u: Account) returns (next: nat)
      requires Valid() && AccountOk(u) && HEADER <= pos && pos + |u.name| + 134 <= BUFFER
      modifies buf
      ensures next == pos + |PrintLine(u)| + 1 <= BUFFER
      ensures buf[HEADER..next] == old(buf[HEADER..pos]) + (PrintLine(u) + [NEWLINE])
    {
      hide PrintLine, AccountOk;
      ghost var was := buf[..pos];
      next := PutRecord(pos, u);
      assert buf[HEADER..next] == buf[..next][HEADER..];
      assert buf[HEADER..pos] == was[HEADER..];
    }

    /** build_db: -1 if the accounts do not fit, which well-formed lists always do. */
    method BuildDb() returns (n: int)
      requires Valid() && forall i :: 0 <= i < |users| ==> AccountOk(users[i])
      modifies buf
      ensures n == -1 || (0 <= n <= BUFFER && buf[..n] == Build(users))
      ensures |users| <= MAX_USERS ==> n >= 0
    {
      hide PrintLine, AccountOk, PrintRecords, Digits;
      assert buf[HEADER..HEADER] + PrintRecords(users[0..]) == PrintRecords(users) by { assert users[0..] == users; }
      var pos: nat := HEADER;
      var i := 0;
      while i < |users|
        invariant 0 <= i <= |users| && HEADER <= pos <= BUFFER
        invariant pos <= HEADER + 154 * i
        invariant buf[HEADER..pos] + PrintRecords(users[i..]) == PrintRecords(users)
      {
        NameLength(users[i]);
        if pos + |users[i].name| + 134 > BUFFER {
          return -1;
        }
        pos := AddRecord(pos, users[i]);
        RecordStep(users, i);
        i := i + 1;
      }
      NoRecords(users[i..]);
      assert buf[HEADER..pos] + [] == buf[HEADER..pos];
      PutHeader(pos);
      n := pos;
    }

    /** Magic, payload length and line end in front of the records. */
    method PutHeader(pos: nat)
      requires Valid() && HEADER <= pos <= BUFFER
      modifies buf
      ensures buf[..pos] == MAGIC + Digits(pos - HEADER, 10) + [NEWLINE] + old(buf[HEADER..pos])
    {
      hide Digits;
      ghost var b := buf[HEADER..];
      assert b[..pos - HEADER] == buf[HEADER..pos];
      PutLength(pos - HEADER);
      assert buf[20..pos] == buf[HEADER..][..pos - HEADER];
      forall i | 0 <= i < 9 {
        buf[i] := MAGIC[i];
      }
      buf[HEADER - 1] := NEWLINE;
      assert buf[..9] == MAGIC && buf[9..19] == Digits(pos - HEADER, 10) && buf[20..pos] == old(buf[HEADER..pos]);
      assert buf[..pos] == buf[..9] + buf[9..19] + [buf[19]] + buf[20..pos];
    }

    /** Ten digits of the payload length, from the last one on. */
    method PutLength(length: nat)
      requires Valid()
      modifies buf
      ensures buf[9..19] == Digits(length, 10) && buf[HEADER..] == old(buf[HEADER..])
    {
      hide Digits;
      var payload := length;
      var d := 0;
      NoDigits(payload);
      while d < 10
        invariant 0 <= d <= 10 && payload >= 0 && buf[HEADER..] == old(buf[HEADER..])
        invariant Digits(payload, 10 - d) + buf[19 - d..19] == Digits(length, 10)
      {
        ghost var tail := buf[19 - d..19];
        DigitsStep(payload, 10 - d);
        buf[18 - d] := ZERO + payload % 10;
        assert buf[18 - d..19] == [ZERO + payload % 10] + tail;
        payload := payload / 10;
        d := d + 1;
      }
      NoDigits(payload);
      assert [] + buf[9..19] == buf[9..19];
    }

    // ----- parse_line -----

    /** The string at `at`, up to the next zero byte. */
    method StringAt(at: nat, end: nat) returns (s: Bytes)
      requires at <= end < buf.Length && buf[end] == 0
      ensures s == CString(buf[at..end])
    {
      var p := at;
      while p < end && buf[p] != 0
        invariant at <= p <= end && forall i :: at <= i < p ==> buf[i] != 0
      {
        p := p + 1;
      }
      s := buf[at..p];
      IndexOfIs(buf[at..end], 0, p - at);
    }

    /** Cuts the line at its colons by writing zero bytes, at most six fields. */
    method CutLine(start: nat, end: nat) returns (fields: seq<Bytes>)
      requires start <= end < buf.Length && buf[end] == 0
      modifies buf
      ensures fields == Cut(CString(old(buf[start..end])), 6)
      ensures buf[..start] == old(buf[..start]) && buf[end..] == old(buf[end..])
    {
      hide Cut, CString, Cutting;
      ghost var b := buf[..];
      ghost var stop := CutStart(b, start, end);
      assert buf[start..end] == b[start..end];
      fields := [];
      var at, p := start, start;
      while buf[p] != 0 && |fields| < 5
        invariant start <= at <= p <= stop <= end && |fields| <= 5
        invariant Cutting(b, start, end, stop, fields, at, p)
        invariant buf[..start] == b[..start] && buf[at..] == b[at..]
        decreases end - p
      {
        assert buf[p] == buf[at..][p - at] == b[p] && buf[at..p] == buf[at..][..p - at] == b[at..p];
        CutTurn(b, start, end, stop, fields, at, p);
        if buf[p] == COLON {
          fields := fields + [StringOf(at, p, end)];
          buf[p] := 0;
          at := p + 1;
        }
        p := p + 1;
      }
      CutEnd(b, start, end, stop, fields, at, p);
      assert buf[at..end] == b[at..end];
      var last := StringAt(at, end);
      fields := fields + [last];
    }

    /** A field ends where its colon became a zero byte. */
    function StringOf(at: nat, p: nat, end: nat): Bytes
      requires at <= p <= end <= buf.Length
      reads buf
    {
      buf[at..p]
    }

    /** find_user. */
    method FindUser(name: Bytes) returns (found: bool)
      ensures found <==> Known(users, name)
    {
      var i := 0;
      while i < |users|
        invariant 0 <= i <= |users| && forall j :: 0 <= j < i ==> users[j].name != name
      {
        if users[i].name == name { return true; }
        i := i + 1;
      }
      return false;
    }

    /** parse_line: appends the account of a valid line. */
    method ParseLineAt(start: nat, end: nat) returns (ok: bool)
      requires start <= end < buf.Length && buf[end] == 0 && Counted()
      modifies this, buf
      ensures Counted()
      ensures var u := ParseLine(CString(old(buf[start..end])), old(users));
              ok == u.Some? && users == old(users) + (if u.Some? then [u.value] else [])
      ensures buf[..start] == old(buf[..start]) && buf[end..] == old(buf[end..])
    {
      hide Cut, FromFields, FieldsOk, NextUid, CString;
      if |users| >= MAX_USERS { return false; }
      var f := CutLine(start, end);
      if !FieldsOk(f) { return false; }
      var known := FindUser(f[0]);
      if known { return false; }
      var u := FromFields(f);
      if u.None? { return false; }
      OneMoreUid(users, u.value);
      users := users + [u.value];
      if u.value.uid != LAST_UID && u.value.uid + 1 > nextUid {
        nextUid := u.value.uid + 1;
      }
      return true;
    }

    // ----- parse_records and load_db -----

    /** The end of the line that starts at `start`. */
    method LineEnd(start: nat, to: nat) returns (i: nat)
      requires start <= to <= buf.Length
      ensures start <= i <= to && (i < to ==> buf[i] == NEWLINE)
      ensures forall j :: start <= j < i ==> buf[j] != NEWLINE
    {
      i := start;
      while i < to && buf[i] != NEWLINE
        invariant start <= i <= to
        invariant forall j :: start <= j < i ==> buf[j] != NEWLINE
      {
        i := i + 1;
      }
    }

    /** parse_records over buf[from, to): every line is read, also behind a bad one. */
    method ParseAll(from: nat, to: nat) returns (ok: bool)
      requires from <= to < buf.Length && Counted()
      modifies this, buf
      ensures Counted()
      ensures var r := ParseRecords(old(buf[from..to]), old(users));
              ok == r.Some? && (ok ==> users == r.value)
    {
      hide ParseLine, ParseRecords, CString, Reading, Counted;
      ghost var b := buf[..];
      ghost var goal := ParseRecords(b[from..to], users);
      assert b[from..to] == buf[from..to];
      ok := true;
      var i := from;
      ReadStart(b, from, to, users);
      while i < to
        invariant from <= i <= to + 1 && (i <= to ==> buf[i..] == b[i..]) && Counted()
        invariant Reading(b, i, to, users, ok, goal)
      {
        var start := i;
        assert forall j :: start <= j < buf.Length ==> buf[j] == buf[start..][j - start] == b[j];
        i := LineEnd(start, to);
        ReadTurn(b, start, i, to, users, ok, goal);
        assert buf[start..i] == b[start..i];
        ok := OneLineAt(start, i, ok);
        assert buf[i + 1..] == b[i + 1..];
        i := i + 1;
      }
      ReadEnd(b, i, to, users, ok, goal);
    }

    /** The body of the line loop: the line end becomes a zero byte, and a line that is
        not empty is parsed; `ok` stays only if it was valid. */
    method OneLineAt(start: nat, i: nat, ok: bool) returns (still: bool)
      requires start <= i < buf.Length && Counted()
      modifies this, buf
      ensures Counted()
      ensures var u := ParseLine(CString(old(buf[start..i])), old(users));
              if i == start then still == ok && users == old(users)
              else still == (ok && u.Some?) && users == old(users) + (if u.Some? then [u.value] else [])
      ensures buf[i + 1..] == old(buf[i + 1..])
    {
      hide ParseLine, CString, NextUid;
      still := ok;
      ghost var b := buf[..];
      buf[i] := 0;
      if i > start {
        assert buf[start..i] == b[start..i];
        var fine := ParseLineAt(start, i);
        assert buf[i + 1..] == buf[i..][1..] == b[i + 1..];
        still := still && fine;
      }
    }

    /** load_db on a file's contents: the table is emptied first and keeps the
        accounts only of a valid file; -1 for a corrupt one or one that cannot be read,
        0 without a file.  In every case the next uid is counted anew. */
    method LoadDb(file: Option<Bytes>, readable: bool) returns (r: int)
      requires Valid()
      modifies this, buf
      ensures Counted()
      ensures file.Some? && !readable ==> r == -1
      ensures file.None? || readable ==>
                match Load(file)
                case Absent => r == 0
                case Corrupt => r == -1
                case Users(u) => r == |u| > 0 && users == u
    {
      hide ParseRecords, ParseDec, AllDigits;
      users := [];
      nextUid := 0;
      if file.None? { return 0; }
      if !readable { return -1; }
      var b := file.value;
      var n := |b|;
      if n == 0 || n > BUFFER - 1 { return -1; }
      forall i | 0 <= i < n {
        buf[i] := b[i];
      }
      if n < HEADER || buf[..9] != MAGIC || buf[HEADER - 1] != NEWLINE { return -1; }
      assert buf[..n] == b && buf[..9] == b[..9] && buf[9..19] == b[9..19] && buf[HEADER..n] == b[HEADER..];
      var good, declared := Declared();
      if !good { return -1; }
      if n != Wrap(HEADER + declared) { return -1; }
      var ok := ParseAll(HEADER, n);
      if !ok { return -1; }
      if |users| == 0 { return -1; }
      r := |users|;
    }

    /** The ten digits of the header. */
    method Declared() returns (good: bool, v: u32)
      requires Valid()
      ensures good <==> AllDigits(buf[9..19])
      ensures good ==> v == ParseDec(buf[9..19])
    {
      v := 0;
      var i := 9;
      assert buf[9..9] == [];
      while i < 19
        invariant 9 <= i <= 19 && AllDigits(buf[9..i]) && v == ParseDec(buf[9..i])
      {
        if !IsDigit(buf[i]) {
          assert buf[9..19][i - 9] == buf[i];
          return false, 0;
        }
        assert buf[9..i + 1][..i - 9] == buf[9..i];
        var d: int := buf[i] - ZERO;
        v := Wrap(v * 10 + d);
        i := i + 1;
      }
      good := true;
    }
  }

  // ----- Facts the methods rest on -----

  function Reversed(s: Bytes): (r: Bytes)
    ensures |r| == |s|
    decreases |s|
  {
    if s == [] then [] else [s[|s| - 1]] + Reversed(s[..|s| - 1])
  }

  lemma ReversedMore(s: Bytes)
    requires s != []
    ensures Reversed(s) == [s[|s| - 1]] + Reversed(s[..|s| - 1])
  {
  }

  lemma HexStep(b: Bytes, i: nat)
    requires i < |b|
    ensures ToHex(b[i..]) == [HexDigit(b[i] / 16), HexDigit(b[i] % 16)] + ToHex(b[i + 1..])
  {
    assert b[i..][1..] == b[i + 1..];
  }

  lemma NameLength(u: Account)
    requires AccountOk(u)
    ensures |u.name| <= NAME_MAX && |PrintLine(u)| <= |u.name| + 122
  {
    LineLength(u);
  }

  lemma RecordStep(users: seq<Account>, i: nat)
    requires i < |users|
    ensures PrintRecords(users[i..]) == PrintLine(users[i]) + [NEWLINE] + PrintRecords(users[i + 1..])
  {
    assert users[i..][1..] == users[i + 1..];
  }

  function SecretPart(u: Account): Bytes {
    u.name + [COLON] + ToHex(u.salt) + [COLON] + ToHex(u.hash) + [COLON]
  }

  function NumberPart(u: Account): Bytes {
    PutDec(u.uid) + [COLON] + PutDec(u.caps) + [COLON] + PutDec(Flag(u.mustChange)) + [NEWLINE]
  }

  lemma RecordParts(u: Account)
    ensures SecretPart(u) + NumberPart(u) == PrintLine(u) + [NEWLINE]
  {
    hide ToHex, PutDec;
  }

  lemma ReversedPart(t: Bytes, i: nat)
    requires i < |t|
    ensures Reversed(t[..|t| - i]) == [t[|t| - 1 - i]] + Reversed(t[..|t| - (i + 1)])
  {
    ReversedMore(t[..|t| - i]);
    assert t[..|t| - i][..|t| - i - 1] == t[..|t| - (i + 1)];
  }

  lemma OneMoreUid(users: seq<Account>, u: Account)
    ensures var n := NextUid(users);
            NextUid(users + [u]) == if u.uid != LAST_UID && u.uid + 1 > n then u.uid + 1 else n
  {
    assert (users + [u])[..|users|] == users;
  }

  lemma DigitsStep(v: nat, n: nat)
    requires n >= 1
    ensures Digits(v, n) == Digits(v / 10, n - 1) + [ZERO + v % 10]
  {
  }

  lemma NoDigits(v: nat)
    ensures Digits(v, 0) == []
  {
  }

  /** While a line is cut: `fields` are done, the next one starts at `at`, and up to
      `p` it has no colon; `stop` is where the line ends. */
  ghost predicate Cutting(b: Bytes, start: nat, end: nat, stop: nat, fields: seq<Bytes>, at: nat, p: nat) {
    && start <= at <= p <= stop <= end < |b| && |fields| <= 5
    && (forall i :: start <= i < stop ==> b[i] != 0) && b[stop] == 0
    && (forall i :: at <= i < p ==> b[i] != COLON)
    && fields + Cut(b[at..stop], 6 - |fields|) == Cut(CString(b[start..end]), 6)
  }

  lemma CutStart(b: Bytes, start: nat, end: nat) returns (stop: nat)
    requires start <= end < |b| && b[end] == 0
    ensures start <= stop <= end && Cutting(b, start, end, stop, [], start, start)
  {
    hide Cut;
    stop := start + IndexOf(b[start..end], 0);
    assert forall i :: start <= i < stop ==> b[i] == b[start..end][i - start];
    assert CString(b[start..end]) == b[start..stop];
    var c := Cut(b[start..stop], 6);
    assert [] + c == c;
  }

  lemma CutTurn(b: Bytes, start: nat, end: nat, stop: nat, fields: seq<Bytes>, at: nat, p: nat)
    requires Cutting(b, start, end, stop, fields, at, p) && b[p] != 0 && |fields| < 5
    ensures p < stop
    ensures if b[p] == COLON then Cutting(b, start, end, stop, fields + [b[at..p]], p + 1, p + 1)
            else Cutting(b, start, end, stop, fields, at, p + 1)
  {
    hide CString, Cut;
    if b[p] == COLON {
      var s := b[at..stop];
      CutAt(s, p - at, 6 - |fields|);
      assert s[..p - at] == b[at..p] && s[p - at + 1..] == b[p + 1..stop];
      var rest := Cut(b[p + 1..stop], 5 - |fields|);
      assert fields + ([b[at..p]] + rest) == fields + [b[at..p]] + rest;
    }
  }

  lemma CutAt(s: Bytes, i: nat, n: nat)
    requires n >= 2 && i < |s| && s[i] == COLON && forall j :: 0 <= j < i ==> s[j] != COLON
    ensures Cut(s, n) == [s[..i]] + Cut(s[i + 1..], n - 1)
  {
    IndexOfIs(s, COLON, i);
  }

  lemma NoRecords(users: seq<Account>)
    ensures users == [] ==> PrintRecords(users) == []
  {
  }

  /** The last field takes the rest: either no colon is left, or no field. */
  lemma CutEnd(b: Bytes, start: nat, end: nat, stop: nat, fields: seq<Bytes>, at: nat, p: nat)
    requires Cutting(b, start, end, stop, fields, at, p) && (b[p] == 0 || |fields| == 5)
    ensures fields + [CString(b[at..end])] == Cut(CString(b[start..end]), 6)
  {
    hide Cut;
    StringUpTo(b, at, stop, end);
    hide CString;
    var s := b[at..stop];
    if |fields| < 5 {
      assert p == stop;
      NoColon(s, 6 - |fields|);
    } else {
      OneField(s);
    }
  }

  lemma StringUpTo(b: Bytes, at: nat, stop: nat, end: nat)
    requires at <= stop <= end < |b| && b[stop] == 0 && forall i :: at <= i < stop ==> b[i] != 0
    ensures CString(b[at..end]) == b[at..stop]
  {
    var t := b[at..end];
    assert forall j :: 0 <= j < |t| ==> t[j] == b[at + j];
    IndexOfIs(t, 0, stop - at);
    assert t[..stop - at] == b[at..stop];
  }

  lemma NoColon(s: Bytes, n: nat)
    requires n >= 1 && forall j :: 0 <= j < |s| ==> s[j] != COLON
    ensures Cut(s, n) == [s]
  {
    IndexOfIs(s, COLON, |s|);
  }

  lemma OneField(s: Bytes)
    ensures Cut(s, 1) == [s]
  {
  }

  /** The lines before `i` are read into `users`; the rest leads to `goal`, unless a
      line was invalid. */
  ghost predicate Reading(b: Bytes, i: nat, to: nat, users: seq<Account>, ok: bool, goal: Option<seq<Account>>) {
    && to <= |b| && i <= to + 1
    && (if ok then goal == (if i <= to then ParseRecords(b[i..to], users) else Some(users)) else goal == None)
  }

  lemma ReadStart(b: Bytes, from: nat, to: nat, users: seq<Account>)
    requires from <= to <= |b|
    ensures Reading(b, from, to, users, true, ParseRecords(b[from..to], users))
  {
  }

  /** One turn of the line loop. */
  lemma ReadTurn(b: Bytes, start: nat, i: nat, to: nat, users: seq<Account>, ok: bool, goal: Option<seq<Account>>)
    requires Reading(b, start, to, users, ok, goal) && start <= i <= to && start < to
    requires (forall j :: start <= j < i ==> b[j] != NEWLINE) && (i < to ==> b[i] == NEWLINE)
    ensures i == start ==> Reading(b, i + 1, to, users, ok, goal)
    ensures i > start ==>
              var u := ParseLine(CString(b[start..i]), users);
              Reading(b, i + 1, to, users + (if u.Some? then [u.value] else []), ok && u.Some?, goal)
  {
    hide ParseLine, CString;
    IndexOfIs(b[start..to], NEWLINE, i - start);
    assert b[start..to][..i - start] == b[start..i];
    if i < to {
      assert b[start..to][i - start + 1..] == b[i + 1..to];
    }
    NoneLeft(users);
    var u := ParseLine(CString(b[start..i]), users);
    if u.Some? {
      NoneLeft(users + [u.value]);
    }
  }

  lemma NoneLeft(users: seq<Account>)
    ensures ParseRecords([], users) == Some(users)
  {
  }

  lemma ReadEnd(b: Bytes, i: nat, to: nat, users: seq<Account>, ok: bool, goal: Option<seq<Account>>)
    requires Reading(b, i, to, users, ok, goal) && i >= to
    ensures ok == goal.Some? && (ok ==> users == goal.value)
  {
  }
}
