/** The line editor of user/shell.c: a buffer edited in place while the terminal is
    redrawn with printed characters and counted backspaces, never reading it back.  After
    every key the screen shows exactly the line, with the cursor where the editor
    believes it to be, exactly as long as nothing unprintable is completed. */
module LineEditor {
  import opened Words

  type Text = seq<u8>

  const BLANK: u8 := 0x20
  const HIST_N := 8
  const BS: u8 := 0x08

  // ----- The terminal line -----

  /** The cells from the start of the edited line on, and the cursor; what is not in
      `row` is blank.  The terminal does not wrap. */
  datatype Term = Term(row: Text, cur: nat)

  predicate Printable(c: u8) {
    32 <= c < 127
  }

  predicate AllPrintable(s: Text) {
    forall i :: 0 <= i < |s| ==> Printable(s[i])
  }

  /** A printable character overwrites the cell under the cursor, a backspace moves the
      cursor and erases nothing, and any other byte draws nothing. */
  function Put(t: Term, c: u8): Term {
    if c == BS then (if t.cur > 0 then t.(cur := t.cur - 1) else t)
    else if !Printable(c) then t
    else if t.cur < |t.row| then Term(t.row[t.cur := c], t.cur + 1)
    else Term(t.row + seq(t.cur - |t.row|, i => BLANK) + [c], t.cur + 1)
  }

  /** The terminal after these bytes. */
  function Puts(t: Term, s: Text): Term
    decreases |s|
  {
    if s == [] then t else Puts(Put(t, s[0]), s[1..])
  }

  /** The screen shows `line` and blanks behind it, with the cursor at `pos`. */
  ghost predicate Shows(t: Term, line: Text, pos: nat) {
    && t.cur == pos && |line| <= |t.row| && t.row[..|line|] == line
    && forall i :: |line| <= i < |t.row| ==> t.row[i] == BLANK
  }

  // ----- What the keys mean -----

  /** The line, the cursor, and how far back in the history the user has gone. */
  datatype Edit = Edit(line: Text, pos: nat, browse: nat)

  datatype Key =
    | Char(c: u8)
    | Backspace
    | Left
    | Right
    | Up
    | Down
    | Tab(completion: Text)

  predicate InLine(e: Edit, max: nat) {
    e.pos <= |e.line| < max
  }

  function Inserted(e: Edit, c: u8, max: nat): Edit
    requires e.pos <= |e.line|
  {
    if |e.line| >= max - 1 then e
    else e.(line := e.line[..e.pos] + [c] + e.line[e.pos..], pos := e.pos + 1)
  }

  function InsertedAll(e: Edit, s: Text, max: nat): (r: Edit)
    requires e.pos <= |e.line|
    ensures r.pos <= |r.line|
    decreases |s|
  {
    if s == [] then e else InsertedAll(Inserted(e, s[0], max), s[1..], max)
  }

  function Erased(e: Edit): Edit
    requires e.pos <= |e.line|
  {
    if e.pos == 0 then e else e.(line := e.line[..e.pos - 1] + e.line[e.pos..], pos := e.pos - 1)
  }

  /** `history` is newest first; going below its newest entry empties the line. */
  function Browsed(e: Edit, up: bool, history: seq<Text>, max: nat): Edit
    requires max >= 1
  {
    var want := if up then e.browse + 1 else e.browse - 1;
    var nb := if want < 0 then 0 else if want > |history| then |history| else want;
    if nb == e.browse then e
    else
      var line := if nb == 0 then [] else Clipped(history[nb - 1], max - 1);
      Edit(line, |line|, nb)
  }

  function Clipped(s: Text, n: nat): (r: Text)
    ensures |r| <= n
  {
    if |s| <= n then s else s[..n]
  }

  function Pressed(e: Edit, k: Key, history: seq<Text>, max: nat): Edit
    requires InLine(e, max)
  {
    match k
    case Char(c) => if Printable(c) then Inserted(e, c, max) else e
    case Backspace => Erased(e)
    case Left => if e.pos > 0 then e.(pos := e.pos - 1) else e
    case Right => if e.pos < |e.line| then e.(pos := e.pos + 1) else e
    case Up => Browsed(e, true, history, max)
    case Down => Browsed(e, false, history, max)
    case Tab(s) => InsertedAll(e, s, max)
  }

  // ----- What goes out to the terminal -----

  function Backs(n: nat): (s: Text)
    ensures |s| == n && forall i :: 0 <= i < n ==> s[i] == BS
  {
    seq(n, i => BS)
  }

  /** "\b \b", n times. */
  function Rubout(n: nat): Text {
    if n == 0 then [] else Rubout(n - 1) + [BS, BLANK, BS]
  }

  /** ed_ins: the character, what stands behind it, and back again. */
  function InsBytes(e: Edit, c: u8, max: nat): Text
    requires e.pos <= |e.line|
  {
    if |e.line| >= max - 1 then []
    else [c] + e.line[e.pos..] + Backs(|e.line| - e.pos)
  }

  function InsAllBytes(e: Edit, s: Text, max: nat): Text
    requires e.pos <= |e.line|
    decreases |s|
  {
    if s == [] then [] else InsBytes(e, s[0], max) + InsAllBytes(Inserted(e, s[0], max), s[1..], max)
  }

  /** ed_del: one back, what stands behind the gap, a blank, and back again. */
  function DelBytes(e: Edit): Text
    requires e.pos <= |e.line|
  {
    if e.pos == 0 then [] else [BS] + e.line[e.pos..] + [BLANK] + Backs(|e.line| - e.pos + 1)
  }

  /** An arrow up or down: to the end, everything rubbed out, the remembered line. */
  function BrowseBytes(e: Edit, up: bool, history: seq<Text>, max: nat): Text
    requires e.pos <= |e.line| && max >= 1
  {
    var n := Browsed(e, up, history, max);
    if n.browse == e.browse then [] else e.line[e.pos..] + Rubout(|e.line|) + n.line
  }

  function KeyBytes(e: Edit, k: Key, history: seq<Text>, max: nat): Text
    requires InLine(e, max)
  {
    match k
    case Char(c) => if Printable(c) then InsBytes(e, c, max) else []
    case Backspace => DelBytes(e)
    case Left => if e.pos > 0 then [BS] else []
    case Right => if e.pos < |e.line| then [e.line[e.pos]] else []
    case Up => BrowseBytes(e, true, history, max)
    case Down => BrowseBytes(e, false, history, max)
    case Tab(s) => InsAllBytes(e, s, max)
  }

  // ----- The bytes from the keyboard -----

  const ESC: u8 := 0x1B
  const BRACKET := 0x5B
  const EMPTY := Edit([], 0, 0)

  /** What one turn of the reading loop comes to: nothing, the end of an escape sequence,
      or a byte. */
  datatype Turn = Nothing | Cursor(final: int) | Byte(c: u8)

  /** The first index from `i` on whose byte is not in [lo, hi]. */
  function Past(input: seq<int>, i: nat, lo: int, hi: int): (j: nat)
    requires i <= |input|
    ensures i <= j <= |input| && (j < |input| ==> !(lo <= input[j] <= hi))
    ensures forall k :: i <= k < j ==> lo <= input[k] <= hi
    decreases |input| - i
  {
    if i < |input| && lo <= input[i] <= hi then Past(input, i + 1, lo, hi) else i
  }

  /** The turn that begins at `i`, and where the next one does.  After an escape comes a
      bracket with parameters, intermediates and a final byte, or a byte taken as it is; a
      sequence the input cuts off is waited for. */
  function TurnAt(input: seq<int>, i: nat): (r: (Turn, nat))
    requires i < |input|
    ensures i < r.1 <= |input|
  {
    var ci := input[i];
    if ci < 0 then (Nothing, i + 1)
    else if ci % 256 != ESC then (Byte(ci % 256), i + 1)
    else if i + 1 == |input| then (Nothing, i + 1)
    else if input[i + 1] == BRACKET then
      var j := Past(input, Past(input, i + 2, 0x30, 0x3F), 0x20, 0x2F);
      if j == |input| then (Nothing, j) else (Cursor(input[j]), j + 1)
    else if input[i + 1] < 0 then (Nothing, i + 2)
    else (Byte(input[i + 1] % 256), i + 2)
  }

  datatype Action = Skip | Do(k: Key) | Return

  /** What to do about it; `tab` is what a completion inserts at this line and cursor. */
  function Meaning(t: Turn, line: Text, pos: nat, tab: (Text, nat) -> Text): Action {
    match t
    case Nothing => Skip
    case Cursor(f) =>
      if f == 0x41 then Do(Up) else if f == 0x42 then Do(Down)
      else if f == 0x44 then Do(Left) else if f == 0x43 then Do(Right) else Skip
    case Byte(c) =>
      if c == 0x0D || c == 0x0A then Return
      else if c == 0x09 then Do(Tab(tab(line, pos)))
      else if c == BS || c == 0x7F then Do(Backspace)
      else if Printable(c) then Do(Char(c)) else Skip
  }

  /** The keys up to Enter or the end of the input. */
  datatype Read = Read(keys: seq<Key>, next: nat, done: bool) {
    function Behind(before: seq<Key>): Read {
      Read(before + keys, next, done)
    }
  }

  function ReadKeys(input: seq<int>, i: nat, e: Edit, history: seq<Text>, tab: (Text, nat) -> Text, max: nat): (r: Read)
    requires i <= |input| && InLine(e, max)
    ensures i <= r.next <= |input| && (r.done ==> i < r.next)
    decreases |input| - i
  {
    if i == |input| then Read([], i, false)
    else
      var t := TurnAt(input, i);
      match Meaning(t.0, e.line, e.pos, tab)
      case Skip => ReadKeys(input, t.1, e, history, tab, max)
      case Return => Read([], t.1, true)
      case Do(k) =>
        PressedInLine(e, k, history, max);
        ReadKeys(input, t.1, Pressed(e, k, history, max), history, tab, max).Behind([k])
  }

  /** Where the shell is after all of the input: the lines it remembers, the line being
      typed, and the bytes sent for it. */
  datatype Reading = Reading(history: seq<Text>, edit: Edit, bytes: Text)

  function AllRead(input: seq<int>, i: nat, history: seq<Text>, tab: (Text, nat) -> Text, max: nat): Reading
    requires i <= |input| && max >= 1
    decreases |input| - i
  {
    var r := ReadKeys(input, i, EMPTY, history, tab, max);
    var e := Typed(EMPTY, r.keys, history, max);
    if r.done then AllRead(input, r.next, Remembered(history, e.line), tab, max)
    else Reading(history, e, TypedBytes(EMPTY, r.keys, history, max))
  }

  // ----- The editor -----

  class Editor {
    const buf: array<u8>
    var len: nat
    var pos: nat
    var browse: nat
    /** The history ring: `newest` entries back from `head`. */
    var ring: seq<Text>
    var head: nat
    var count: nat
    /** The bytes written to the terminal since the line began. */
    ghost var sent: Text

    constructor (max: nat)
      requires max >= 1
      ensures Valid() && State() == Edit([], 0, 0) && History() == [] && sent == []
      ensures buf.Length == max && fresh(buf)
    {
      buf := new u8[max];
      len, pos, browse := 0, 0, 0;
      ring := seq(HIST_N, i => []);
      head, count := 0, 0;
      sent := [];
    }

    ghost predicate Valid()
      reads this, buf
    {
      pos <= len < buf.Length && browse <= count <= HIST_N && head < HIST_N && |ring| == HIST_N
    }

    ghost function State(): (e: Edit)
      requires Valid()
      reads this, buf
      ensures InLine(e, buf.Length)
    {
      Edit(buf[..len], pos, browse)
    }

    /** The terminal line. */
    ghost function Screen(): Term
      reads `sent
    {
      Puts(Term([], 0), sent)
    }

    /** The remembered lines, newest first. */
    ghost function History(): (h: seq<Text>)
      requires |ring| == HIST_N && head < HIST_N && count <= HIST_N
      reads `ring, `head, `count
      ensures |h| == count
    {
      Newest(ring, head, count)
    }

    /** uputc. */
    method Emit(c: u8)
      modifies this`sent
      ensures sent == old(sent) + [c]
    {
      sent := sent + [c];
    }

    /** Prints buf[from, len). */
    method Redraw(from: nat)
      requires from <= len <= buf.Length
      modifies this`sent
      ensures sent == old(sent) + buf[from..len]
    {
      var k := from;
      while k < len
        invariant from <= k <= len && sent == old(sent) + buf[from..k]
      {
        Emit(buf[k]);
        k := k + 1;
        assert buf[from..k] == buf[from..k - 1] + [buf[k - 1]];
      }
    }

    /** A backspace for every k from `high` down to `low` + 1. */
    method StepBack(high: nat, low: nat)
      requires low <= high
      modifies this`sent
      ensures sent == old(sent) + Backs(high - low)
    {
      var k := high;
      while k > low
        invariant low <= k <= high && sent == old(sent) + Backs(high - k)
      {
        Emit(BS);
        k := k - 1;
        assert Backs(high - k) == Backs(high - k - 1) + [BS];
      }
    }

    /** ed_ins. */
    method Ins(ch: u8)
      requires Valid()
      modifies this`len, this`pos, this`sent, buf
      ensures Valid() && State() == Inserted(old(State()), ch, buf.Length)
      ensures sent == old(sent) + InsBytes(old(State()), ch, buf.Length)
    {
      if len >= buf.Length - 1 { return; }
      if pos == len {
        Append(ch);
      } else {
        InsInside(ch);
      }
    }

    method Append(ch: u8)
      requires Valid() && pos == len < buf.Length - 1
      modifies this`len, this`pos, this`sent, buf
      ensures Valid() && State() == Inserted(old(State()), ch, buf.Length)
      ensures sent == old(sent) + InsBytes(old(State()), ch, buf.Length)
    {
      ghost var e := State();
      buf[len] := ch;
      len, pos := len + 1, pos + 1;
      Emit(ch);
      AtEnd(e.line, ch);
      assert buf[..len] == e.line + [ch];
    }

    method InsInside(ch: u8)
      requires Valid() && len < buf.Length - 1
      modifies this`len, this`pos, this`sent, buf
      ensures Valid() && State() == Inserted(old(State()), ch, buf.Length)
      ensures sent == old(sent) + InsBytes(old(State()), ch, buf.Length)
    {
      ghost var e := State();
      OpenGap(ch);
      Redraw(pos);
      StepBack(len, pos + 1);
      InsertPieces(e.line, e.pos, ch, buf[..]);
      pos := pos + 1;
    }

    /** Moves the characters from the cursor on one to the right. */
    method OpenGap(ch: u8)
      requires pos <= len < buf.Length - 1
      modifies buf, this`len
      ensures len == old(len) + 1 && buf[pos] == ch
      ensures forall i :: 0 <= i < pos ==> buf[i] == old(buf[i])
      ensures forall i :: pos < i < len ==> buf[i] == old(buf[i - 1])
    {
      var k := len;
      while k > pos
        invariant pos <= k <= len == old(len)
        invariant forall i :: 0 <= i < k ==> buf[i] == old(buf[i])
        invariant forall i :: k < i <= len ==> buf[i] == old(buf[i - 1])
      {
        buf[k] := buf[k - 1];
        k := k - 1;
      }
      buf[pos] := ch;
      len := len + 1;
    }

    /** ed_del. */
    method Del()
      requires Valid()
      modifies this`len, this`pos, this`sent, buf
      ensures Valid() && State() == Erased(old(State()))
      ensures sent == old(sent) + DelBytes(old(State()))
    {
      if pos == 0 { return; }
      ghost var e := State();
      CloseGap();
      ErasePieces(e.line, e.pos, buf[..]);
      assert buf[..len] == e.line[..e.pos - 1] + e.line[e.pos..] && buf[pos..len] == e.line[e.pos..];
      ShowErased();
    }

    method ShowErased()
      requires pos <= len <= buf.Length
      modifies this`sent
      ensures sent == old(sent) + ([BS] + buf[pos..len] + [BLANK] + Backs(len + 1 - pos))
    {
      Emit(BS);
      Redraw(pos);
      Emit(BLANK);
      StepBack(len + 1, pos);
    }

    /** Moves the characters behind the cursor one to the left. */
    method CloseGap()
      requires 0 < pos <= len <= buf.Length
      modifies buf, this`len, this`pos
      ensures len == old(len) - 1 && pos == old(pos) - 1
      ensures forall i :: 0 <= i < pos ==> buf[i] == old(buf[i])
      ensures forall i :: pos <= i < len ==> buf[i] == old(buf[i + 1])
    {
      var k := pos - 1;
      while k + 1 < len
        invariant pos - 1 <= k < len == old(len) && pos == old(pos)
        invariant forall i :: 0 <= i < pos - 1 ==> buf[i] == old(buf[i])
        invariant forall i :: pos - 1 <= i < k ==> buf[i] == old(buf[i + 1])
        invariant forall i :: k <= i < len ==> buf[i] == old(buf[i])
      {
        buf[k] := buf[k + 1];
        k := k + 1;
      }
      len := len - 1;
      pos := pos - 1;
    }

    /** Tab completion, once the text to insert is known. */
    method Complete(s: Text)
      requires Valid()
      modifies this`len, this`pos, this`sent, buf
      ensures Valid() && State() == InsertedAll(old(State()), s, buf.Length)
      ensures sent == old(sent) + InsAllBytes(old(State()), s, buf.Length)
    {
      hide Inserted, InsBytes;
      var k := 0;
      while k < |s|
        invariant 0 <= k <= |s| && Valid()
        invariant InsertedAll(State(), s[k..], buf.Length) == InsertedAll(old(State()), s, buf.Length)
        invariant sent + InsAllBytes(State(), s[k..], buf.Length)
               == old(sent) + InsAllBytes(old(State()), s, buf.Length)
      {
        assert s[k..][1..] == s[k + 1..];
        Ins(s[k]);
        k := k + 1;
      }
    }

    /** Prints from the cursor to the end of the line. */
    method ToEnd()
      requires Valid()
      modifies this`pos, this`sent
      ensures pos == len && sent == old(sent) + buf[old(pos)..len]
    {
      while pos < len
        invariant old(pos) <= pos <= len && sent == old(sent) + buf[old(pos)..pos]
      {
        Emit(buf[pos]);
        pos := pos + 1;
        assert buf[old(pos)..pos] == buf[old(pos)..pos - 1] + [buf[pos - 1]];
      }
    }

    /** Cursor to the end, then "\b \b" for every character. */
    method Wipe()
      requires Valid()
      modifies this`len, this`pos, this`sent
      ensures Valid() && len == 0 == pos
      ensures sent == old(sent) + buf[old(pos)..old(len)] + Rubout(old(len))
    {
      ToEnd();
      ghost var base := sent;
      while len > 0
        invariant pos == len <= old(len) && base + Rubout(old(len)) == sent + Rubout(len)
      {
        RuboutFirst(len);
        Emit(BS);
        Emit(BLANK);
        Emit(BS);
        len := len - 1;
        pos := pos - 1;
      }
    }

    /** One step through the history. */
    method Browse(up: bool)
      requires Valid()
      modifies this`len, this`pos, this`sent, this`browse, buf
      ensures Valid() && State() == Browsed(old(State()), up, History(), buf.Length)
      ensures sent == old(sent) + BrowseBytes(old(State()), up, History(), buf.Length)
    {
      hide Rubout, Newest, Clipped;
      var nb := if up then browse + 1 else browse - 1;
      if nb < 0 { nb := 0; }
      if nb > count { nb := count; }
      if nb == browse { return; }
      BrowseTo(nb);
    }

    method BrowseTo(nb: nat)
      requires Valid() && nb <= count
      modifies this`len, this`pos, this`sent, this`browse, buf
      ensures Valid() && len == pos && browse == nb
      ensures buf[..len] == if nb == 0 then [] else Clipped(History()[nb - 1], buf.Length - 1)
      ensures sent == old(sent) + (old(State()).line[old(pos)..] + Rubout(old(len)) + buf[..len])
    {
      hide Rubout, Newest, Clipped;
      assert buf[pos..len] == State().line[pos..];
      Wipe();
      browse := nb;
      Refill();
    }

    /** The line of the history the user has come to. */
    method Refill()
      requires Valid() && len == 0 == pos
      modifies this`len, this`pos, this`sent, buf
      ensures Valid() && len == pos
      ensures buf[..len] == if browse == 0 then [] else Clipped(History()[browse - 1], buf.Length - 1)
      ensures sent == old(sent) + buf[..len]
    {
      if browse > 0 {
        var s := HistAt(browse);
        Recall(s);
      }
    }

    /** scpy of a remembered line into the buffer, and its echo. */
    method Recall(s: Text)
      requires Valid() && len == 0 == pos
      modifies this`len, this`pos, this`sent, buf
      ensures Valid() && len == pos && buf[..len] == Clipped(s, buf.Length - 1)
      ensures sent == old(sent) + Clipped(s, buf.Length - 1)
    {
      var n := if |s| < buf.Length - 1 then |s| else buf.Length - 1;
      forall i | 0 <= i < n {
        buf[i] := s[i];
      }
      len := n;
      Redraw(0);
      pos := len;
      assert buf[0..len] == buf[..len];
    }

    /** hist_at. */
    method HistAt(k: nat) returns (s: Text)
      requires |ring| == HIST_N && head < HIST_N && 1 <= k <= count <= HIST_N
      ensures s == History()[k - 1]
    {
      s := ring[(head - k + HIST_N) % HIST_N];
      NewestAt(ring, head, count, k - 1);
    }

    /** hist_add: empty lines and repetitions of the newest line are not kept. */
    method Remember(line: Text)
      requires Valid()
      modifies this`ring, this`head, this`count
      ensures Valid() && State() == old(State())
      ensures History() == Remembered(old(History()), line)
    {
      hide Newest, Kept;
      if |line| == 0 { return; }
      if count > 0 {
        var nw := HistAt(1);
        if nw == line { return; }
      }
      Rotated(ring, head, count, line);
      ring := ring[head := line];
      head := (head + 1) % HIST_N;
      if count < HIST_N { count := count + 1; }
    }

    /** One key. */
    method Press(k: Key)
      requires Valid()
      modifies this`len, this`pos, this`sent, this`browse, buf
      ensures Valid() && State() == Pressed(old(State()), k, History(), buf.Length)
      ensures sent == old(sent) + KeyBytes(old(State()), k, History(), buf.Length)
    {
      hide Inserted, InsertedAll, Erased, Browsed, InsBytes, InsAllBytes, DelBytes, BrowseBytes;
      match k {
        case Char(c) => if Printable(c) { Ins(c); }
        case Backspace => Del();
        case Left =>
          if pos > 0 {
            pos := pos - 1;
            Emit(BS);
          }
        case Right =>
          if pos < len {
            Emit(buf[pos]);
            pos := pos + 1;
          }
        case Up => Browse(true);
        case Down => Browse(false);
        case Tab(s) => Complete(s);
      }
    }

    /** Enter: the cursor goes to the end, the line to the history, and a new one begins. */
    method Enter() returns (line: Text)
      requires Valid()
      modifies this`len, this`pos, this`browse, this`ring, this`head, this`count, this`sent
      ensures Valid() && line == old(State()).line && State() == Edit([], 0, 0) && sent == []
      ensures History() == Remembered(old(History()), line)
    {
      hide Remembered;
      line := buf[..len];
      ToEnd();
      Remember(line);
      len, pos, browse := 0, 0, 0;
      sent := [];
    }

    /** One turn of the reading loop: a byte, or a whole escape sequence. */
    method ReadTurn(input: seq<int>, i: nat) returns (t: Turn, n: nat)
      requires i < |input|
      ensures (t, n) == TurnAt(input, i)
    {
      var ci := input[i];
      n := i + 1;
      if ci < 0 { return Nothing, n; }
      var c: u8 := ci % 256;
      if c != ESC { return Byte(c), n; }
      if n == |input| { return Nothing, n; }
      var b1 := input[n];
      n := n + 1;
      if b1 == BRACKET {
        n := SkipTo(input, n, 0x30, 0x3F);
        n := SkipTo(input, n, 0x20, 0x2F);
        if n == |input| { return Nothing, n; }
        return Cursor(input[n]), n + 1;
      }
      if b1 < 0 { return Nothing, n; }
      c := b1 % 256;
      t := Byte(c);
    }

    method SkipTo(input: seq<int>, from: nat, lo: int, hi: int) returns (j: nat)
      requires from <= |input|
      ensures j == Past(input, from, lo, hi)
    {
      j := from;
      while j < |input| && lo <= input[j] <= hi
        invariant from <= j <= |input| && Past(input, j, lo, hi) == Past(input, from, lo, hi)
      {
        j := j + 1;
      }
    }

    /** read_line_edit on the bytes from `from` on: it returns at Enter, or waits for more. */
    method ReadLine(input: seq<int>, from: nat, tab: (Text, nat) -> Text) returns (line: Text, next: nat, done: bool)
      requires Valid() && from <= |input|
      modifies this`len, this`pos, this`browse, this`ring, this`head, this`count, this`sent, buf
      ensures Valid() && from <= next <= |input| && (done ==> from < next)
      ensures var r := ReadKeys(input, from, old(State()), old(History()), tab, buf.Length);
              var e := Typed(old(State()), r.keys, old(History()), buf.Length);
              && next == r.next && done == r.done
              && (done ==>
                  line == e.line && State() == EMPTY && sent == [] && History() == Remembered(old(History()), line))
              && (!done ==> State() == e && History() == old(History())
                            && sent == old(sent) + TypedBytes(old(State()), r.keys, old(History()), buf.Length))
      ensures var keys := ReadKeys(input, from, old(State()), old(History()), tab, buf.Length).keys;
              !done && old(Mirrors(Screen(), State())) && LinesPrintable(old(History()))
              && PrintableKeys(old(State()), keys, old(History()), buf.Length)
              ==> Mirrors(Screen(), State())
    {
      hide Pressed, KeyBytes, TurnAt, Remembered, Meaning, Typed, TypedBytes, Mirrors, PrintableKeys, LinesPrintable;
      line, next, done := [], from, false;
      ghost var e0, h, b0, keys := State(), History(), sent, [];
      NoKeys(e0, h, buf.Length);
      Behind0(ReadKeys(input, from, e0, h, tab, buf.Length));
      while next < |input|
        invariant from <= next <= |input| && Valid() && History() == h && !done
        invariant State() == Typed(e0, keys, h, buf.Length) && sent == b0 + TypedBytes(e0, keys, h, buf.Length)
        invariant ReadKeys(input, from, e0, h, tab, buf.Length)
               == ReadKeys(input, next, State(), h, tab, buf.Length).Behind(keys)
      {
        ghost var at, e := next, State();
        var t;
        t, next := ReadTurn(input, next);
        var a := Meaning(t, buf[..len], pos, tab);
        if a.Return? {
          assert keys + [] == keys;
          line := Enter();
          done := true;
          return;
        }
        if a.Do? {
          Press(a.k);
          KeysMore(e0, keys, a.k, h, buf.Length);
          Behind2(ReadKeys(input, next, State(), h, tab, buf.Length), keys, a.k);
          keys := keys + [a.k];
        }
      }
      assert keys + [] == keys;
      if Mirrors(Puts(Term([], 0), b0), e0) && LinesPrintable(h) && PrintableKeys(e0, keys, h, buf.Length) {
        SentMirrors(b0, e0, keys, h, buf.Length);
      }
    }

    /** The shell reads line after line. */
    method ReadLines(input: seq<int>, tab: (Text, nat) -> Text)
      requires Valid() && State() == EMPTY && sent == []
      modifies this`len, this`pos, this`browse, this`ring, this`head, this`count, this`sent, buf
      ensures Valid()
      ensures var r := AllRead(input, 0, old(History()), tab, buf.Length);
              History() == r.history && State() == r.edit && sent == r.bytes
      ensures LinesPrintable(old(History())) && TabPrintable(tab) ==>
                Mirrors(Screen(), State()) && LinesPrintable(History())
    {
      hide ReadKeys, Typed, TypedBytes, Mirrors, LinesPrintable, TabPrintable, Remembered;
      ghost var h := History();
      var i := 0;
      var done := true;
      while done
        invariant 0 <= i <= |input| && Valid()
        invariant done ==> State() == EMPTY && sent == []
        invariant done ==> AllRead(input, 0, h, tab, buf.Length) == AllRead(input, i, History(), tab, buf.Length)
        invariant !done ==> AllRead(input, 0, h, tab, buf.Length) == Reading(History(), State(), sent)
        decreases |input| - i, done
      {
        ghost var before := History();
        var line, next;
        line, next, done := ReadLine(input, i, tab);
        assert [] + TypedBytes(EMPTY, ReadKeys(input, i, EMPTY, before, tab, buf.Length).keys, before, buf.Length)
            == TypedBytes(EMPTY, ReadKeys(input, i, EMPTY, before, tab, buf.Length).keys, before, buf.Length);
        i := next;
      }
      if LinesPrintable(h) && TabPrintable(tab) {
        ReadingMirrors(input, 0, h, tab, buf.Length);
      }
    }
  }

  lemma AtEnd(line: Text, ch: u8)
    ensures line[..|line|] + [ch] + line[|line|..] == line + [ch]
    ensures [ch] + line[|line|..] + Backs(0) == [ch]
  {
  }

  lemma InsertPieces(line: Text, pos: nat, ch: u8, cells: Text)
    requires pos <= |line| < |cells| && cells[pos] == ch
    requires forall i :: 0 <= i < pos ==> cells[i] == line[i]
    requires forall i :: pos < i <= |line| ==> cells[i] == line[i - 1]
    ensures cells[..|line| + 1] == line[..pos] + [ch] + line[pos..]
    ensures cells[pos..|line| + 1] == [ch] + line[pos..]
  {
  }

  lemma ErasePieces(line: Text, pos: nat, cells: Text)
    requires 0 < pos <= |line| <= |cells|
    requires forall i :: 0 <= i < pos - 1 ==> cells[i] == line[i]
    requires forall i :: pos - 1 <= i < |line| - 1 ==> cells[i] == line[i + 1]
    ensures cells[..|line| - 1] == line[..pos - 1] + line[pos..]
    ensures cells[pos - 1..|line| - 1] == line[pos..]
  {
  }

  function Remembered(history: seq<Text>, line: Text): seq<Text> {
    if line == [] || (history != [] && history[0] == line) then history else Kept([line] + history)
  }

  /** An empty line and one just remembered are not remembered; any other comes first, before
      at most seven older ones. */
  lemma RememberedIs(history: seq<Text>, line: Text)
    ensures var r := Remembered(history, line);
            if line == [] || (history != [] && history[0] == line) then r == history
            else && |r| == (if |history| < 8 then |history| + 1 else 8) && r[0] == line
                 && forall i :: 0 <= i < |r| - 1 ==> r[i + 1] == history[i]
  {
  }

  lemma {:induction false} RuboutFirst(n: nat)
    requires n > 0
    ensures Rubout(n) == [BS, BLANK, BS] + Rubout(n - 1)
  {
    if n > 1 {
      RuboutFirst(n - 1);
      assert [BS, BLANK, BS] + Rubout(n - 2) + [BS, BLANK, BS] == [BS, BLANK, BS] + (Rubout(n - 2) + [BS, BLANK, BS]);
    }
  }

  // ----- The screen mirrors the line -----

  /** The line is on the screen, and it has printable characters only. */
  ghost predicate Mirrors(t: Term, e: Edit) {
    Shows(t, e.line, e.pos) && AllPrintable(e.line)
  }

  lemma {:induction false} PutsAppend(t: Term, a: Text, b: Text)
    ensures Puts(t, a + b) == Puts(Puts(t, a), b)
    decreases |a|
  {
    if a == [] {
      assert a + b == b;
    } else {
      assert (a + b)[1..] == a[1..] + b;
      PutsAppend(Put(t, a[0]), a[1..], b);
    }
  }

  /** The cells from `at` on overwritten. */
  function Over(row: Text, at: nat, s: Text): (r: Text)
    requires at <= |row|
    ensures |r| == if at + |s| > |row| then at + |s| else |row|
    ensures r[..at] == row[..at] && r[at..at + |s|] == s
    ensures forall i :: at + |s| <= i < |r| ==> r[i] == row[i]
  {
    row[..at] + s + if at + |s| > |row| then [] else row[at + |s|..]
  }

  lemma {:induction false} PutsPrinted(t: Term, s: Text)
    requires t.cur <= |t.row| && AllPrintable(s)
    ensures Puts(t, s) == Term(Over(t.row, t.cur, s), t.cur + |s|)
    decreases |s|
  {
    if s == [] {
      assert Over(t.row, t.cur, s) == t.row;
    } else {
      var u := Put(t, s[0]);
      assert seq(0, i => BLANK) == [];
      assert u == Term(Over(t.row, t.cur, [s[0]]), t.cur + 1);
      PutsPrinted(u, s[1..]);
      assert s == [s[0]] + s[1..];
      assert Over(u.row, u.cur, s[1..]) == Over(t.row, t.cur, s);
    }
  }

  lemma {:induction false} PutsBacks(t: Term, n: nat)
    ensures Puts(t, Backs(n)) == t.(cur := if n <= t.cur then t.cur - n else 0)
    decreases n
  {
    if n > 0 {
      assert Backs(n)[1..] == Backs(n - 1);
      PutsBacks(Put(t, BS), n - 1);
    }
  }

  /** No byte moves the cursor more than one to the right. */
  lemma {:induction false} CursorBound(t: Term, s: Text)
    ensures Puts(t, s).cur <= t.cur + |s|
    decreases |s|
  {
    if s != [] {
      CursorBound(Put(t, s[0]), s[1..]);
    }
  }

  /** A printable character keeps the mirror. */
  lemma InsMirrors(t: Term, e: Edit, c: u8, max: nat)
    requires InLine(e, max) && Mirrors(t, e) && Printable(c)
    ensures Mirrors(Puts(t, InsBytes(e, c, max)), Inserted(e, c, max))
  {
    hide Shows, Put, Puts;
    if |e.line| < max - 1 {
      MirrorsAt(t, e);
      var w := [c] + e.line[e.pos..];
      PutsAppend(t, w, Backs(|e.line| - e.pos));
      PutsPrinted(t, w);
      PutsBacks(Puts(t, w), |e.line| - e.pos);
      InsertedCells(t, e, c, max);
    } else {
      PutsBacks(t, 0);
      assert Backs(0) == InsBytes(e, c, max);
    }
  }

  lemma InsertedCells(t: Term, e: Edit, c: u8, max: nat)
    requires InLine(e, max) && |e.line| < max - 1 && Shows(t, e.line, e.pos)
    ensures Shows(Term(Over(t.row, e.pos, [c] + e.line[e.pos..]), e.pos + 1), Inserted(e, c, max).line, e.pos + 1)
  {
    var w := [c] + e.line[e.pos..];
    var cells, now := Over(t.row, e.pos, w), Inserted(e, c, max).line;
    forall i | 0 <= i < |now|
      ensures cells[i] == now[i]
    {
      if i < e.pos {
        assert cells[..e.pos][i] == t.row[..|e.line|][i];
      } else {
        assert cells[e.pos..e.pos + |w|][i - e.pos] == w[i - e.pos];
      }
    }
  }

  /** Any other byte leaves the cursor behind. */
  lemma InsBreaks(t: Term, e: Edit, c: u8, max: nat)
    requires InLine(e, max) && |e.line| < max - 1
    requires t.cur < e.pos || (t.cur <= e.pos && !Printable(c))
    ensures Puts(t, InsBytes(e, c, max)).cur < Inserted(e, c, max).pos
  {
    var tail := e.line[e.pos..];
    var w := [c] + tail;
    PutsAppend(t, w, Backs(|tail|));
    assert w[0] == c && w[1..] == tail;
    CursorBound(Put(t, c), tail);
    PutsBacks(Puts(t, w), |tail|);
  }

  /** As much of a completion as the line has room for. */
  function Fitting(e: Edit, s: Text, max: nat): Text
    requires InLine(e, max)
  {
    Clipped(s, max - 1 - |e.line|)
  }

  /** A completion keeps the mirror exactly if what is inserted of it is printable. */
  lemma {:induction false} CompletionMirrors(t: Term, e: Edit, s: Text, max: nat)
    requires InLine(e, max) && Mirrors(t, e)
    ensures var d, u := InsertedAll(e, s, max), Puts(t, InsAllBytes(e, s, max));
            (AllPrintable(Fitting(e, s, max)) ==> Mirrors(u, d))
            && (Shows(u, d.line, d.pos) ==> AllPrintable(Fitting(e, s, max)))
    decreases |s|
  {
    hide Shows, InsBytes, Put, Inserted;
    if s == [] {
    } else if |e.line| >= max - 1 {
      FullLine(e, s, max);
    } else {
      var d, u := Inserted(e, s[0], max), Puts(t, InsBytes(e, s[0], max));
      InsertedOne(e, s[0], max);
      PutsAppend(t, InsBytes(e, s[0], max), InsAllBytes(d, s[1..], max));
      assert Fitting(e, s, max) == [s[0]] + Fitting(d, s[1..], max);
      if Printable(s[0]) {
        InsMirrors(t, e, s[0], max);
        CompletionMirrors(u, d, s[1..], max);
        assert AllPrintable(Fitting(e, s, max)) <==> AllPrintable(Fitting(d, s[1..], max)) by {
          forall i | 0 <= i < |Fitting(d, s[1..], max)|
            ensures Fitting(e, s, max)[i + 1] == Fitting(d, s[1..], max)[i]
          {
          }
        }
      } else {
        MirrorsAt(t, e);
        InsBreaks(t, e, s[0], max);
        StaysBroken(u, d, s[1..], max);
        assert Fitting(e, s, max)[0] == s[0];
        ShowsAt(Puts(u, InsAllBytes(d, s[1..], max)), InsertedAll(d, s[1..], max));
      }
    }
  }

  lemma MirrorsAt(t: Term, e: Edit)
    requires Mirrors(t, e)
    ensures t.cur == e.pos && |e.line| <= |t.row|
  {
  }

  lemma ShowsAt(t: Term, e: Edit)
    ensures Shows(t, e.line, e.pos) ==> t.cur == e.pos
  {
  }

  lemma InsertedOne(e: Edit, c: u8, max: nat)
    requires InLine(e, max) && |e.line| < max - 1
    ensures |Inserted(e, c, max).line| == |e.line| + 1 && InLine(Inserted(e, c, max), max)
  {
  }

  /** A full line takes nothing and prints nothing. */
  lemma {:induction false} FullLine(e: Edit, s: Text, max: nat)
    requires InLine(e, max) && |e.line| >= max - 1
    ensures InsertedAll(e, s, max) == e && InsAllBytes(e, s, max) == []
    decreases |s|
  {
    if s != [] {
      FullLine(e, s[1..], max);
    }
  }

  /** Once the cursor is behind, no insertion brings it back. */
  lemma {:induction false} StaysBroken(t: Term, e: Edit, s: Text, max: nat)
    requires InLine(e, max) && t.cur < e.pos
    ensures Puts(t, InsAllBytes(e, s, max)).cur < InsertedAll(e, s, max).pos
    decreases |s|
  {
    hide InsBytes, Put, Inserted;
    if s == [] {
    } else if |e.line| >= max - 1 {
      FullLine(e, s, max);
    } else {
      InsertedOne(e, s[0], max);
      PutsAppend(t, InsBytes(e, s[0], max), InsAllBytes(Inserted(e, s[0], max), s[1..], max));
      InsBreaks(t, e, s[0], max);
      StaysBroken(Puts(t, InsBytes(e, s[0], max)), Inserted(e, s[0], max), s[1..], max);
    }
  }

  lemma DelMirrors(t: Term, e: Edit)
    requires e.pos <= |e.line| && Mirrors(t, e)
    ensures Mirrors(Puts(t, DelBytes(e)), Erased(e))
  {
    hide Shows, Puts, Put;
    if e.pos > 0 {
      MirrorsAt(t, e);
      ErasedScreen(t, e);
      ErasedCells(t, e);
    } else {
      PutsBacks(t, 0);
      assert Backs(0) == DelBytes(e);
    }
  }

  lemma ErasedScreen(t: Term, e: Edit)
    requires 0 < e.pos <= |e.line| && t.cur == e.pos <= |t.row| && AllPrintable(e.line)
    ensures Puts(t, DelBytes(e)) == Term(Over(t.row, e.pos - 1, e.line[e.pos..] + [BLANK]), e.pos - 1)
  {
    hide Put, Puts;
    var w, n := e.line[e.pos..] + [BLANK], |e.line| - e.pos + 1;
    var u := t.(cur := e.pos - 1);
    assert DelBytes(e) == [BS] + (w + Backs(n));
    PutsAppend(t, [BS], w + Backs(n));
    assert Puts(t, [BS]) == u by { assert [BS] == Backs(1); PutsBacks(t, 1); }
    PutsAppend(u, w, Backs(n));
    PutsPrinted(u, w);
    PutsBacks(Puts(u, w), n);
  }

  lemma ErasedCells(t: Term, e: Edit)
    requires 0 < e.pos <= |e.line| && Shows(t, e.line, e.pos)
    ensures Shows(Term(Over(t.row, e.pos - 1, e.line[e.pos..] + [BLANK]), e.pos - 1), Erased(e).line, e.pos - 1)
  {
    var tail := e.line[e.pos..];
    var cells, now := Over(t.row, e.pos - 1, tail + [BLANK]), Erased(e).line;
    forall i | 0 <= i < |now|
      ensures cells[i] == now[i]
    {
      if i < e.pos - 1 {
        assert cells[..e.pos - 1][i] == t.row[..|e.line|][i];
      } else {
        assert cells[e.pos - 1..e.pos - 1 + |tail| + 1][i - (e.pos - 1)] == tail[i - (e.pos - 1)];
      }
    }
    assert cells[e.pos - 1..e.pos - 1 + |tail| + 1][|tail|] == BLANK;
  }

  lemma PutsThree(t: Term, a: u8, b: u8, c: u8)
    ensures Puts(t, [a, b, c]) == Put(Put(Put(t, a), b), c)
  {
    hide Put;
    assert [a, b, c][1..] == [b, c] && [b, c][1..] == [c] && [c][1..] == [];
    assert Puts(Put(t, a), [b, c]) == Puts(Put(Put(t, a), b), [c]);
  }

  /** Rubbing out from the end leaves nothing but blanks. */
  lemma {:induction false} RuboutClears(t: Term, line: Text)
    requires Shows(t, line, |line|)
    ensures Shows(Puts(t, Rubout(|line|)), [], 0)
    decreases |line|
  {
    if line != [] {
      var n := |line| - 1;
      RuboutFirst(n + 1);
      var one := [BS, BLANK, BS];
      PutsAppend(t, one, Rubout(n));
      var u := Term(t.row[n := BLANK], n);
      PutsThree(t, BS, BLANK, BS);
      assert Puts(t, one) == u;
      assert u.row[..n] == t.row[..n + 1][..n] == line[..n];
      RuboutClears(u, line[..n]);
    }
  }

  lemma LineCleared(t: Term, e: Edit)
    requires e.pos <= |e.line| && Mirrors(t, e)
    ensures Shows(Puts(t, e.line[e.pos..] + Rubout(|e.line|)), [], 0)
  {
    hide Put, Puts, Rubout;
    var tail := e.line[e.pos..];
    PutsAppend(t, tail, Rubout(|e.line|));
    PutsPrinted(t, tail);
    SameCells(t.row, e.line, e.pos);
    RuboutClears(Puts(t, tail), e.line);
  }

  /** Printing what is there already changes no cell. */
  lemma SameCells(row: Text, line: Text, at: nat)
    requires at <= |line| <= |row| && row[..|line|] == line
    ensures Over(row, at, line[at..]) == row
  {
    assert row[at..|line|] == row[..|line|][at..];
  }

  lemma BrowseMirrors(t: Term, e: Edit, up: bool, history: seq<Text>, max: nat)
    requires InLine(e, max) && Mirrors(t, e) && LinesPrintable(history)
    ensures Mirrors(Puts(t, BrowseBytes(e, up, history, max)), Browsed(e, up, history, max))
  {
    hide Put, Puts, Rubout;
    var n := Browsed(e, up, history, max);
    if n.browse != e.browse {
      var wipe := e.line[e.pos..] + Rubout(|e.line|);
      LineCleared(t, e);
      PutsAppend(t, wipe, n.line);
      PutsPrinted(Puts(t, wipe), n.line);
    } else {
      PutsBacks(t, 0);
      assert Backs(0) == BrowseBytes(e, up, history, max);
    }
  }

  /** Only printable lines are remembered. */
  ghost predicate LinesPrintable(history: seq<Text>) {
    forall i :: 0 <= i < |history| ==> AllPrintable(history[i])
  }

  lemma RememberedPrintable(history: seq<Text>, line: Text)
    requires LinesPrintable(history) && AllPrintable(line)
    ensures LinesPrintable(Remembered(history, line))
  {
  }

  /** What a key may insert is printable. */
  ghost predicate PrintableKey(e: Edit, k: Key, max: nat)
    requires InLine(e, max)
  {
    k.Tab? ==> AllPrintable(Fitting(e, k.completion, max))
  }

  /** From a mirrored line, a key leads to a mirrored line exactly if it does not
      complete with bytes that cannot be printed. */
  lemma KeyMirrors(t: Term, e: Edit, k: Key, history: seq<Text>, max: nat)
    requires InLine(e, max) && Mirrors(t, e) && LinesPrintable(history)
    ensures var d, u := Pressed(e, k, history, max), Puts(t, KeyBytes(e, k, history, max));
            (PrintableKey(e, k, max) ==> Mirrors(u, d)) && (Shows(u, d.line, d.pos) ==> PrintableKey(e, k, max))
  {
    hide InsBytes, DelBytes, BrowseBytes, InsAllBytes, Inserted, Erased, Browsed, InsertedAll;
    match k {
      case Char(c) => if Printable(c) { InsMirrors(t, e, c, max); }
      case Backspace => DelMirrors(t, e);
      case Left => if e.pos > 0 { assert [BS] == Backs(1); PutsBacks(t, 1); }
      case Right =>
        if e.pos < |e.line| {
          PutsPrinted(t, [e.line[e.pos]]);
          assert t.row[e.pos] == t.row[..|e.line|][e.pos];
          assert Over(t.row, e.pos, [e.line[e.pos]]) == t.row;
        }
      case Up => BrowseMirrors(t, e, true, history, max);
      case Down => BrowseMirrors(t, e, false, history, max);
      case Tab(s) => CompletionMirrors(t, e, s, max);
    }
  }

  // ----- Keys in a row -----

  lemma PressedInLine(e: Edit, k: Key, history: seq<Text>, max: nat)
    requires InLine(e, max)
    ensures InLine(Pressed(e, k, history, max), max)
  {
    if k.Tab? {
      InsertedInLine(e, k.completion, max);
    }
  }

  lemma {:induction false} InsertedInLine(e: Edit, s: Text, max: nat)
    requires InLine(e, max)
    ensures InLine(InsertedAll(e, s, max), max)
    decreases |s|
  {
    if s != [] {
      InsertedInLine(Inserted(e, s[0], max), s[1..], max);
    }
  }

  function Typed(e: Edit, keys: seq<Key>, history: seq<Text>, max: nat): (r: Edit)
    requires InLine(e, max)
    ensures InLine(r, max)
    decreases |keys|
  {
    if keys == [] then e
    else
      var d := Typed(e, keys[..|keys| - 1], history, max);
      PressedInLine(d, keys[|keys| - 1], history, max);
      Pressed(d, keys[|keys| - 1], history, max)
  }

  function TypedBytes(e: Edit, keys: seq<Key>, history: seq<Text>, max: nat): Text
    requires InLine(e, max)
    decreases |keys|
  {
    if keys == [] then []
    else
      var front := keys[..|keys| - 1];
      TypedBytes(e, front, history, max) + KeyBytes(Typed(e, front, history, max), keys[|keys| - 1], history, max)
  }

  /** No key completes with bytes that cannot be printed. */
  ghost predicate PrintableKeys(e: Edit, keys: seq<Key>, history: seq<Text>, max: nat)
    requires InLine(e, max)
  {
    forall i :: 0 <= i < |keys| ==> PrintableKey(Typed(e, keys[..i], history, max), keys[i], max)
  }

  /** After every key of any sequence the screen shows exactly the line, with the
      cursor where the editor believes it to be. */
  lemma {:induction false} ScreenMirrors(t: Term, e: Edit, keys: seq<Key>, history: seq<Text>, max: nat, n: nat)
    requires InLine(e, max) && Mirrors(t, e) && LinesPrintable(history) && n <= |keys|
    requires PrintableKeys(e, keys, history, max)
    ensures Mirrors(Puts(t, TypedBytes(e, keys[..n], history, max)), Typed(e, keys[..n], history, max))
    decreases n
  {
    hide KeyBytes, Pressed, Mirrors, Put, PrintableKey;
    if n == 0 {
      assert keys[..0] == [];
    } else {
      ScreenMirrors(t, e, keys, history, max, n - 1);
      var front := keys[..n - 1];
      assert keys[..n][..n - 1] == front && keys[..n][n - 1] == keys[n - 1];
      var d := Typed(e, front, history, max);
      PutsAppend(t, TypedBytes(e, front, history, max), KeyBytes(d, keys[n - 1], history, max));
      KeyMirrors(Puts(t, TypedBytes(e, front, history, max)), d, keys[n - 1], history, max);
    }
  }

  lemma NoKeys(e: Edit, history: seq<Text>, max: nat)
    requires InLine(e, max)
    ensures Typed(e, [], history, max) == e && TypedBytes(e, [], history, max) == []
  {
  }

  lemma Behind0(r: Read)
    ensures r.Behind([]) == r
  {
    assert [] + r.keys == r.keys;
  }

  lemma Behind2(r: Read, keys: seq<Key>, k: Key)
    ensures r.Behind([k]).Behind(keys) == r.Behind(keys + [k])
  {
    assert keys + ([k] + r.keys) == keys + [k] + r.keys;
  }

  lemma KeysMore(e: Edit, keys: seq<Key>, k: Key, history: seq<Text>, max: nat)
    requires InLine(e, max)
    ensures Typed(e, keys + [k], history, max) == Pressed(Typed(e, keys, history, max), k, history, max)
    ensures TypedBytes(e, keys + [k], history, max)
         == TypedBytes(e, keys, history, max) + KeyBytes(Typed(e, keys, history, max), k, history, max)
  {
    hide Pressed, KeyBytes;
    assert (keys + [k])[..|keys|] == keys;
  }

  lemma SentMirrors(before: Text, e: Edit, keys: seq<Key>, history: seq<Text>, max: nat)
    requires InLine(e, max) && Mirrors(Puts(Term([], 0), before), e) && LinesPrintable(history)
    requires PrintableKeys(e, keys, history, max)
    ensures Mirrors(Puts(Term([], 0), before + TypedBytes(e, keys, history, max)), Typed(e, keys, history, max))
  {
    hide Mirrors, LinesPrintable, PrintableKeys, Typed, TypedBytes;
    ScreenMirrors(Puts(Term([], 0), before), e, keys, history, max, |keys|);
    assert keys[..|keys|] == keys;
    PutsAppend(Term([], 0), before, TypedBytes(e, keys, history, max));
  }

  // ----- Line after line -----

  /** Completions can be printed. */
  ghost predicate TabPrintable(tab: (Text, nat) -> Text) {
    forall line, pos :: AllPrintable(tab(line, pos))
  }

  ghost predicate CompletesPrintable(keys: seq<Key>) {
    forall n :: 0 <= n < |keys| ==> CompletionPrintable(keys[n])
  }

  ghost predicate CompletionPrintable(k: Key) {
    k.Tab? ==> AllPrintable(k.completion)
  }

  lemma {:induction false} ReadPrintable(input: seq<int>, i: nat, e: Edit, history: seq<Text>,
                                         tab: (Text, nat) -> Text, max: nat)
    requires i <= |input| && InLine(e, max) && TabPrintable(tab)
    ensures CompletesPrintable(ReadKeys(input, i, e, history, tab, max).keys)
    decreases |input| - i
  {
    hide TurnAt, Pressed, AllPrintable;
    if i < |input| {
      var t := TurnAt(input, i);
      match Meaning(t.0, e.line, e.pos, tab) {
        case Skip => ReadPrintable(input, t.1, e, history, tab, max);
        case Return =>
        case Do(k) =>
          PressedInLine(e, k, history, max);
          var d := Pressed(e, k, history, max);
          ReadPrintable(input, t.1, d, history, tab, max);
          assert ReadKeys(input, i, e, history, tab, max).keys == [k] + ReadKeys(input, t.1, d, history, tab, max).keys;
      }
    }
  }

  lemma KeysPrintable(e: Edit, keys: seq<Key>, history: seq<Text>, max: nat)
    requires InLine(e, max) && CompletesPrintable(keys)
    ensures PrintableKeys(e, keys, history, max)
  {
    hide Typed;
    forall i | 0 <= i < |keys|
      ensures PrintableKey(Typed(e, keys[..i], history, max), keys[i], max)
    {
      assert CompletionPrintable(keys[i]);
    }
  }

  lemma KeysMirror(input: seq<int>, i: nat, history: seq<Text>, tab: (Text, nat) -> Text, max: nat)
    requires i <= |input| && max >= 1 && LinesPrintable(history) && TabPrintable(tab)
    ensures var keys := ReadKeys(input, i, EMPTY, history, tab, max).keys;
            Mirrors(Puts(Term([], 0), TypedBytes(EMPTY, keys, history, max)), Typed(EMPTY, keys, history, max))
  {
    var keys := ReadKeys(input, i, EMPTY, history, tab, max).keys;
    assert Mirrors(Term([], 0), EMPTY);
    hide Mirrors, Typed, TypedBytes, ReadKeys, LinesPrintable, PrintableKeys;
    ReadPrintable(input, i, EMPTY, history, tab, max);
    KeysPrintable(EMPTY, keys, history, max);
    ScreenMirrors(Term([], 0), EMPTY, keys, history, max, |keys|);
    assert keys[..|keys|] == keys;
  }

  /** Whatever bytes come from the keyboard, in as many lines as they make, and wherever
      they end: the screen shows exactly the line being typed, with the cursor where the
      editor believes it to be, and every remembered line can be shown again. */
  lemma {:induction false} ReadingMirrors(input: seq<int>, i: nat, history: seq<Text>, tab: (Text, nat) -> Text,
                                          max: nat)
    requires i <= |input| && max >= 1 && LinesPrintable(history) && TabPrintable(tab)
    ensures var r := AllRead(input, i, history, tab, max);
            Mirrors(Puts(Term([], 0), r.bytes), r.edit) && LinesPrintable(r.history)
    decreases |input| - i
  {
    hide Typed, TypedBytes, ReadKeys, LinesPrintable, Remembered, Shows, AllPrintable;
    KeysMirror(input, i, history, tab, max);
    var r := ReadKeys(input, i, EMPTY, history, tab, max);
    if r.done {
      var line := Typed(EMPTY, r.keys, history, max).line;
      RememberedPrintable(history, line);
      ReadingMirrors(input, r.next, Remembered(history, line), tab, max);
    }
  }

  /** A character and a backspace cancel out, wherever the cursor is. */
  lemma BackspaceUndoes(e: Edit, c: u8, history: seq<Text>, max: nat)
    requires InLine(e, max) && Printable(c) && |e.line| < max - 1
    ensures Typed(e, [Char(c), Backspace], history, max) == e
  {
    var one := Inserted(e, c, max);
    assert [Char(c), Backspace][..1] == [Char(c)] && [Char(c)][..0] == [];
    assert Typed(e, [], history, max) == e;
    assert Typed(e, [Char(c)], history, max) == one;
    assert one.line[..e.pos] + one.line[e.pos + 1..] == e.line;
  }

  // ----- The history ring -----

  /** The `n` entries before `head`, newest first. */
  function Newest(ring: seq<Text>, head: nat, n: nat): (h: seq<Text>)
    requires |ring| == HIST_N && head < HIST_N && n <= HIST_N
    ensures |h| == n
  {
    seq(n, k requires 0 <= k < n => ring[(head - (k + 1) + HIST_N) % HIST_N])
  }

  lemma NewestAt(ring: seq<Text>, head: nat, n: nat, k: nat)
    requires |ring| == HIST_N && head < HIST_N && n <= HIST_N && k < n
    ensures Newest(ring, head, n)[k] == ring[(head - (k + 1) + HIST_N) % HIST_N]
  {
  }

  /** At most eight lines are kept. */
  function Kept(h: seq<Text>): seq<Text> {
    if |h| > HIST_N then h[..HIST_N] else h
  }

  lemma RingShift(head: nat, k: nat)
    requires head < HIST_N && 0 < k < HIST_N
    ensures ((head + 1) % HIST_N - (k + 1) + HIST_N) % HIST_N == (head - k + HIST_N) % HIST_N != head
    ensures 0 <= (head - k + HIST_N) % HIST_N < HIST_N
  {
  }

  lemma RingNewest(head: nat)
    requires head < HIST_N
    ensures ((head + 1) % HIST_N - 1 + HIST_N) % HIST_N == head
  {
  }

  lemma Rotated(ring: seq<Text>, head: nat, n: nat, line: Text)
    requires |ring| == HIST_N && head < HIST_N && n <= HIST_N
    ensures Newest(ring[head := line], (head + 1) % HIST_N, if n < HIST_N then n + 1 else n)
         == Kept([line] + Newest(ring, head, n))
  {
    var m := if n < HIST_N then n + 1 else n;
    var a, b := Newest(ring[head := line], (head + 1) % HIST_N, m), Kept([line] + Newest(ring, head, n));
    forall k | 0 <= k < m
      ensures a[k] == b[k]
    {
      RotatedAt(ring, head, n, line, k);
    }
  }

  lemma RotatedAt(ring: seq<Text>, head: nat, n: nat, line: Text, k: nat)
    requires |ring| == HIST_N && head < HIST_N && n <= HIST_N && k < HIST_N && k <= n
    ensures Newest(ring[head := line], (head + 1) % HIST_N, k + 1)[k] == ([line] + Newest(ring, head, n))[k]
  {
    hide Newest;
    NewestAt(ring[head := line], (head + 1) % HIST_N, k + 1, k);
    if k == 0 {
      RingNewest(head);
    } else {
      RingShift(head, k);
      NewestAt(ring, head, n, k - 1);
    }
  }

  // ----- The bytes of the keys -----

  /** What reading from `i` on with the line `e` comes to: the line, where it stops, and
      whether by Enter. */
  function Outcome(input: seq<int>, i: nat, e: Edit, history: seq<Text>, tab: (Text, nat) -> Text, max: nat)
    : (Edit, nat, bool)
    requires i <= |input| && InLine(e, max)
  {
    var r := ReadKeys(input, i, e, history, tab, max);
    (Typed(e, r.keys, history, max), r.next, r.done)
  }

  lemma {:induction false} TypedFirst(e: Edit, k: Key, keys: seq<Key>, history: seq<Text>, max: nat)
    requires InLine(e, max)
    ensures InLine(Pressed(e, k, history, max), max)
    ensures Typed(e, [k] + keys, history, max) == Typed(Pressed(e, k, history, max), keys, history, max)
    decreases |keys|
  {
    hide Pressed;
    PressedInLine(e, k, history, max);
    var all := [k] + keys;
    if keys == [] {
      assert all == [k] && all[..0] == [];
    } else {
      assert all[..|all| - 1] == [k] + keys[..|keys| - 1] && all[|all| - 1] == keys[|keys| - 1];
      TypedFirst(e, k, keys[..|keys| - 1], history, max);
    }
  }

  /** One turn of reading. */
  lemma OneTurn(input: seq<int>, i: nat, e: Edit, history: seq<Text>, tab: (Text, nat) -> Text, max: nat)
    requires i < |input| && InLine(e, max)
    ensures var t := TurnAt(input, i);
            match Meaning(t.0, e.line, e.pos, tab)
            case Skip => Outcome(input, i, e, history, tab, max) == Outcome(input, t.1, e, history, tab, max)
            case Return => Outcome(input, i, e, history, tab, max) == (e, t.1, true)
            case Do(k) => InLine(Pressed(e, k, history, max), max)
                          && Outcome(input, i, e, history, tab, max)
                             == Outcome(input, t.1, Pressed(e, k, history, max), history, tab, max)
  {
    hide Pressed, TurnAt, Meaning;
    var t := TurnAt(input, i);
    match Meaning(t.0, e.line, e.pos, tab) {
      case Skip =>
      case Return =>
      case Do(k) =>
        PressedInLine(e, k, history, max);
        TypedFirst(e, k, ReadKeys(input, t.1, Pressed(e, k, history, max), history, tab, max).keys, history, max);
    }
  }

  /** The input has these bytes at `i`. */
  predicate At(input: seq<int>, i: nat, bytes: seq<int>) {
    i + |bytes| <= |input| && input[i..i + |bytes|] == bytes
  }

  lemma BytesAt(input: seq<int>, i: nat, bytes: seq<int>)
    requires At(input, i, bytes)
    ensures forall k :: 0 <= k < |bytes| ==> input[i + k] == bytes[k]
  {
    forall k | 0 <= k < |bytes|
      ensures input[i + k] == bytes[k]
    {
      assert input[i..i + |bytes|][k] == bytes[k];
    }
  }

  lemma ByteTurn(input: seq<int>, i: nat)
    requires i < |input| && 0 <= input[i] < 0x100 && input[i] != 0x1B
    ensures TurnAt(input, i) == (Byte(input[i]), i + 1)
  {
  }

  /** A byte from 0x20 to 0x7E goes in at the cursor, if the line has room. */
  lemma TypedByte(input: seq<int>, i: nat, e: Edit, history: seq<Text>, tab: (Text, nat) -> Text, max: nat)
    requires i < |input| && InLine(e, max) && 0x20 <= input[i] <= 0x7E
    ensures if |e.line| < max - 1
            then InLine(Edit(e.line[..e.pos] + [input[i]] + e.line[e.pos..], e.pos + 1, e.browse), max)
                 && Outcome(input, i, e, history, tab, max)
                    == Outcome(input, i + 1, Edit(e.line[..e.pos] + [input[i]] + e.line[e.pos..], e.pos + 1, e.browse),
                               history, tab, max)
            else Outcome(input, i, e, history, tab, max) == Outcome(input, i + 1, e, history, tab, max)
  {
    hide Outcome, TurnAt;
    ByteTurn(input, i);
    OneTurn(input, i, e, history, tab, max);
  }

  /** 0x08 and 0x7F take out the character before the cursor. */
  lemma TypedBackspace(input: seq<int>, i: nat, e: Edit, history: seq<Text>, tab: (Text, nat) -> Text, max: nat)
    requires i < |input| && InLine(e, max) && (input[i] == 0x08 || input[i] == 0x7F)
    ensures if e.pos > 0
            then InLine(Edit(e.line[..e.pos - 1] + e.line[e.pos..], e.pos - 1, e.browse), max)
                 && Outcome(input, i, e, history, tab, max)
                    == Outcome(input, i + 1, Edit(e.line[..e.pos - 1] + e.line[e.pos..], e.pos - 1, e.browse),
                               history, tab, max)
            else Outcome(input, i, e, history, tab, max) == Outcome(input, i + 1, e, history, tab, max)
  {
    hide Outcome, TurnAt;
    ByteTurn(input, i);
    OneTurn(input, i, e, history, tab, max);
  }

  /** 0x0D and 0x0A end the line. */
  lemma TypedEnter(input: seq<int>, i: nat, e: Edit, history: seq<Text>, tab: (Text, nat) -> Text, max: nat)
    requires i < |input| && InLine(e, max) && (input[i] == 0x0D || input[i] == 0x0A)
    ensures Outcome(input, i, e, history, tab, max) == (e, i + 1, true)
  {
    hide Outcome, TurnAt;
    ByteTurn(input, i);
    OneTurn(input, i, e, history, tab, max);
  }

  /** The line after an arrow: D and C move the cursor, A and B go through the history. */
  function Arrowed(e: Edit, f: int, history: seq<Text>, max: nat): Edit
    requires InLine(e, max)
  {
    if f == 0x44 then e.(pos := if e.pos > 0 then e.pos - 1 else 0)
    else if f == 0x43 then e.(pos := if e.pos < |e.line| then e.pos + 1 else e.pos)
    else Recalled(e, if f == 0x41 then e.browse + 1 else e.browse - 1, history, max)
  }

  /** ESC [ and one of A to D. */
  lemma TypedArrow(input: seq<int>, i: nat, f: int, e: Edit, history: seq<Text>, tab: (Text, nat) -> Text, max: nat)
    requires InLine(e, max) && e.browse <= |history| && At(input, i, [0x1B, 0x5B, f]) && 0x41 <= f <= 0x44
    ensures InLine(Arrowed(e, f, history, max), max)
    ensures Outcome(input, i, e, history, tab, max)
         == Outcome(input, i + 3, Arrowed(e, f, history, max), history, tab, max)
  {
    hide Outcome, TurnAt, Pressed, Arrowed;
    ArrowTurn(input, i, f);
    ArrowPressed(e, f, history, max);
    OneTurn(input, i, e, history, tab, max);
  }

  lemma ArrowTurn(input: seq<int>, i: nat, f: int)
    requires At(input, i, [0x1B, 0x5B, f]) && 0x41 <= f <= 0x44
    ensures TurnAt(input, i) == (Cursor(f), i + 3)
  {
    BytesAt(input, i, [0x1B, 0x5B, f]);
    assert input[i] == 0x1B && input[i + 1] == 0x5B && input[i + 2] == f;
  }

  lemma ArrowPressed(e: Edit, f: int, history: seq<Text>, max: nat)
    requires InLine(e, max) && e.browse <= |history| && 0x41 <= f <= 0x44
    ensures var k := if f == 0x41 then Up else if f == 0x42 then Down else if f == 0x43 then Right else Left;
            Pressed(e, k, history, max) == Arrowed(e, f, history, max) && InLine(Arrowed(e, f, history, max), max)
  {
  }

  /** The `n`-th line back, if there is one, cut to the buffer, with the cursor behind it; the
      0-th is empty. */
  function Recalled(e: Edit, n: int, history: seq<Text>, max: nat): Edit
    requires InLine(e, max)
  {
    if n < 0 || n > |history| then e
    else if n == 0 then Edit([], 0, 0)
    else
      var line := history[n - 1];
      var cut := if |line| < max then line else line[..max - 1];
      Edit(cut, |cut|, n)
  }
}
