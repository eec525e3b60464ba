/** How fs/fat32.c compares and stores spellings, byte by byte: the letters 0x61 to 0x7A
    count as 0x41 to 0x5A in every lookup, and short names hold only the latter. */
module FatSpelling {
  import opened Basics
  import opened Words
  import opened FatLfn
  import opened FatDir

  /** The same letter, small and capital. */
  predicate SmallAndCapital(c: u8, d: u8) {
    0x61 <= c <= 0x7A && d == c - 0x20
  }

  predicate Alike(c: u8, d: u8) {
    c == d || SmallAndCapital(c, d) || SmallAndCapital(d, c)
  }

  /** The names differ at most in which letters are capitals. */
  predicate SpelledAlike(w: Name, x: Name) {
    |w| == |x| && forall i :: 0 <= i < |w| ==> Alike(w[i], x[i])
  }

  lemma SpellingIs(w: Name, x: Name)
    ensures SameName(w, x) <==> SpelledAlike(w, x)
  {
    if SameName(w, x) {
      forall i | 0 <= i < |w|
        ensures Alike(w[i], x[i])
      {
        assert Up(w[i]) == Up(x[i]);
      }
    }
    if SpelledAlike(w, x) {
      forall i | 0 <= i < |w|
        ensures Up(w[i]) == Up(x[i])
      {
        assert Alike(w[i], x[i]);
      }
    }
  }

  /** A lookup finds the same under names spelled alike ... */
  lemma {:induction false} FoundInAnySpelling(items: seq<Item>, w: Name, x: Name)
    requires SpelledAlike(w, x)
    ensures Find(items, w) == Find(items, x)
    decreases |items|
  {
    if items != [] {
      AnsweredAlike(items[0], w, x);
      FoundInAnySpelling(items[1..], w, x);
    }
  }

  lemma AnsweredAlike(it: Item, w: Name, x: Name)
    requires SpelledAlike(w, x)
    ensures Matches(it, w) <==> Matches(it, x)
  {
    AnswersExactly(it, w);
    AnswersExactly(it, x);
    Transitive(w, x, it.long);
    Transitive(x, w, it.long);
    Transitive(w, x, FormatName(it.raw));
    Transitive(x, w, FormatName(it.raw));
  }

  lemma Transitive(w: Name, x: Name, y: Name)
    requires SpelledAlike(w, x) || SpelledAlike(x, w)
    ensures SpelledAlike(w, y) <==> SpelledAlike(x, y)
  {
    SpellingIs(w, x);
    SpellingIs(x, w);
    SpellingIs(w, y);
    SpellingIs(x, y);
  }

  /** ... and an entry answers to the spellings of its two names, and to nothing else. */
  lemma AnswersExactly(it: Item, w: Name)
    ensures Matches(it, w) <==> (it.long != [] && SpelledAlike(w, it.long)) || SpelledAlike(w, FormatName(it.raw))
  {
    SpellingIs(w, it.long);
    SpellingIs(w, FormatName(it.raw));
  }

  /** So what a lookup finds is the first entry with a name spelled like the one looked for. */
  lemma {:induction false} FindsFirst(items: seq<Item>, w: Name)
    ensures FirstNamed(items, w, Find(items, w))
    decreases |items|
  {
    if items != [] {
      AnswersExactly(items[0], w);
      FindsFirst(items[1..], w);
      if !Answers(items[0], w) {
        Behind(items, w);
      }
    }
  }

  ghost predicate FirstNamed(items: seq<Item>, w: Name, found: Option<Item>) {
    match found
    case None => forall k :: 0 <= k < |items| ==> !Answers(items[k], w)
    case Some(it) => exists k :: 0 <= k < |items| && items[k] == it && Answers(it, w)
                                 && forall j :: 0 <= j < k ==> !Answers(items[j], w)
  }

  predicate Answers(it: Item, w: Name) {
    (it.long != [] && SpelledAlike(w, it.long)) || SpelledAlike(w, FormatName(it.raw))
  }

  lemma Behind(items: seq<Item>, w: Name)
    requires items != [] && !Answers(items[0], w)
    ensures forall j :: 0 <= j < |items| && Answers(items[j], w) ==> j > 0 && items[j] == items[1..][j - 1]
    ensures forall k :: 0 <= k < |items| - 1 ==> items[1..][k] == items[k + 1]
  {
  }

  // ----- 8.3 names -----

  /** No short name that is stored has a small letter. */
  lemma StoredInCapitals(name: Name, i: nat)
    requires i < 11
    ensures !(0x61 <= ParseName(name)[i] <= 0x7A)
  {
  }

  /** A part of a short name: neither dots nor spaces. */
  predicate Plain(s: Name) {
    forall i :: 0 <= i < |s| ==> s[i] != DOT && s[i] != SPACE
  }

  lemma {:induction false} UntilAll(s: Name, rest: Name, stop: u8, max: nat)
    requires |s| <= max && (forall i :: 0 <= i < |s| ==> s[i] != stop)
    requires |s| == max || (rest != [] && rest[0] == stop) || rest == []
    ensures Until(s + rest, stop, max) == s
    decreases |s|
  {
    if s == [] {
      assert s + rest == rest;
    } else {
      assert (s + rest)[1..] == s[1..] + rest;
      UntilAll(s[1..], rest, stop, max - 1);
    }
  }

  lemma {:induction false} DotFound(base: Name, ext: Name)
    requires forall i :: 0 <= i < |base| ==> base[i] != DOT
    ensures AfterDot(base + [DOT] + ext) == ext
    decreases |base|
  {
    var s := base + [DOT] + ext;
    if base == [] {
      assert s[1..] == ext;
    } else {
      assert s[1..] == base[1..] + [DOT] + ext;
      DotFound(base[1..], ext);
    }
  }

  /** A name of at most eight characters, a dot and one to three more: the short name is
      these in capitals, filled up with spaces, and listed it is spelled like the name. */
  lemma ShortNameIs(base: Name, ext: Name)
    requires 1 <= |base| <= 8 && 1 <= |ext| <= 3 && Plain(base) && Plain(ext)
    ensures var raw := ParseName(base + [DOT] + ext);
            && (forall i :: 0 <= i < 8 ==> if i < |base| then Alike(base[i], raw[i]) else raw[i] == SPACE)
            && (forall i :: 0 <= i < 3 ==> if i < |ext| then Alike(ext[i], raw[8 + i]) else raw[8 + i] == SPACE)
            && SpelledAlike(FormatName(raw), base + [DOT] + ext)
  {
    hide ParseName, FormatName, Alike, Upper, Padded, SpelledAlike;
    Parsed(base, ext);
    CapitalsPlain(base);
    CapitalsPlain(ext);
    Listed(Upper(base), Upper(ext));
    Filled(base, 8);
    Filled(ext, 3);
    SpelledInCapitals(base, ext);
  }

  /** A part of a short name in capitals, filled with spaces. */
  lemma Filled(s: Name, n: nat)
    requires |s| <= n && Plain(s)
    ensures forall i :: 0 <= i < n ==>
              if i < |s| then Alike(s[i], Padded(Upper(s), n)[i]) else Padded(Upper(s), n)[i] == SPACE
  {
    CapitalsPlain(s);
    hide Alike, Upper;
  }

  lemma SpelledInCapitals(base: Name, ext: Name)
    requires Plain(base) && Plain(ext)
    ensures SpelledAlike(Upper(base) + [DOT] + Upper(ext), base + [DOT] + ext)
  {
    CapitalsPlain(base);
    CapitalsPlain(ext);
    hide Upper;
  }

  lemma Parsed(base: Name, ext: Name)
    requires 1 <= |base| <= 8 && 1 <= |ext| <= 3 && Plain(base)
    ensures ParseName(base + [DOT] + ext) == Padded(Upper(base), 8) + Padded(Upper(ext), 3)
  {
    hide Up, Upper, Until, AfterDot;
    assert base + [DOT] + ext == base + ([DOT] + ext);
    UntilAll(base, [DOT] + ext, DOT, 8);
    DotFound(base, ext);
  }

  /** What fmt_name makes of a padded base and extension. */
  lemma Listed(base: Name, ext: Name)
    requires 1 <= |base| <= 8 && 1 <= |ext| <= 3 && Plain(base) && Plain(ext)
    ensures FormatName(Padded(base, 8) + Padded(ext, 3)) == base + [DOT] + ext
  {
    hide Until;
    var raw := Padded(base, 8) + Padded(ext, 3);
    assert raw[..8] == base + Spaces(8 - |base|) && raw[8..] == ext + Spaces(3 - |ext|);
    UntilAll(base, Spaces(8 - |base|), SPACE, 8);
    UntilAll(ext, Spaces(3 - |ext|), SPACE, 3);
    assert raw[8] == ext[0];
    assert base + ([DOT] + ext) == base + [DOT] + ext;
  }

  function Spaces(n: nat): (s: Name)
    ensures |s| == n
  {
    seq(n, i => SPACE)
  }

  lemma CapitalsPlain(s: Name)
    requires Plain(s)
    ensures Plain(Upper(s)) && forall i :: 0 <= i < |s| ==> Alike(s[i], Upper(s)[i])
  {
  }
}
