/**
  The chord route of the recodes server: the request path carries a
  comma-separated list of pitches, which is split on ',' and converted piece
  by piece with Python's int(); every pitch is then played at once. A piece
  int() refuses makes the whole request fail before any note is played.

  A list of integers written in decimal and joined with ',' is read back as
  that list, as long as every entry is within the digit limit int() enforces.
 */
module RecodesRoute {
  import opened Wrappers
  import opened Chords
  import opened Midi

  // ---------------------------------------------------------------------------
  // str.split with a one-character separator, and its inverse

  /** The pieces joined back together, one separator between neighbours. */
  function Join(pieces: seq<string>, sep: char): string {
    if pieces == [] then ""
    else if |pieces| == 1 then pieces[0]
    else pieces[0] + [sep] + Join(pieces[1..], sep)
  }

  /** Python's s.split(sep): the maximal separator-free runs, empty ones included. */
  function Split(s: string, sep: char): (r: seq<string>)
    ensures |r| >= 1
    ensures forall i | 0 <= i < |r| :: sep !in r[i]
    ensures Join(r, sep) == s
    decreases |s|
  {
    if s == [] then [""]
    else
      var rest := Split(s[1..], sep);
      if s[0] == sep then
        assert s == [sep] + s[1..];
        [""] + rest
      else
        var r := [[s[0]] + rest[0]] + rest[1..];
        assert r[1..] == rest[1..];
        assert |rest| > 1 ==> Join(rest, sep) == rest[0] + [sep] + Join(rest[1..], sep);
        assert s == [s[0]] + s[1..];
        r
  }

  lemma {:induction false} SplitNoSep(s: string, sep: char)
    requires sep !in s
    ensures Split(s, sep) == [s]
    decreases |s|
  {
    if s != [] {
      assert sep !in s[1..];
      SplitNoSep(s[1..], sep);
      assert [s[0]] + s[1..] == s;
    }
  }

  /** A separator-free start becomes the first piece, and the rest is split on its own. */
  lemma {:induction false} SplitPrefix(a: string, b: string, sep: char)
    requires sep !in a
    ensures Split(a + [sep] + b, sep) == [a] + Split(b, sep)
    decreases |a|
  {
    var s := a + [sep] + b;
    if a == [] {
      assert s[0] == sep && s[1..] == b;
    } else {
      assert s[0] == a[0];
      assert s[1..] == a[1..] + [sep] + b;
      assert sep !in a[1..];
      SplitPrefix(a[1..], b, sep);
      assert [a[0]] + a[1..] == a;
    }
  }

  /** Splitting undoes joining, for any non-empty list of separator-free pieces. */
  lemma {:induction false} JoinSplit(pieces: seq<string>, sep: char)
    requires |pieces| >= 1
    requires forall i | 0 <= i < |pieces| :: sep !in pieces[i]
    ensures Split(Join(pieces, sep), sep) == pieces
    decreases |pieces|
  {
    if |pieces| == 1 {
      SplitNoSep(pieces[0], sep);
    } else {
      assert sep !in pieces[0];
      JoinSplit(pieces[1..], sep);
      SplitPrefix(pieces[0], Join(pieces[1..], sep), sep);
      assert [pieces[0]] + pieces[1..] == pieces;
    }
  }

  // ---------------------------------------------------------------------------
  // Python's int() on a decimal string

  /**
    The characters int() skips around a literal: among ASCII only tab, line
    feed, vertical tab, form feed, carriage return and space (the four
    information separators U+001C to U+001F are not skipped), and beyond ASCII
    Unicode's spaces and line separators.
   */
  predicate IsSpace(c: char) {
    var n := c as int;
    (9 <= n <= 13) || n == 32 || n == 0x85 || n == 0xA0 || n == 0x1680 ||
    (0x2000 <= n <= 0x200A) || n == 0x2028 || n == 0x2029 || n == 0x202F || n == 0x205F || n == 0x3000
  }

  predicate IsDigit(c: char) {
    '0' <= c <= '9'
  }

  function DigitValue(c: char): (d: nat)
    requires IsDigit(c)
    ensures d < 10
  {
    (c as int) - ('0' as int)
  }

  function DigitChar(d: nat): (c: char)
    requires d < 10
    ensures IsDigit(c) && DigitValue(c) == d
  {
    ('0' as int + d) as char
  }

  predicate AllSpace(s: string) {
    forall i | 0 <= i < |s| :: IsSpace(s[i])
  }

  /** How many whitespace characters s starts with. */
  function LeadingSpaces(s: string): (n: nat)
    ensures n <= |s|
  {
    if s != [] && IsSpace(s[0]) then LeadingSpaces(s[1..]) + 1 else 0
  }

  /** How many whitespace characters s ends with. */
  function TrailingSpaces(s: string): (n: nat)
    ensures n <= |s|
  {
    if s != [] && IsSpace(s[|s| - 1]) then TrailingSpaces(s[..|s| - 1]) + 1 else 0
  }

  /** s with the whitespace at both ends removed (str.strip()). */
  function Strip(s: string): string {
    var i := LeadingSpaces(s);
    var rest := s[i..];
    rest[..|rest| - TrailingSpaces(rest)]
  }

  /** LeadingSpaces counts whitespace only, and all the whitespace before the first other character. */
  lemma {:induction false} LeadingSpacesSpec(s: string)
    ensures var n := LeadingSpaces(s);
      AllSpace(s[..n]) && (n == |s| || !IsSpace(s[n]))
  {
    if s != [] && IsSpace(s[0]) {
      LeadingSpacesSpec(s[1..]);
      var m := LeadingSpaces(s[1..]);
      assert s[..m + 1] == [s[0]] + s[1..][..m];
    }
  }

  /** TrailingSpaces counts whitespace only, and all the whitespace after the last other character. */
  lemma {:induction false} TrailingSpacesSpec(s: string)
    ensures var n := TrailingSpaces(s);
      AllSpace(s[|s| - n..]) && (n == |s| || !IsSpace(s[|s| - n - 1]))
  {
    if s != [] && IsSpace(s[|s| - 1]) {
      var k := |s| - 1;
      TrailingSpacesSpec(s[..k]);
      var m := TrailingSpaces(s[..k]);
      assert s[|s| - (m + 1)..] == s[..k][k - m..] + [s[k]];
    }
  }

  lemma {:induction false} LeadingSpacesAt(s: string, i: nat)
    requires i <= |s| && AllSpace(s[..i]) && (i == |s| || !IsSpace(s[i]))
    ensures LeadingSpaces(s) == i
  {
    if i > 0 {
      assert IsSpace(s[..i][0]);
      assert s[1..][..i - 1] == s[..i][1..];
      LeadingSpacesAt(s[1..], i - 1);
    }
  }

  lemma {:induction false} TrailingSpacesAt(s: string, n: nat)
    requires n <= |s| && AllSpace(s[|s| - n..]) && (n == |s| || !IsSpace(s[|s| - n - 1]))
    ensures TrailingSpaces(s) == n
  {
    if n > 0 {
      var k := |s| - 1;
      assert IsSpace(s[|s| - n..][n - 1]);
      assert s[..k][k - (n - 1)..] == s[|s| - n..][..n - 1];
      TrailingSpacesAt(s[..k], n - 1);
    }
  }

  lemma AllSpaceConcat(p: string, q: string)
    requires AllSpace(p) && AllSpace(q)
    ensures AllSpace(p + q)
  {
    forall k | 0 <= k < |p + q| ensures IsSpace((p + q)[k]) {
      if k >= |p| { assert (p + q)[k] == q[k - |p|]; }
    }
  }

  /**
    What Strip keeps is determined by its ends: whenever s is whitespace, a
    middle that neither starts nor ends with whitespace, and whitespace,
    Strip(s) is that middle.
   */
  lemma StripUnique(p: string, m: string, q: string)
    requires AllSpace(p) && AllSpace(q)
    requires m == [] || (!IsSpace(m[0]) && !IsSpace(m[|m| - 1]))
    ensures Strip(p + m + q) == m
  {
    var x := p + m + q;
    if m == [] {
      assert x == p + q;
      AllSpaceConcat(p, q);
      assert x[..|x|] == x;
      LeadingSpacesAt(x, |x|);
      assert x[|x|..] == [];
    } else {
      assert x[..|p|] == p && x[|p|] == m[0];
      LeadingSpacesAt(x, |p|);
      var rest := x[|p|..];
      assert rest == m + q;
      assert rest[|rest| - |q|..] == q;
      assert rest[|rest| - |q| - 1] == m[|m| - 1];
      TrailingSpacesAt(rest, |q|);
      assert rest[..|m|] == m;
    }
  }

  /**
    The digits of a decimal literal: at least one digit, with single
    underscores allowed between digits and nowhere else.
   */
  predicate DigitGroups(b: string) {
    && |b| > 0
    && IsDigit(b[0]) && IsDigit(b[|b| - 1])
    && (forall i | 0 <= i < |b| :: IsDigit(b[i]) || b[i] == '_')
    && (forall i | 0 <= i < |b| - 1 :: b[i] == '_' ==> IsDigit(b[i + 1]))
  }

  /** The value of a run of digits and underscores, the underscores ignored. */
  function DigitsValue(b: string): nat
    requires forall i | 0 <= i < |b| :: IsDigit(b[i]) || b[i] == '_'
  {
    if b == [] then 0
    else
      var n := |b| - 1;
      if b[n] == '_' then DigitsValue(b[..n]) else DigitsValue(b[..n]) * 10 + DigitValue(b[n])
  }

  /** How many digits a literal may have before int() refuses it (CPython's default int_max_str_digits). */
  const MaxStrDigits: nat := 4300

  /** The digits of a run of digits and underscores, the underscores not counted. */
  function DigitCount(b: string): nat {
    if b == [] then 0
    else DigitCount(b[..|b| - 1]) + (if b[|b| - 1] == '_' then 0 else 1)
  }

  lemma {:induction false} DigitCountAllDigits(b: string)
    requires forall i | 0 <= i < |b| :: IsDigit(b[i])
    ensures DigitCount(b) == |b|
  {
    if b != [] {
      DigitCountAllDigits(b[..|b| - 1]);
    }
  }

  /**
    int(s) for a str s: surrounding whitespace skipped, an optional sign, then
    the digit groups, at most MaxStrDigits digits; anything else is a
    ValueError (None).
   */
  function ParseInt(s: string): Option<int> {
    var t := Strip(s);
    if t == [] then None
    else if t[0] == '+' || t[0] == '-' then
      var b := t[1..];
      if DigitGroups(b) && DigitCount(b) <= MaxStrDigits then
        var v: int := DigitsValue(b);
        Some(if t[0] == '-' then -v else v)
      else None
    else if DigitGroups(t) && DigitCount(t) <= MaxStrDigits then
      Some(DigitsValue(t))
    else None
  }

  /** A natural number in decimal, most significant digit first, without leading zeros. */
  function NatToString(n: nat): (s: string)
    ensures |s| > 0 && forall i | 0 <= i < |s| :: IsDigit(s[i])
  {
    if n < 10 then [DigitChar(n)] else NatToString(n / 10) + [DigitChar(n % 10)]
  }

  /** An integer in decimal: a minus sign for negatives, then its digits. */
  function IntToString(n: int): string {
    if n < 0 then "-" + NatToString(-n) else NatToString(n)
  }

  /** How many digits the decimal rendering of n has, its sign not counted. */
  function DecimalDigits(n: int): nat {
    if n < 0 then |NatToString(-n)| else |NatToString(n)|
  }

  function Pow10(k: nat): nat {
    if k == 0 then 1 else 10 * Pow10(k - 1)
  }

  /** A number has at most k decimal digits exactly when it is below 10^k. */
  lemma {:induction false} NatToStringLength(n: nat, k: nat)
    requires k >= 1
    ensures |NatToString(n)| <= k <==> n < Pow10(k)
  {
    if n >= 10 {
      if k == 1 {
        assert |NatToString(n)| == |NatToString(n / 10)| + 1;
      } else {
        NatToStringLength(n / 10, k - 1);
        assert |NatToString(n)| == |NatToString(n / 10)| + 1;
        assert n / 10 < Pow10(k - 1) <==> n < 10 * Pow10(k - 1);
      }
    } else {
      PowAtLeastTen(k);
    }
  }

  lemma {:induction false} PowAtLeastTen(k: nat)
    requires k >= 1
    ensures Pow10(k) >= 10
  {
    if k > 1 {
      PowAtLeastTen(k - 1);
    }
  }

  lemma {:induction false} NatToStringValue(n: nat)
    ensures DigitGroups(NatToString(n)) && DigitsValue(NatToString(n)) == n
  {
    var s := NatToString(n);
    if n >= 10 {
      NatToStringValue(n / 10);
      assert s[..|s| - 1] == NatToString(n / 10);
    }
  }

  lemma RenderedHasNoComma(n: int)
    ensures ',' !in IntToString(n)
  {
    var s := IntToString(n);
    assert forall k | 0 <= k < |s| :: s[k] == '-' || IsDigit(s[k]);
  }

  /** A rendered integer has nothing for Strip to remove. */
  lemma StripRendered(n: int)
    ensures Strip(IntToString(n)) == IntToString(n)
  {
    var s := IntToString(n);
    assert !IsSpace(s[0]) && !IsSpace(s[|s| - 1]);
    StripUnique("", s, "");
    assert "" + s + "" == s;
  }

  /** int() reads back every integer from its decimal rendering, unless that has more than MaxStrDigits digits. */
  lemma ParseRenderedInt(n: int)
    ensures ParseInt(IntToString(n)) == if DecimalDigits(n) <= MaxStrDigits then Some(n) else None
  {
    StripRendered(n);
    if n < 0 {
      NatToStringValue(-n);
      DigitCountAllDigits(NatToString(-n));
      assert IntToString(n)[1..] == NatToString(-n);
    } else {
      NatToStringValue(n);
      DigitCountAllDigits(NatToString(n));
    }
  }

  /** Where Strip cuts s: whitespace, then what it keeps, then whitespace. */
  lemma StripBounds(s: string) returns (i: nat, j: nat)
    ensures i <= j <= |s| && AllSpace(s[..i]) && AllSpace(s[j..]) && Strip(s) == s[i..j]
    ensures i == j || (!IsSpace(s[i]) && !IsSpace(s[j - 1]))
  {
    i := LeadingSpaces(s);
    LeadingSpacesSpec(s);
    var rest := s[i..];
    TrailingSpacesSpec(rest);
    var e := |rest| - TrailingSpaces(rest);
    j := i + e;
    assert s[j..] == rest[e..];
    assert s[i..j] == rest[..e];
    if i < j {
      assert rest[0] == s[i] && rest[e - 1] == s[j - 1];
    }
  }

  lemma Regroup(a: string, p: string, m: string, q: string, b: string)
    ensures a + (p + m + q) + b == (a + p) + m + (q + b)
  {
  }

  /** Whitespace before and after a piece does not change what int() reads. */
  lemma StripPadded(a: string, s: string, b: string)
    requires AllSpace(a) && AllSpace(b)
    ensures Strip(a + s + b) == Strip(s)
  {
    var i, j := StripBounds(s);
    var p, m, q := s[..i], s[i..j], s[j..];
    assert s == p + m + q;
    Regroup(a, p, m, q, b);
    AllSpaceConcat(a, p);
    AllSpaceConcat(q, b);
    StripUnique(a + p, m, q + b);
  }

  lemma ParsePadded(a: string, s: string, b: string)
    requires AllSpace(a) && AllSpace(b)
    ensures ParseInt(a + s + b) == ParseInt(s)
  {
    StripPadded(a, s, b);
  }

  // ---------------------------------------------------------------------------
  // list(map(int, notes.split(',')))

  /** Every piece converted, or None as soon as one piece is not an integer literal. */
  function ParseAll(pieces: seq<string>): Option<seq<int>> {
    if pieces == [] then Some([])
    else
      match ParseInt(pieces[0])
      case None => None
      case Some(x) =>
        match ParseAll(pieces[1..])
        case None => None
        case Some(xs) => Some([x] + xs)
  }

  /** The conversion succeeds exactly when every piece is an integer literal, and then yields their values in order. */
  lemma {:induction false} ParseAllMeaning(pieces: seq<string>)
    ensures var r := ParseAll(pieces);
      && (r.Some? <==> forall i | 0 <= i < |pieces| :: ParseInt(pieces[i]).Some?)
      && (r.Some? ==> |r.value| == |pieces| && forall i | 0 <= i < |pieces| :: ParseInt(pieces[i]) == Some(r.value[i]))
  {
    if pieces != [] {
      ParseAllMeaning(pieces[1..]);
      assert forall i | 1 <= i < |pieces| :: pieces[1..][i - 1] == pieces[i];
    }
  }

  /** The pitch list of a chord request, or None when the handler raises ValueError. */
  function ParseNotes(notes: string): Option<seq<int>> {
    ParseAll(Split(notes, ','))
  }

  /** A list of integers written out: each in decimal, joined with ','. */
  function RenderNotes(xs: seq<int>): string {
    Join(seq(|xs|, i requires 0 <= i < |xs| => IntToString(xs[i])), ',')
  }

  /**
    A list written in decimal and joined with ',' is read back as exactly
    that list; it is refused when it is empty (the empty string) or when an
    entry has more digits than int() accepts.
   */
  lemma ParseRenderedNotes(xs: seq<int>)
    ensures ParseNotes(RenderNotes(xs)) ==
      if xs != [] && forall i | 0 <= i < |xs| :: DecimalDigits(xs[i]) <= MaxStrDigits then Some(xs) else None
  {
    if xs == [] {
      ParseIntRefusesBlank("");
      return;
    }
    var pieces := seq(|xs|, i requires 0 <= i < |xs| => IntToString(xs[i]));
    forall i | 0 <= i < |pieces|
      ensures ',' !in pieces[i]
      ensures ParseInt(pieces[i]) == if DecimalDigits(xs[i]) <= MaxStrDigits then Some(xs[i]) else None
    {
      ParseRenderedInt(xs[i]);
      RenderedHasNoComma(xs[i]);
    }
    JoinSplit(pieces, ',');
    ParseAllMeaning(pieces);
    var r := ParseAll(pieces);
    if forall i | 0 <= i < |xs| :: DecimalDigits(xs[i]) <= MaxStrDigits {
      assert r.value == xs;
    } else {
      var i :| 0 <= i < |xs| && DecimalDigits(xs[i]) > MaxStrDigits;
      assert ParseInt(pieces[i]).None?;
    }
  }

  /** int() refuses an empty or blank piece. */
  lemma ParseIntRefusesBlank(s: string)
    requires AllSpace(s)
    ensures ParseInt(s) == None
  {
    StripUnique(s, "", "");
    assert s + "" + "" == s;
  }

  /** A character that is not whitespace lies within what Strip keeps. */
  lemma KeptByStrip(s: string, i: nat, j: nat, p: nat)
    requires i <= j <= |s| && AllSpace(s[..i]) && AllSpace(s[j..])
    requires p < |s| && !IsSpace(s[p])
    ensures i <= p < j
  {
  }

  /**
    int() refuses any piece holding a character that is neither whitespace,
    a digit, an underscore nor a sign: a decimal point, a letter, a comma.
   */
  lemma ParseIntRefusesForeign(a: string, c: char, b: string)
    requires !IsSpace(c) && !IsDigit(c) && c != '_' && c != '+' && c != '-'
    ensures ParseInt(a + [c] + b) == None
  {
    var s := a + [c] + b;
    var p := |a|;
    assert s[p] == c;
    var i, j := StripBounds(s);
    KeptByStrip(s, i, j, p);
    var t := Strip(s);
    assert t[p - i] == c;
    if p > i {
      assert t[1..][p - i - 1] == c;
    }
  }

  /** int() refuses two underscores in a row. */
  lemma ParseIntRefusesDoubleUnderscore(a: string, b: string)
    ensures ParseInt(a + "__" + b) == None
  {
    var s := a + "__" + b;
    var p := |a|;
    assert s[p] == '_' && s[p + 1] == '_';
    var i, j := StripBounds(s);
    KeptByStrip(s, i, j, p);
    KeptByStrip(s, i, j, p + 1);
    var t := Strip(s);
    assert t[p - i] == '_' && t[p - i + 1] == '_';
    if p > i {
      assert t[1..][p - i - 1] == '_' && t[1..][p - i] == '_';
    }
  }

  /** The reply of a chord request: the handler's text, or the server error an uncaught ValueError becomes. */
  datatype Reply = Text(body: string) | ServerError

  /**
    play_chord_route: a note-on for every pitch of the request, in request
    order, and "Chord played"; nothing at all if any piece is not an integer.
    No release is ever scheduled for these notes.
   */
  method PlayChordRoute(notes: string) returns (evs: seq<Event>, reply: Reply)
    ensures ParseNotes(notes).None? ==> evs == [] && reply == ServerError
    ensures ParseNotes(notes).Some? ==> evs == NoteOns(ParseNotes(notes).value) && reply == Text("Chord played")
    ensures forall i | 0 <= i < |evs| :: evs[i].NoteOn? && evs[i].velocity == Velocity
  {
    var parsed := ParseNotes(notes);
    if parsed.None? {
      return [], ServerError;
    }
    evs := PlayChord(parsed.value);
    reply := Text("Chord played");
  }
}
