/** Stripping of text at its ends, and decimal numerals. */
module Text {

  /** The characters that count as white space. */
  predicate IsSpace(c: char) {
    var n := c as int;
    || 0x09 <= n <= 0x0d || 0x1c <= n <= 0x20 || n == 0x85 || n == 0xa0 || n == 0x1680
    || 0x2000 <= n <= 0x200a || n == 0x2028 || n == 0x2029 || n == 0x202f || n == 0x205f || n == 0x3000
  }

  /** The white space of ASCII: blank, tab, line feed, carriage return and six more controls. */
  lemma SpacesAre(c: char)
    requires c as int < 0x80
    ensures IsSpace(c) <==> c in {' ', '\t', '\n', '\r'} || c as int in {0x0b, 0x0c, 0x1c, 0x1d, 0x1e, 0x1f}
  {
  }

  function DropTrailing(s: string, drop: char -> bool): string {
    if s != "" && drop(s[|s| - 1]) then DropTrailing(s[..|s| - 1], drop) else s
  }

  function DropLeading(s: string, drop: char -> bool): string {
    if s != "" && drop(s[0]) then DropLeading(s[1..], drop) else s
  }

  function Strip(s: string): string {
    DropTrailing(DropLeading(s, IsSpace), IsSpace)
  }

  /** No white space at either end. */
  predicate Trimmed(s: string) {
    s != "" ==> !IsSpace(s[0]) && !IsSpace(s[|s| - 1])
  }

  lemma {:induction false} DropTrailingIs(s: string, drop: char -> bool)
    ensures var r := DropTrailing(s, drop); r <= s && (r != "" ==> !drop(r[|r| - 1]))
  {
    if s != "" && drop(s[|s| - 1]) {
      DropTrailingIs(s[..|s| - 1], drop);
    }
  }

  lemma {:induction false} DropLeadingIs(s: string, drop: char -> bool)
    ensures var r := DropLeading(s, drop); r != "" ==> !drop(r[0])
  {
    if s != "" && drop(s[0]) {
      DropLeadingIs(s[1..], drop);
    }
  }

  /** Stripping removes white space at the ends, and nothing else. */
  lemma StripIs(s: string) returns (before: string, after: string)
    ensures s == before + Strip(s) + after && AllSpace(before) && AllSpace(after) && Trimmed(Strip(s))
  {
    var l := DropLeading(s, IsSpace);
    before := DroppedLeading(s, IsSpace);
    after := DroppedTrailing(l, IsSpace);
    assert before + (Strip(s) + after) == before + Strip(s) + after;
    StripTrims(s);
  }

  predicate AllSpace(s: string) {
    forall c | c in s :: IsSpace(c)
  }

  lemma {:induction false} DroppedTrailing(s: string, drop: char -> bool) returns (tail: string)
    ensures s == DropTrailing(s, drop) + tail && forall c | c in tail :: drop(c)
  {
    tail := "";
    if s != "" && drop(s[|s| - 1]) {
      var t := DroppedTrailing(s[..|s| - 1], drop);
      tail := t + [s[|s| - 1]];
      assert s == s[..|s| - 1] + [s[|s| - 1]];
    }
  }

  lemma {:induction false} DroppedLeading(s: string, drop: char -> bool) returns (head: string)
    ensures s == head + DropLeading(s, drop) && forall c | c in head :: drop(c)
  {
    head := "";
    if s != "" && drop(s[0]) {
      var t := DroppedLeading(s[1..], drop);
      head := [s[0]] + t;
      assert s == [s[0]] + s[1..];
    }
  }

  /** Only one part of a text is trimmed and has nothing but white space around it. */
  lemma StripExactly(s: string, before: string, middle: string, after: string)
    requires s == before + middle + after && AllSpace(before) && AllSpace(after) && Trimmed(middle)
    ensures Strip(s) == middle
  {
    DropLeadingBlanks(before, middle + after);
    assert s == before + (middle + after);
    if middle == "" {
      assert middle + after == after && after + "" == after;
      DropLeadingBlanks(after, "");
    } else {
      assert (middle + after)[0] == middle[0];
      DropTrailingBlanks(middle, after);
    }
  }

  lemma {:induction false} DropLeadingBlanks(blanks: string, s: string)
    requires AllSpace(blanks)
    ensures DropLeading(blanks + s, IsSpace) == DropLeading(s, IsSpace)
  {
    if blanks == "" {
      assert blanks + s == s;
    } else {
      assert (blanks + s)[1..] == blanks[1..] + s;
      DropLeadingBlanks(blanks[1..], s);
    }
  }

  lemma {:induction false} DropTrailingBlanks(s: string, blanks: string)
    requires AllSpace(blanks)
    ensures DropTrailing(s + blanks, IsSpace) == DropTrailing(s, IsSpace)
  {
    if blanks == "" {
      assert s + blanks == s;
    } else {
      var n := |blanks| - 1;
      assert (s + blanks)[..|s + blanks| - 1] == s + blanks[..n];
      DropTrailingBlanks(s, blanks[..n]);
    }
  }

  lemma StripTrims(s: string)
    ensures Trimmed(Strip(s)) && (Trimmed(s) ==> Strip(s) == s)
  {
    var l := DropLeading(s, IsSpace);
    DropLeadingIs(s, IsSpace);
    DropTrailingIs(l, IsSpace);
  }

  lemma StripTwice(s: string)
    ensures Strip(Strip(s)) == Strip(s)
  {
    StripTrims(s);
    StripTrims(Strip(s));
  }

  // ----- Numerals -----

  predicate IsDigit(c: char) {
    '0' <= c <= '9'
  }

  predicate IsNumeral(s: string) {
    s != "" && forall c | c in s :: IsDigit(c)
  }

  function ParseNat(s: string): nat
    requires forall c | c in s :: IsDigit(c)
  {
    if s == "" then 0
    else
      assert IsDigit(s[|s| - 1]);
      10 * ParseNat(s[..|s| - 1]) + (s[|s| - 1] as int - '0' as int)
  }

  /** Decimal: each further digit counts for one and shifts the others by ten. */
  lemma ParseNatPush(s: string, c: char)
    requires (forall d | d in s :: IsDigit(d)) && c in "0123456789"
    ensures ParseNat("") == 0
    ensures IsNumeral(s + [c]) && exists k | 0 <= k < 10 :: "0123456789"[k] == c && ParseNat(s + [c]) == 10 * ParseNat(s) + k
  {
    assert (s + [c])[..|s|] == s;
    var k :| 0 <= k < 10 && "0123456789"[k] == c;
    assert c as int - '0' as int == k;
  }

  function PrintNat(n: nat): (s: string)
    ensures IsNumeral(s)
  {
    var last := [(n % 10) as char + '0'];
    if n < 10 then last else PrintNat(n / 10) + last
  }

  lemma {:induction false} ParsePrinted(n: nat)
    ensures ParseNat(PrintNat(n)) == n
  {
    if n >= 10 {
      ParsePrinted(n / 10);
      var s := PrintNat(n);
      assert s[..|s| - 1] == PrintNat(n / 10);
    }
  }
}
