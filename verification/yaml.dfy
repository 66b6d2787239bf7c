/** Loaded YAML values, and the conversions that are made of them. */
module YamlData {
  import opened Wrappers
  import opened Text

  datatype Float = Finite(r: real) | Infinite | NotANumber

  datatype Yaml =
    | YNull
    | YBool(b: bool)
    | YInt(i: int)
    | YFloat(f: Float)
    | YStr(s: string)
    | YList(items: seq<Yaml>)
    | YMap(entries: map<string, Yaml>)

  type Fields = map<string, Yaml>

  // ----- Conversion to an integer -----

  /** Digits with single underscores between them. */
  predicate IsGrouped(s: string) {
    && s != "" && IsDigit(s[0]) && IsDigit(s[|s| - 1])
    && (forall c | c in s :: IsDigit(c) || c == '_')
    && (forall i | 0 <= i < |s| - 1 :: IsDigit(s[i]) || IsDigit(s[i + 1]))
  }

  function Digits(s: string): (d: string)
    ensures forall c | c in d :: IsDigit(c)
  {
    if s == "" then ""
    else Digits(s[..|s| - 1]) + if IsDigit(s[|s| - 1]) then [s[|s| - 1]] else ""
  }

  function IntOfString(s: string): Option<int> {
    var t := Strip(s);
    var signed := t != "" && (t[0] == '-' || t[0] == '+');
    var body := if signed then t[1..] else t;
    if !IsGrouped(body) then None
    else
      var n: int := ParseNat(Digits(body));
      Some(if signed && t[0] == '-' then -n else n)
  }

  /** Toward zero. */
  function Truncate(r: real): int {
    if r >= 0.0 then r.Floor else -((-r).Floor)
  }

  /** An integer, a type or value error, or the overflow error of an infinity. */
  datatype Conversion = Converted(i: int) | Rejected | Overflows

  function IntOf(y: Yaml): Conversion {
    match y
    case YBool(b) => Converted(if b then 1 else 0)
    case YInt(i) => Converted(i)
    case YFloat(f) => (match f case Finite(r) => Converted(Truncate(r)) case Infinite => Overflows case NotANumber => Rejected)
    case YStr(s) => (match IntOfString(s) case Some(i) => Converted(i) case None => Rejected)
    case _ => Rejected
  }

  lemma {:induction false} DigitsOfNumeral(s: string)
    requires forall c | c in s :: IsDigit(c)
    ensures Digits(s) == s
  {
    if s != "" {
      assert s[|s| - 1] in s && forall c | c in s[..|s| - 1] :: c in s;
      DigitsOfNumeral(s[..|s| - 1]);
      assert s == s[..|s| - 1] + [s[|s| - 1]];
    }
  }

  /** White space around a numeral does not matter. */
  lemma BlanksDoNotMatter(before: string, middle: string, after: string)
    requires AllSpace(before) && AllSpace(after) && Trimmed(middle)
    ensures IntOf(YStr(before + middle + after)) == IntOf(YStr(middle))
  {
    StripExactly(before + middle + after, before, middle, after);
    StripTrims(middle);
  }

  /** A printed integer is read back, */
  lemma UnsignedRead(n: nat)
    ensures IntOf(YStr(PrintNat(n))) == Converted(n)
  {
    NumeralRead(PrintNat(n));
    ParsePrinted(n);
  }

  /** also with a sign before it. */
  lemma SignedRead(sign: char, n: nat)
    requires sign == '+' || sign == '-'
    ensures IntOf(YStr([sign] + PrintNat(n))) == Converted(if sign == '-' then 0 - n else n)
  {
    SignedIsTrimmed(sign, PrintNat(n));
    SignedNumeralRead([sign] + PrintNat(n), PrintNat(n));
    ParsePrinted(n);
  }

  lemma NumeralRead(s: string)
    requires IsNumeral(s)
    ensures IntOfString(s) == Some(ParseNat(s))
  {
    NumeralIsGrouped(s);
    StripTrims(s);
    DigitsOfNumeral(s);
  }

  lemma SignedText(t: string)
    requires Trimmed(t) && t != "" && (t[0] == '+' || t[0] == '-') && IsGrouped(t[1..])
    ensures IntOfString(t) == Some(if t[0] == '-' then 0 - ParseNat(Digits(t[1..])) else ParseNat(Digits(t[1..])))
  {
    StripTrims(t);
  }

  lemma SignedNumeralRead(t: string, s: string)
    requires Trimmed(t) && t != "" && (t[0] == '+' || t[0] == '-') && t[1..] == s && IsNumeral(s)
    ensures IntOfString(t) == Some(if t[0] == '-' then 0 - ParseNat(s) else ParseNat(s))
  {
    NumeralIsGrouped(s);
    DigitsOfNumeral(s);
    SignedText(t);
  }

  lemma NumeralIsGrouped(s: string)
    requires IsNumeral(s)
    ensures IsGrouped(s) && Trimmed(s) && s[0] != '-' && s[0] != '+'
  {
    assert s[0] in s && s[|s| - 1] in s && forall i | 0 <= i < |s| :: s[i] in s;
  }

  lemma SignedIsTrimmed(sign: char, s: string)
    requires (sign == '+' || sign == '-') && IsNumeral(s)
    ensures Trimmed([sign] + s) && ([sign] + s)[1..] == s
  {
    assert ([sign] + s)[|s|] == s[|s| - 1] && s[|s| - 1] in s;
  }

  /** Integers and truth values are what they are, floats are cut toward zero, and nothing but
      these and strings converts. */
  lemma IntOfIs(y: Yaml)
    ensures y.YInt? ==> IntOf(y) == Converted(y.i)
    ensures y.YBool? ==> IntOf(y) == Converted(if y.b then 1 else 0)
    ensures y == YFloat(Infinite) <==> IntOf(y) == Overflows
    ensures y.YNull? || y.YList? || y.YMap? || y == YFloat(NotANumber) ==> IntOf(y) == Rejected
    ensures y.YFloat? && y.f.Finite? ==>
      && IntOf(y).Converted?
      && var i := IntOf(y).i as real;
      if y.f.r >= 0.0 then 0.0 <= i <= y.f.r < i + 1.0 else i - 1.0 < y.f.r <= i <= 0.0
  {
  }

  // ----- Fields of a mapping -----

  predicate IsText(y: Yaml) {
    y.YStr? && Strip(y.s) != ""
  }

  predicate AllText(items: seq<Yaml>) {
    forall i | 0 <= i < |items| :: IsText(items[i])
  }

  function TextOf(y: Yaml): string
    requires IsText(y)
  {
    Strip(y.s)
  }

  function Lookup(raw: Fields, key: string): Yaml {
    if key in raw then raw[key] else YNull
  }

  function WithDefault(raw: Fields, key: string, default: Yaml): Yaml {
    if key in raw then raw[key] else default
  }
}
