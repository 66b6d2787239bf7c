/** Monotone identifiers: 128-bit values, printed as 26 characters of Crockford base 32. */
module Ulid {
  import opened Wrappers

  const LIMIT: nat := 0x1_0000_0000_0000_0000_0000_0000_0000_0000
  const RANDOM_RANGE: nat := 0x1_0000_0000_0000_0000_0000
  const WIDTH: nat := 26

  type Value = v: nat | v < LIMIT

  const ALPHABET: string := "0123456789ABCDEFGHJKMNPQRSTVWXYZ"

  // ----- Printing -----

  function Capacity(width: nat): nat {
    if width == 0 then 1 else 32 * Capacity(width - 1)
  }

  /** Base 32, most significant character first. */
  function Encode(v: nat, width: nat): (s: string)
    ensures |s| == width
    decreases v, width
  {
    if width == 0 then "" else Encode(v / 32, width - 1) + [ALPHABET[v % 32]]
  }

  /** The order in which strings of one length sort. */
  predicate Less(a: string, b: string)
    requires |a| == |b|
  {
    a != [] && (a[0] < b[0] || (a[0] == b[0] && Less(a[1..], b[1..])))
  }

  lemma AlphabetAscendsByOne(i: nat)
    requires i < 31
    ensures ALPHABET[i] < ALPHABET[i + 1]
  {
  }

  lemma {:induction false} AlphabetAscends(i: nat, j: nat)
    requires i < j < 32
    ensures ALPHABET[i] < ALPHABET[j]
    decreases j
  {
    AlphabetAscendsByOne(j - 1);
    if i < j - 1 {
      AlphabetAscends(i, j - 1);
    }
  }

  lemma {:induction false} LessAppend(a: string, b: string, x: char, y: char)
    requires |a| == |b|
    ensures Less(a + [x], b + [y]) <==> Less(a, b) || (a == b && x < y)
  {
    if a != [] {
      LessAppend(a[1..], b[1..], x, y);
      assert (a + [x])[1..] == a[1..] + [x] && (b + [y])[1..] == b[1..] + [y];
      assert a == b <==> a[0] == b[0] && a[1..] == b[1..] by {
        assert a == [a[0]] + a[1..] && b == [b[0]] + b[1..];
      }
    }
  }

  /** The fixed-width form is injective and sorts as the values do. */
  lemma {:induction false} EncodeKeepsOrder(u: nat, v: nat, width: nat)
    requires u < Capacity(width) && v < Capacity(width)
    ensures Less(Encode(u, width), Encode(v, width)) <==> u < v
    ensures Encode(u, width) == Encode(v, width) <==> u == v
  {
    if width > 0 {
      EncodeKeepsOrder(u / 32, v / 32, width - 1);
      var a, b := Encode(u / 32, width - 1), Encode(v / 32, width - 1);
      LessAppend(a, b, ALPHABET[u % 32], ALPHABET[v % 32]);
      if u % 32 < v % 32 {
        AlphabetAscends(u % 32, v % 32);
      } else if v % 32 < u % 32 {
        AlphabetAscends(v % 32, u % 32);
      }
      AppendInjective(a, b, ALPHABET[u % 32], ALPHABET[v % 32]);
    }
  }

  lemma AppendInjective(a: string, b: string, x: char, y: char)
    requires |a| == |b|
    ensures a + [x] == b + [y] <==> a == b && x == y
  {
    if a + [x] == b + [y] {
      assert a == (a + [x])[..|a|] && b == (b + [y])[..|b|];
      assert x == (a + [x])[|a|] && y == (b + [y])[|b|];
    }
  }

  /** Every 128-bit value fits into 26 characters. */
  lemma ValuesFit()
    ensures Capacity(WIDTH) >= LIMIT
  {
    assert Capacity(5) == 0x200_0000;
    assert Capacity(10) == 0x4_0000_0000_0000;
    assert Capacity(15) == 0x800_0000_0000_0000_0000;
    assert Capacity(20) == 0x10_0000_0000_0000_0000_0000_0000;
    assert Capacity(25) == 0x2000_0000_0000_0000_0000_0000_0000_0000;
  }

  // ----- Issuing -----

  /** The value issued after `last` when the clock and random source offer `candidate`;
      none when the successor of `last` does not fit into 128 bits. */
  function Next(last: Option<Value>, candidate: Value): Option<Value> {
    if last.None? || candidate > last.value then Some(candidate)
    else if last.value + 1 < LIMIT then Some(last.value + 1)
    else None
  }

  function Timestamp(v: Value): nat {
    v / RANDOM_RANGE
  }

  /** The increment carries into the timestamp, giving an identifier from a later
      millisecond than any seen, exactly when the random part of `last` is exhausted. */
  lemma CarriesIntoTimestampExactly(last: Value, candidate: Value)
    requires candidate <= last && last + 1 < LIMIT
    ensures Next(Some(last), candidate) == Some(last + 1)
    ensures Timestamp(last + 1) == Timestamp(last) + (if last % RANDOM_RANGE == RANDOM_RANGE - 1 then 1 else 0)
  {
  }

  class Generator {
    var last: Option<Value>
    ghost var issued: seq<Value>

    ghost predicate Valid()
      reads this
    {
      && (last.None? <==> issued == [])
      && (last.Some? ==> issued[|issued| - 1] == last.value)
      && (forall i, j | 0 <= i < j < |issued| :: issued[i] < issued[j])
    }

    constructor ()
      ensures Valid() && issued == []
    {
      last := None;
      issued := [];
    }

    /** The overflow of the 16-byte conversion is raised before the last value is replaced. */
    method New(candidate: Value) returns (r: Result<string, ()>)
      requires Valid()
      modifies this
      ensures Valid()
      ensures r.Ok? <==> Next(old(last), candidate).Some?
      ensures r.Ok? ==> last == Next(old(last), candidate) && r.value == Encode(last.value, WIDTH) && |r.value| == 26
      ensures old(last).None? || old(last).value < candidate ==> r.Ok? && last == Some(candidate)
      ensures old(last).Some? && candidate <= old(last).value ==>
        && (r.Ok? <==> old(last).value < LIMIT - 1)
        && (r.Ok? ==> last == Some(old(last).value + 1))
      ensures r.Ok? ==> issued == old(issued) + [last.value] && forall v | v in old(issued) :: v < last.value
      ensures r.Err? ==> last == old(last) && issued == old(issued)
    {
      var v := candidate;
      if last.Some? && candidate <= last.value {
        if last.value + 1 == LIMIT {
          return Err(());
        }
        v := last.value + 1;
      }
      last := Some(v);
      issued := issued + [v];
      return Ok(Encode(v, WIDTH));
    }
  }

  /** A larger value prints as a later, hence different, identifier. */
  lemma LargerPrintsLater(u: Value, v: Value)
    requires u < v
    ensures Less(Encode(u, WIDTH), Encode(v, WIDTH)) && Encode(u, WIDTH) != Encode(v, WIDTH)
  {
    ValuesFit();
    EncodeKeepsOrder(u, v, WIDTH);
  }
}
