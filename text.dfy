/**
 * The .NET string operations the settings store and the Visual Studio
 * service are built on: `string.Join`, `string.Split` with
 * `StringSplitOptions.RemoveEmptyEntries`, `int.ToString()` and
 * `Convert.ToInt32(string)`, together with the round trips between them.
 */
module Text {
  import opened Wrappers

  /** No character of `sep` occurs in `s`. */
  predicate FreeOf(s: string, sep: string) {
    forall c :: c in s ==> c !in sep
  }

  /** The number of characters in all of `parts` together. */
  function TotalLength(parts: seq<string>): nat {
    if parts == [] then 0 else |parts[0]| + TotalLength(parts[1..])
  }

  /** `string.Join(sep, parts)`: the parts with `sep` between neighbours. */
  function Join(sep: string, parts: seq<string>): (r: string)
    ensures |parts| >= 1 ==> |r| == TotalLength(parts) + (|parts| - 1) * |sep|
    ensures |parts| >= 1 ==> r[..|parts[0]|] == parts[0]
  {
    if |parts| == 0 then ""
    else if |parts| == 1 then parts[0]
    else parts[0] + sep + Join(sep, parts[1..])
  }

  /**
   * `s.Split(new[] { sep }, StringSplitOptions.None)`: scanning left to right,
   * every occurrence of `sep` that does not overlap an earlier one cuts `s`.
   * Gluing the pieces back together with `sep` gives `s` again.
   */
  function Pieces(s: string, sep: string): (r: seq<string>)
    requires |sep| > 0
    ensures |r| >= 1
    ensures Join(sep, r) == s
    decreases |s|
  {
    if |s| < |sep| then [s]
    else if s[..|sep|] == sep then
      var rest := Pieces(s[|sep|..], sep);
      assert s == sep + s[|sep|..];
      [""] + rest
    else
      var rest := Pieces(s[1..], sep);
      assert s == [s[0]] + s[1..];
      JoinConsHead(sep, s[0], rest);
      [[s[0]] + rest[0]] + rest[1..]
  }

  /** Prepending a character to the first part prepends it to the joined text. */
  lemma JoinConsHead(sep: string, c: char, parts: seq<string>)
    requires |parts| >= 1
    ensures Join(sep, [[c] + parts[0]] + parts[1..]) == [c] + Join(sep, parts)
  {
    var q := [[c] + parts[0]] + parts[1..];
    if |parts| > 1 {
      assert q[1..] == parts[1..];
    }
  }

  /**
   * The entries of `parts` that are not empty, in their order: a single entry
   * is kept exactly when it is not empty, and `NonEmptyAppend` shows that the
   * filter works entry by entry.
   */
  function NonEmpty(parts: seq<string>): (r: seq<string>)
    ensures forall k :: 0 <= k < |r| ==> r[k] != ""
    ensures forall x :: x in r <==> x in parts && x != ""
    ensures |r| <= |parts|
    ensures |parts| == 1 ==> r == if parts[0] == "" then [] else parts
  {
    if parts == [] then []
    else if parts[0] == "" then NonEmpty(parts[1..])
    else [parts[0]] + NonEmpty(parts[1..])
  }

  /** Filtering a concatenation filters each half and concatenates the results. */
  lemma {:induction false} NonEmptyAppend(a: seq<string>, b: seq<string>)
    ensures NonEmpty(a + b) == NonEmpty(a) + NonEmpty(b)
  {
    if a == [] {
      assert a + b == b;
    } else {
      var ab := a + b;
      assert ab[0] == a[0] && ab[1..] == a[1..] + b;
      NonEmptyAppend(a[1..], b);
      if a[0] == "" {
        calc {
          NonEmpty(ab);
          NonEmpty(a[1..] + b);
          NonEmpty(a[1..]) + NonEmpty(b);
          NonEmpty(a) + NonEmpty(b);
        }
      } else {
        calc {
          NonEmpty(ab);
          [a[0]] + NonEmpty(a[1..] + b);
          [a[0]] + (NonEmpty(a[1..]) + NonEmpty(b));
          ([a[0]] + NonEmpty(a[1..])) + NonEmpty(b);
          NonEmpty(a) + NonEmpty(b);
        }
      }
    }
  }

  /** A list without empty entries is its own filter. */
  lemma {:induction false} NonEmptyOfFilled(parts: seq<string>)
    requires forall k :: 0 <= k < |parts| ==> parts[k] != ""
    ensures NonEmpty(parts) == parts
  {
    if parts != [] {
      NonEmptyOfFilled(parts[1..]);
      assert [parts[0]] + parts[1..] == parts;
    }
  }

  /**
   * `s.Split(new[] { sep }, StringSplitOptions.RemoveEmptyEntries)`. .NET
   * skips an empty element of the separator array, so with `sep == ""`
   * nothing is cut: the whole text is the one entry, none when it is empty.
   */
  function Split(s: string, sep: string): (r: seq<string>)
    ensures forall k :: 0 <= k < |r| ==> r[k] != ""
    ensures s == "" ==> r == []
    ensures sep == "" ==> r == if s == "" then [] else [s]
  {
    if sep == "" then NonEmpty([s]) else NonEmpty(Pieces(s, sep))
  }

  /** A text free of separator characters is one piece. */
  lemma {:induction false} PiecesOfFree(x: string, sep: string)
    requires |sep| > 0 && FreeOf(x, sep)
    ensures Pieces(x, sep) == [x]
    decreases |x|
  {
    if |x| >= |sep| {
      assert x[0] in x && sep[0] in sep;
      assert x[..|sep|] != sep by { assert x[..|sep|][0] == x[0]; }
      PiecesOfFree(x[1..], sep);
    }
  }

  /** A separator-free text followed by the separator is cut exactly there. */
  lemma {:induction false} PiecesAfterFree(x: string, t: string, sep: string)
    requires |sep| > 0 && FreeOf(x, sep)
    ensures Pieces(x + sep + t, sep) == [x] + Pieces(t, sep)
    decreases |x|
  {
    var s := x + sep + t;
    if x == [] {
      assert s == sep + t;
      assert s[..|sep|] == sep;
      assert s[|sep|..] == t;
    } else {
      assert x[0] in x && sep[0] in sep;
      assert s[..|sep|] != sep by { assert s[..|sep|][0] == x[0]; }
      assert s[1..] == x[1..] + sep + t;
      PiecesAfterFree(x[1..], t, sep);
      assert [x[0]] + x[1..] == x;
    }
  }

  /** Cutting a join of separator-free parts gives the parts back. */
  lemma {:induction false} PiecesOfJoin(parts: seq<string>, sep: string)
    requires |sep| > 0 && |parts| >= 1
    requires forall k :: 0 <= k < |parts| ==> FreeOf(parts[k], sep)
    ensures Pieces(Join(sep, parts), sep) == parts
  {
    if |parts| == 1 {
      PiecesOfFree(parts[0], sep);
    } else {
      PiecesOfJoin(parts[1..], sep);
      PiecesAfterFree(parts[0], Join(sep, parts[1..]), sep);
      assert [parts[0]] + parts[1..] == parts;
    }
  }

  /**
   * The round trip of a stored list: joining with `sep` and splitting with
   * empty entries removed gives the list without its empty entries, provided
   * no entry contains a character of the separator.
   */
  lemma SplitJoin(parts: seq<string>, sep: string)
    requires |sep| > 0
    requires forall k :: 0 <= k < |parts| ==> FreeOf(parts[k], sep)
    ensures Split(Join(sep, parts), sep) == NonEmpty(parts)
  {
    if parts != [] {
      PiecesOfJoin(parts, sep);
    }
  }

  // ---------------------------------------------------------------------
  // Decimal integers

  predicate IsDigit(c: char) { '0' <= c <= '9' }

  predicate AllDigits(s: string) { forall k :: 0 <= k < |s| ==> IsDigit(s[k]) }

  function DigitChar(d: nat): (c: char)
    requires d < 10
    ensures IsDigit(c) && c as int - '0' as int == d
  {
    ('0' as int + d) as char
  }

  /** The decimal digits of `n`, most significant first, without leading zeros. */
  function NatToDecimal(n: nat): (r: string)
    ensures |r| >= 1 && AllDigits(r)
    ensures |r| > 1 ==> r[0] != '0'
  {
    if n < 10 then [DigitChar(n)] else NatToDecimal(n / 10) + [DigitChar(n % 10)]
  }

  /** The value of a string of decimal digits. */
  function DecimalToNat(s: string): nat
    requires AllDigits(s)
  {
    if s == [] then 0
    else DecimalToNat(s[..|s| - 1]) * 10 + (s[|s| - 1] as int - '0' as int)
  }

  lemma {:induction false} DecimalRoundTrip(n: nat)
    ensures DecimalToNat(NatToDecimal(n)) == n
  {
    if n >= 10 {
      DecimalRoundTrip(n / 10);
      var s := NatToDecimal(n);
      assert s[..|s| - 1] == NatToDecimal(n / 10);
    }
  }

  /** The range of the source's 32-bit `int`. */
  predicate IsInt32(n: int) { -0x8000_0000 <= n < 0x8000_0000 }

  /** `n.ToString()`: an optional '-' and the digits without leading zeros. */
  function IntToString(n: int): (r: string)
    ensures |r| >= 1 && (r[0] == '-' <==> n < 0)
    ensures n >= 0 ==> AllDigits(r)
    ensures n < 0 ==> AllDigits(r[1..])
  {
    if n < 0 then "-" + NatToDecimal(-n) else NatToDecimal(n)
  }

  /**
   * `Convert.ToInt32(s)` for a string of digits with an optional leading '-';
   * `None` stands for the FormatException or OverflowException it throws.
   */
  function ParseInt32(s: string): (r: Option<int>)
    ensures r.Some? ==> IsInt32(r.value)
    ensures r.Some? ==> |s| >= 1
  {
    if |s| >= 2 && s[0] == '-' && AllDigits(s[1..]) then
      var v := 0 - DecimalToNat(s[1..]) as int;
      if IsInt32(v) then Some(v) else None
    else if |s| >= 1 && AllDigits(s) then
      var v := DecimalToNat(s);
      if IsInt32(v) then Some(v) else None
    else None
  }

  /** Parsing what `ToString` printed gives the same 32-bit integer back. */
  lemma IntRoundTrip(n: int)
    requires IsInt32(n)
    ensures ParseInt32(IntToString(n)) == Some(n)
  {
    if n < 0 {
      NegativeRoundTrip(n);
    } else {
      NonNegativeRoundTrip(n);
    }
  }

  lemma NegativeRoundTrip(n: int)
    requires IsInt32(n) && n < 0
    ensures ParseInt32(IntToString(n)) == Some(n)
  {
    var digits := NatToDecimal(-n);
    DecimalRoundTrip(-n);
    var s := "-" + digits;
    assert IntToString(n) == s;
    assert s[1..] == digits;
    assert |s| >= 2 && s[0] == '-' && AllDigits(s[1..]);
  }

  lemma NonNegativeRoundTrip(n: nat)
    requires IsInt32(n)
    ensures ParseInt32(IntToString(n)) == Some(n)
  {
    var digits := NatToDecimal(n);
    DecimalRoundTrip(n);
    assert IntToString(n) == digits;
    assert IsDigit(digits[0]);
  }
}
