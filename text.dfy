/**
 * The java.lang.String and Integer operations the pattern parser uses, on `seq<char>`:
 * trim(), split(String.valueOf(c)) for a one-character separator, String.join,
 * toUpperCase() and Integer.parseInt.
 */
module Text {
  import opened Wrappers

  // ---------------------------------------------------------------------------
  // trim(): drop leading and trailing characters at or below U+0020

  function TrimStart(s: string): (r: string)
    ensures |r| <= |s| && r == s[|s| - |r|..]
    ensures r == [] || r[0] > ' '
  {
    if |s| > 0 && s[0] <= ' ' then TrimStart(s[1..]) else s
  }

  /** Only characters at or below a space are dropped from the front. */
  lemma {:induction false} TrimStartDrops(s: string)
    ensures forall i :: 0 <= i < |s| - |TrimStart(s)| ==> s[i] <= ' '
    decreases |s|
  {
    if |s| > 0 && s[0] <= ' ' {
      TrimStartDrops(s[1..]);
      assert forall i :: 1 <= i < |s| ==> s[1..][i - 1] == s[i];
    }
  }

  function TrimEnd(s: string): (r: string)
    ensures |r| <= |s| && r == s[..|r|]
    ensures r == [] || r[|r| - 1] > ' '
  {
    if |s| > 0 && s[|s| - 1] <= ' ' then TrimEnd(s[..|s| - 1]) else s
  }

  /** Only characters at or below a space are dropped from the back. */
  lemma {:induction false} TrimEndDrops(s: string)
    ensures forall i :: |TrimEnd(s)| <= i < |s| ==> s[i] <= ' '
    decreases |s|
  {
    if |s| > 0 && s[|s| - 1] <= ' ' {
      TrimEndDrops(s[..|s| - 1]);
    }
  }

  /** String.trim(). */
  function Trim(s: string): (r: string)
    ensures r == [] || (r[0] > ' ' && r[|r| - 1] > ' ')
  {
    TrimEnd(TrimStart(s))
  }

  /** A string that already starts and ends above a space is its own trim. */
  lemma TrimKeeps(s: string)
    requires s != [] && s[0] > ' ' && s[|s| - 1] > ' '
    ensures Trim(s) == s
  {
  }

  /** trim().isEmpty() holds exactly when every character is at or below a space. */
  lemma {:induction false} TrimEmptyIff(s: string)
    ensures Trim(s) == [] <==> forall k :: 0 <= k < |s| ==> s[k] <= ' '
  {
    var t := TrimStart(s);
    TrimStartDrops(s);
    TrimEndDrops(t);
    assert TrimEnd(t) == [] ==> t == [];
    assert forall k :: |s| - |t| <= k < |s| ==> s[k] == t[k - (|s| - |t|)];
  }

  // ---------------------------------------------------------------------------
  // Splitting and joining on a one-character separator

  /** Every separator ends a piece: "a::b" gives ["a", "", "b"], "" gives [""]. */
  function Pieces(s: string, c: char): (r: seq<string>)
    ensures |r| >= 1
    ensures forall i :: 0 <= i < |r| ==> c !in r[i]
  {
    if |s| == 0 then [[]]
    else if s[0] == c then [[]] + Pieces(s[1..], c)
    else
      var rest := Pieces(s[1..], c);
      [[s[0]] + rest[0]] + rest[1..]
  }

  /** String.join(sep, xs). */
  function Join(sep: string, xs: seq<string>): string
  {
    if |xs| == 0 then []
    else if |xs| == 1 then xs[0]
    else xs[0] + sep + Join(sep, xs[1..])
  }

  /** A join starts with its first string and ends with its last. */
  lemma {:induction false} JoinEnds(sep: string, xs: seq<string>)
    requires |xs| >= 1
    ensures |Join(sep, xs)| >= |xs[0]| && Join(sep, xs)[..|xs[0]|] == xs[0]
    ensures |Join(sep, xs)| >= |xs[|xs| - 1]| &&
      Join(sep, xs)[|Join(sep, xs)| - |xs[|xs| - 1]|..] == xs[|xs| - 1]
    decreases |xs|
  {
    if |xs| > 1 {
      var rest := Join(sep, xs[1..]);
      JoinEnds(sep, xs[1..]);
      assert Join(sep, xs) == xs[0] + sep + rest;
      assert xs[1..][|xs[1..]| - 1] == xs[|xs| - 1];
    }
  }

  /** Drops the empty strings at the end of a split result, as String.split does. */
  function DropTrailingEmpty(xs: seq<string>): (r: seq<string>)
    ensures |r| <= |xs| && r == xs[..|r|]
    ensures forall i :: |r| <= i < |xs| ==> xs[i] == []
    ensures r == [] || r[|r| - 1] != []
  {
    if |xs| > 0 && xs[|xs| - 1] == [] then DropTrailingEmpty(xs[..|xs| - 1]) else xs
  }

  /**
   * s.split(c) for a separator that is not a regular-expression metacharacter:
   * without a separator the whole string comes back (even when it is empty);
   * otherwise the pieces, with trailing empty pieces removed.
   */
  function Split(s: string, c: char): (r: seq<string>)
    ensures forall i :: 0 <= i < |r| ==> c !in r[i]
  {
    if c !in s then [s] else DropTrailingEmpty(Pieces(s, c))
  }

  /** Joining the pieces with the separator gives the string back. */
  lemma {:induction false} JoinPieces(s: string, c: char)
    ensures Join([c], Pieces(s, c)) == s
    decreases |s|
  {
    if |s| > 0 {
      var rest := Pieces(s[1..], c);
      JoinPieces(s[1..], c);
      if s[0] == c {
        assert s == [c] + s[1..];
      } else if |rest| == 1 {
        assert s == [s[0]] + s[1..];
      } else {
        assert Join([c], rest) == rest[0] + [c] + Join([c], rest[1..]);
        assert s == [s[0]] + s[1..];
      }
    }
  }

  /** Splitting a join of separator-free strings gives them back. */
  lemma {:induction false} PiecesOfJoin(xs: seq<string>, c: char)
    requires |xs| >= 1
    requires forall i :: 0 <= i < |xs| ==> c !in xs[i]
    ensures Pieces(Join([c], xs), c) == xs
    decreases |xs|
  {
    if |xs| == 1 {
      PiecesWithoutSeparator(xs[0], c);
    } else {
      PiecesOfJoin(xs[1..], c);
      PiecesAfterFirst(xs[0], Join([c], xs[1..]), c);
      assert Join([c], xs) == xs[0] + [c] + Join([c], xs[1..]);
      assert [xs[0]] + xs[1..] == xs;
    }
  }

  lemma {:induction false} PiecesWithoutSeparator(s: string, c: char)
    requires c !in s
    ensures Pieces(s, c) == [s]
    decreases |s|
  {
    if |s| > 0 {
      PiecesWithoutSeparator(s[1..], c);
      assert s == [s[0]] + s[1..];
    }
  }

  /** The first separator of `a + [c] + b` closes the piece `a`. */
  lemma {:induction false} PiecesAfterFirst(a: string, b: string, c: char)
    requires c !in a
    ensures Pieces(a + [c] + b, c) == [a] + Pieces(b, c)
    decreases |a|
  {
    var s := a + [c] + b;
    if |a| == 0 {
      assert s[1..] == b;
    } else {
      assert s[1..] == a[1..] + [c] + b;
      PiecesAfterFirst(a[1..], b, c);
      assert [a[0]] + a[1..] == a;
    }
  }

  /** A string that does not end with the separator has a non-empty last piece. */
  lemma {:induction false} LastPieceNonEmpty(s: string, c: char)
    requires s != [] && s[|s| - 1] != c
    ensures Pieces(s, c)[|Pieces(s, c)| - 1] != []
    decreases |s|
  {
    if |s| > 1 {
      assert s[1..][|s[1..]| - 1] == s[|s| - 1];
      LastPieceNonEmpty(s[1..], c);
    }
  }

  /** A string containing the separator splits into at least two pieces. */
  lemma {:induction false} PiecesAtLeastTwo(s: string, c: char)
    requires c in s
    ensures |Pieces(s, c)| >= 2
    decreases |s|
  {
    if s[0] != c {
      assert c in s[1..] by {
        var k :| 0 <= k < |s| && s[k] == c;
        assert s[1..][k - 1] == c;
      }
      PiecesAtLeastTwo(s[1..], c);
    }
  }

  /** When the string does not end with the separator, String.split keeps every piece. */
  lemma SplitKeepsAllPieces(s: string, c: char)
    requires s != [] && s[|s| - 1] != c
    ensures Split(s, c) == Pieces(s, c)
  {
    if c !in s {
      PiecesWithoutSeparator(s, c);
    } else {
      LastPieceNonEmpty(s, c);
    }
  }

  // ---------------------------------------------------------------------------
  // toUpperCase() (ASCII letters only)

  function UpperChar(ch: char): char {
    if 'a' <= ch <= 'z' then (ch as int - 32) as char else ch
  }

  function ToUpper(s: string): (r: string)
    ensures |r| == |s|
    ensures forall i :: 0 <= i < |s| && 'a' <= s[i] <= 'z' ==> r[i] as int == s[i] as int - 32 && 'A' <= r[i] <= 'Z'
    ensures forall i :: 0 <= i < |s| && !('a' <= s[i] <= 'z') ==> r[i] == s[i]
  {
    seq(|s|, i requires 0 <= i < |s| => UpperChar(s[i]))
  }

  // ---------------------------------------------------------------------------
  // Integer.parseInt (decimal, ASCII digits)

  predicate IsDigit(ch: char) {
    '0' <= ch <= '9'
  }

  function DigitValue(ch: char): int
    requires IsDigit(ch)
  {
    ch as int - '0' as int
  }

  predicate AllDigits(s: string) {
    forall i :: 0 <= i < |s| ==> IsDigit(s[i])
  }

  /** The value of a string of decimal digits, most significant first. */
  function DigitsValue(s: string): (v: nat)
    requires AllDigits(s)
  {
    if |s| == 0 then 0 else DigitsValue(s[..|s| - 1]) * 10 + DigitValue(s[|s| - 1])
  }

  const MinInt := -0x8000_0000
  const MaxInt := 0x7fff_ffff

  /**
   * Integer.parseInt(s): an optional sign, at least one digit, and a value that fits in
   * 32 bits; anything else is a NumberFormatException (None).
   */
  function ParseInt(s: string): (r: Option<int>)
    ensures r.Some? ==> MinInt <= r.value <= MaxInt
    ensures r.Some? ==> s != [] && AllDigits(if s[0] == '-' || s[0] == '+' then s[1..] else s)
  {
    if |s| == 0 then None
    else
      var digits := if s[0] == '-' || s[0] == '+' then s[1..] else s;
      if |digits| == 0 || !AllDigits(digits) then None
      else
        var v: int := if s[0] == '-' then 0 - DigitsValue(digits) else DigitsValue(digits);
        if MinInt <= v <= MaxInt then Some(v) else None
  }

  function DigitChar(n: int): (ch: char)
    requires 0 <= n < 10
    ensures IsDigit(ch) && DigitValue(ch) == n
  {
    ('0' as int + n) as char
  }

  /** Integer.toString(n) for n >= 0. */
  function Decimal(n: nat): (s: string)
    ensures s != [] && AllDigits(s)
  {
    if n < 10 then [DigitChar(n)] else Decimal(n / 10) + [DigitChar(n % 10)]
  }

  /** Reading back the decimal form of a number gives the number. */
  lemma {:induction false} DecimalValue(n: nat)
    ensures DigitsValue(Decimal(n)) == n
  {
    if n >= 10 {
      var s := Decimal(n);
      DecimalValue(n / 10);
      assert s[..|s| - 1] == Decimal(n / 10);
    }
  }

  /** Integer.parseInt inverts Integer.toString on the non-negative ints. */
  lemma ParseIntDecimal(n: nat)
    requires n <= MaxInt
    ensures ParseInt(Decimal(n)) == Some(n)
  {
    DecimalValue(n);
  }
}
