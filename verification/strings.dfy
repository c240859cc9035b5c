/**
 * The pieces of JavaScript's string library that the client and the server use:
 * `Number.prototype.toString` on integers, `String.prototype.padStart`,
 * `String.prototype.startsWith`, and `String.prototype.split` with a string separator.
 */
module Strings {
  import opened Values

  predicate IsDigit(c: char)
  {
    '0' <= c <= '9'
  }

  predicate AllDigits(s: string)
  {
    forall i :: 0 <= i < |s| ==> IsDigit(s[i])
  }

  function DigitChar(d: nat): (c: char)
    requires d < 10
    ensures IsDigit(c) && c as int - '0' as int == d
  {
    ('0' as int + d) as char
  }

  /** `n.toString()` for a non-negative integer: the shortest decimal numeral of `n`. */
  function Digits(n: nat): (s: string)
    ensures 1 <= |s| && AllDigits(s)
    ensures |s| == 1 <==> n < 10
    ensures s[0] == '0' <==> n == 0
    decreases n
  {
    if n < 10 then [DigitChar(n)] else Digits(n / 10) + [DigitChar(n % 10)]
  }

  /** `i.toString()` for any integer: a minus sign before the numeral of a negative number. */
  function IntString(i: int): (s: string)
    ensures 1 <= |s|
    ensures s[0] == '-' <==> i < 0
    ensures 0 <= i ==> s == Digits(i)
  {
    if i < 0 then "-" + Digits(-i) else Digits(i)
  }

  /** The value of a string of decimal digits, most significant first. */
  function DecimalValue(s: string): nat
    requires AllDigits(s)
    decreases |s|
  {
    if s == [] then 0 else 10 * DecimalValue(s[..|s| - 1]) + (s[|s| - 1] as int - '0' as int)
  }

  /** Reading a non-empty string of decimal digits back as a number; anything else is rejected. */
  function ParseDecimal(s: string): (r: Option<nat>)
    ensures r.Some? <==> 0 < |s| && AllDigits(s)
  {
    if 0 < |s| && AllDigits(s) then Some(DecimalValue(s)) else None
  }

  /** Reading an optionally signed numeral back as an integer. */
  function ParseInt(s: string): (r: Option<int>)
    ensures 0 < |s| && s[0] == '-' ==> (r.Some? <==> ParseDecimal(s[1..]).Some?)
    ensures 0 < |s| && s[0] == '-' && r.Some? ==> r.value + ParseDecimal(s[1..]).value == 0
    ensures (|s| == 0 || s[0] != '-') ==> (r.Some? <==> ParseDecimal(s).Some?)
    ensures (|s| == 0 || s[0] != '-') && r.Some? ==> r.value == ParseDecimal(s).value
  {
    if 0 < |s| && s[0] == '-' then
      match ParseDecimal(s[1..])
      case Some(n) => Some(0 - n)
      case None => None
    else
      match ParseDecimal(s)
      case Some(n) => Some(n)
      case None => None
  }

  /** Numbers print to numerals that read back as the same number. */
  lemma {:induction false} DigitsRoundTrip(n: nat)
    ensures ParseDecimal(Digits(n)) == Some(n)
    decreases n
  {
    var s := Digits(n);
    if n < 10 {
      assert s[..|s| - 1] == [];
    } else {
      DigitsRoundTrip(n / 10);
      assert s[..|s| - 1] == Digits(n / 10);
      assert DecimalValue(s) == 10 * (n / 10) + n % 10;
    }
  }

  /** Integers, negative ones included, print to text that reads back as the same integer. */
  lemma IntStringRoundTrip(i: int)
    ensures ParseInt(IntString(i)) == Some(i)
  {
    var s := IntString(i);
    if i < 0 {
      assert s[1..] == Digits(-i);
      DigitsRoundTrip(-i);
    } else {
      DigitsRoundTrip(i);
    }
  }

  /** How many characters the numeral of a number with at most four digits has. */
  lemma {:induction false} DigitsLength(n: nat)
    ensures n < 10 ==> |Digits(n)| == 1
    ensures 10 <= n < 100 ==> |Digits(n)| == 2
    ensures 100 <= n < 1000 ==> |Digits(n)| == 3
    ensures 1000 <= n < 10000 ==> |Digits(n)| == 4
    ensures 10000 <= n ==> 4 < |Digits(n)|
    decreases n
  {
    if 10 <= n {
      DigitsLength(n / 10);
    }
  }

  /** `s.padStart(targetLength, fill)` with a one-character fill string. */
  function PadStart(s: string, targetLength: nat, fill: char): (r: string)
    ensures |r| == if |s| < targetLength then targetLength else |s|
    ensures r[|r| - |s|..] == s
    ensures forall i :: 0 <= i < |r| - |s| ==> r[i] == fill
  {
    if |s| < targetLength then seq(targetLength - |s|, _ => fill) + s else s
  }

  /** ASCII letters in lower case; every other character unchanged. */
  function LowerAscii(s: string): (r: string)
    ensures |r| == |s|
    ensures forall i :: 0 <= i < |s| ==>
      r[i] == if 'A' <= s[i] <= 'Z' then (s[i] as int + 32) as char else s[i]
  {
    seq(|s|, i requires 0 <= i < |s| => if 'A' <= s[i] <= 'Z' then (s[i] as int + 32) as char else s[i])
  }

  predicate StartsWith(s: string, prefix: string)
  {
    |prefix| <= |s| && s[..|prefix|] == prefix
  }

  /** `sep` occurs in `s` starting at index `i`. */
  predicate OccursAt(s: string, sep: string, i: int)
  {
    0 <= i && i + |sep| <= |s| && s[i..i + |sep|] == sep
  }

  /** `sep` occurs nowhere in `s`. */
  predicate Free(s: string, sep: string)
  {
    forall i :: 0 <= i <= |s| ==> !OccursAt(s, sep, i)
  }

  lemma OccursAtTail(s: string, sep: string, i: int)
    requires 1 <= |s| && 0 <= i
    ensures OccursAt(s[1..], sep, i) <==> OccursAt(s, sep, i + 1)
  {
    if 0 <= i && i + |sep| <= |s| - 1 {
      assert s[1..][i..i + |sep|] == s[i + 1..i + 1 + |sep|];
    }
  }

  /** `s.indexOf(sep)`: the first index where `sep` occurs, or -1 when it does not occur. */
  function IndexOf(s: string, sep: string): (r: int)
    ensures -1 <= r <= |s|
    ensures 0 <= r ==> OccursAt(s, sep, r)
    ensures 0 <= r ==> forall i :: 0 <= i < r ==> !OccursAt(s, sep, i)
    ensures r < 0 ==> Free(s, sep)
    decreases |s|
  {
    if |s| < |sep| then -1
    else if s[..|sep|] == sep then 0
    else
      var k := IndexOf(s[1..], sep);
      assert forall i :: 0 <= i ==> (OccursAt(s[1..], sep, i) <==> OccursAt(s, sep, i + 1)) by {
        forall i | 0 <= i { OccursAtTail(s, sep, i); }
      }
      assert !OccursAt(s, sep, 0);
      assert forall i :: OccursAt(s, sep, i) ==> 1 <= i && OccursAt(s[1..], sep, i - 1);
      if k < 0 then -1 else k + 1
  }

  /** `s.split(sep)` for a non-empty separator: the pieces between successive occurrences. */
  function Split(s: string, sep: string): (parts: seq<string>)
    requires sep != []
    ensures 1 <= |parts|
    decreases |s|
  {
    var i := IndexOf(s, sep);
    if i < 0 then [s] else [s[..i]] + Split(s[i + |sep|..], sep)
  }

  /** `parts.join(sep)`. */
  function Join(parts: seq<string>, sep: string): string
    requires 1 <= |parts|
    decreases |parts|
  {
    if |parts| == 1 then parts[0] else parts[0] + sep + Join(parts[1..], sep)
  }

  /** Joining the pieces of a split with the separator gives the original string back. */
  lemma {:induction false} SplitJoin(s: string, sep: string)
    requires sep != []
    ensures Join(Split(s, sep), sep) == s
    decreases |s|
  {
    var i := IndexOf(s, sep);
    if 0 <= i {
      var rest := s[i + |sep|..];
      var parts := Split(s, sep);
      SplitJoin(rest, sep);
      assert parts == [s[..i]] + Split(rest, sep);
      assert parts[1..] == Split(rest, sep);
      JoinAround(parts, sep, s[..i], rest);
      assert s[i..i + |sep|] == sep;
      Reassemble(s, i, |sep|);
    }
  }

  /** Joining two or more pieces puts the separator after the first one. */
  lemma JoinAround(parts: seq<string>, sep: string, first: string, rest: string)
    requires 2 <= |parts| && parts[0] == first && Join(parts[1..], sep) == rest
    ensures Join(parts, sep) == first + sep + rest
  {
  }

  lemma Reassemble(s: string, i: nat, n: nat)
    requires i + n <= |s|
    ensures s[..i] + s[i..i + n] + s[i + n..] == s
  {
    assert s[..i] + s[i..i + n] == s[..i + n];
  }

  /** No piece of a split contains the separator. */
  lemma {:induction false} SplitPiecesFree(s: string, sep: string)
    requires sep != []
    ensures forall k :: 0 <= k < |Split(s, sep)| ==> Free(Split(s, sep)[k], sep)
    decreases |s|
  {
    var i := IndexOf(s, sep);
    if 0 <= i {
      var rest := s[i + |sep|..];
      SplitPiecesFree(rest, sep);
      forall j | OccursAt(s[..i], sep, j)
        ensures false
      {
        assert s[..i][j..j + |sep|] == s[j..j + |sep|];
        assert OccursAt(s, sep, j);
      }
      assert Split(s, sep) == [s[..i]] + Split(rest, sep);
    }
  }

  /** When the separator first occurs right after `a`, `a` is the first piece. */
  lemma SplitAfter(a: string, sep: string, t: string)
    requires sep != []
    requires forall i :: 0 <= i < |a| ==> !OccursAt(a + sep + t, sep, i)
    ensures Split(a + sep + t, sep) == [a] + Split(t, sep)
  {
    var s := a + sep + t;
    assert s[|a|..|a| + |sep|] == sep;
    assert OccursAt(s, sep, |a|);
    var i := IndexOf(s, sep);
    assert i == |a|;
    assert s[..i] == a;
    assert s[i + |sep|..] == t;
  }

  /** A one-character separator occurs only where that character is. */
  lemma CharOccurrence(s: string, c: char, i: int)
    ensures OccursAt(s, [c], i) <==> 0 <= i < |s| && s[i] == c
  {
    if 0 <= i < |s| {
      assert s[i..i + 1] == [s[i]];
    }
  }

  lemma SplitOnAbsentChar(s: string, c: char)
    requires c !in s
    ensures Split(s, [c]) == [s]
  {
    forall i ensures !OccursAt(s, [c], i) { CharOccurrence(s, c, i); }
  }

  /** A leading separator character gives an empty first piece. */
  lemma SplitLeadingChar(c: char, t: string)
    ensures Split([c] + t, [c]) == [[]] + Split(t, [c])
  {
    assert [] + [c] + t == [c] + t;
    SplitAfterChar([], c, t);
  }

  lemma SplitAfterChar(a: string, c: char, t: string)
    requires c !in a
    ensures Split(a + [c] + t, [c]) == [a] + Split(t, [c])
  {
    forall i | 0 <= i < |a|
      ensures !OccursAt(a + [c] + t, [c], i)
    {
      CharOccurrence(a + [c] + t, c, i);
    }
    SplitAfter(a, [c], t);
  }

  /** Two pieces without the separator character, joined by it, split back into themselves. */
  lemma SplitTwo(a: string, b: string, c: char)
    requires c !in a && c !in b
    ensures Split(a + [c] + b, [c]) == [a, b]
  {
    SplitAfterChar(a, c, b);
    SplitOnAbsentChar(b, c);
  }

  /** Three pieces without the separator character, joined by it, split back into themselves. */
  lemma SplitThree(a: string, b: string, d: string, c: char)
    requires c !in a && c !in b && c !in d
    ensures Split(a + [c] + b + [c] + d, [c]) == [a, b, d]
  {
    var rest := b + [c] + d;
    SplitTwo(b, d, c);
    SplitAfterChar(a, c, rest);
    JoinThree(a, b, d, [c]);
  }

  /** Regrouping three joined pieces; kept apart so that `SplitThree` sees only its conclusion. */
  lemma JoinThree(a: string, b: string, d: string, sep: string)
    ensures a + sep + b + sep + d == a + sep + (b + sep + d)
  {
  }
}
