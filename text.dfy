/**
 * The few JavaScript string primitives the fetch/extract core relies on:
 * `String.prototype.indexOf`, `Array.prototype.toString` on an array of
 * chunks, and the decimal rendering of a number in `'fetcher-' + i`.
 */
module Text {

  /** `pat` occurs in `s` starting at index `i`. */
  predicate MatchAt(s: string, pat: string, i: int) {
    0 <= i && i + |pat| <= |s| && s[i..i + |pat|] == pat
  }

  /** `pat` occurs somewhere in `s`. */
  ghost predicate Contains(s: string, pat: string) {
    exists i :: MatchAt(s, pat, i)
  }

  /**
   * `s.indexOf(pat, from)`: the first index at or after `from` where `pat`
   * occurs, or -1 when there is none. (JavaScript clamps `from` to `|s|`,
   * so for an empty `pat` and `from > |s|` it answers `|s|`, not -1; the
   * core only calls it with `from` 0 and a non-empty pattern.)
   */
  function IndexOf(s: string, pat: string, from: nat): (r: int)
    ensures r == -1 || (from <= r && MatchAt(s, pat, r))
    ensures r == -1 ==> forall i :: from <= i ==> !MatchAt(s, pat, i)
    ensures r != -1 ==> forall i :: from <= i < r ==> !MatchAt(s, pat, i)
    decreases |s| - from
  {
    if from + |pat| > |s| then -1
    else if s[from..from + |pat|] == pat then from
    else IndexOf(s, pat, from + 1)
  }

  /** `s.indexOf(pat) >= 0` is exactly "`s` contains `pat`". */
  lemma IndexOfFindsOccurrence(s: string, pat: string)
    ensures IndexOf(s, pat, 0) >= 0 <==> Contains(s, pat)
  {
    var r := IndexOf(s, pat, 0);
    if r >= 0 {
      assert MatchAt(s, pat, r);
    }
  }

  /** A character of `pat` that never appears in `s` rules out every occurrence of `pat`. */
  lemma MissingCharRulesOut(s: string, pat: string, j: nat)
    requires j < |pat| && pat[j] !in s
    ensures !Contains(s, pat)
  {
    forall i | MatchAt(s, pat, i)
      ensures false
    {
    }
  }

  /**
   * `chunks.toString()` for an array of string chunks: the elements joined
   * with "," (Array.prototype.toString is Array.prototype.join with its
   * default separator).
   */
  function Join(chunks: seq<string>): string
  {
    if |chunks| == 0 then ""
    else if |chunks| == 1 then chunks[0]
    else chunks[0] + "," + Join(chunks[1..])
  }

  /** The plain concatenation of the chunks: the bytes as they were received. */
  function Concat(chunks: seq<string>): string
  {
    if |chunks| == 0 then "" else chunks[0] + Concat(chunks[1..])
  }

  /** Total length of the chunks. */
  function TotalLength(chunks: seq<string>): nat
  {
    if |chunks| == 0 then 0 else |chunks[0]| + TotalLength(chunks[1..])
  }

  /** Appending a chunk to a non-empty array adds a separator and the chunk. */
  lemma {:induction false} JoinSnoc(chunks: seq<string>, c: string)
    requires chunks != []
    ensures Join(chunks + [c]) == Join(chunks) + "," + c
    decreases |chunks|
  {
    if |chunks| == 1 {
      assert chunks + [c] == [chunks[0], c];
      assert [c][1..] == [];
    } else {
      assert (chunks + [c])[1..] == chunks[1..] + [c];
      JoinSnoc(chunks[1..], c);
    }
  }

  /** The joined text has one separator between every two chunks. */
  lemma {:induction false} JoinLength(chunks: seq<string>)
    requires chunks != []
    ensures |Join(chunks)| == TotalLength(chunks) + |chunks| - 1
    decreases |chunks|
  {
    if |chunks| > 1 {
      JoinLength(chunks[1..]);
    }
  }

  /**
   * The joined text is the received text only when there is at most one
   * chunk: the same body delivered as ["ab", "cd"] is stored as "ab,cd",
   * delivered as ["abcd"] as "abcd".
   */
  lemma JoinDependsOnChunking()
    ensures Concat(["ab", "cd"]) == Concat(["abcd"])
    ensures Join(["ab", "cd"]) != Join(["abcd"])
  {
    assert Join(["ab", "cd"]) == "ab,cd";
    assert |Join(["ab", "cd"])| == 5;
  }

  /** A single chunk is stored as it is. */
  lemma JoinSingle(c: string)
    ensures Join([c]) == c && Concat([c]) == c
  {
  }

  predicate IsDigit(c: char) {
    '0' <= c <= '9'
  }

  function DigitChar(d: nat): (c: char)
    requires d < 10
    ensures IsDigit(c)
  {
    (('0' as int) + d) as char
  }

  function DigitValue(c: char): (d: nat)
    requires IsDigit(c)
    ensures d < 10
  {
    (c as int) - ('0' as int)
  }

  /** `String(n)` for a non-negative integer: its decimal digits, most significant first. */
  function Decimal(n: nat): (s: string)
    ensures |s| >= 1
    decreases n
  {
    if n < 10 then [DigitChar(n)] else Decimal(n / 10) + [DigitChar(n % 10)]
  }

  /** The rendering is all digits, with no leading zero. */
  lemma {:induction false} DecimalDigits(n: nat)
    ensures DigitsOnly(Decimal(n))
    ensures n >= 10 ==> Decimal(n)[0] != '0'
    decreases n
  {
    if n >= 10 {
      DecimalDigits(n / 10);
      if n / 10 >= 10 {
        assert Decimal(n)[0] == Decimal(n / 10)[0];
      } else {
        assert Decimal(n)[0] == DigitChar(n / 10);
      }
    }
  }

  /** Every character is a decimal digit. */
  predicate DigitsOnly(s: string) {
    forall i :: 0 <= i < |s| ==> IsDigit(s[i])
  }

  /** The value of a string of decimal digits. */
  function ParseDecimal(s: string): nat
    requires DigitsOnly(s)
    decreases |s|
  {
    if s == [] then 0 else ParseDecimal(s[..|s| - 1]) * 10 + DigitValue(s[|s| - 1])
  }

  /** Reading the decimal rendering back gives the number. */
  lemma {:induction false} ParseDecimalOfDecimal(n: nat)
    ensures DigitsOnly(Decimal(n)) && ParseDecimal(Decimal(n)) == n
    decreases n
  {
    DecimalDigits(n);
    var s := Decimal(n);
    if n < 10 {
      assert s[..|s| - 1] == [];
    } else {
      assert s[..|s| - 1] == Decimal(n / 10);
      ParseDecimalOfDecimal(n / 10);
    }
  }

  /** Different numbers render differently. */
  lemma DecimalInjective(m: nat, n: nat)
    requires m != n
    ensures Decimal(m) != Decimal(n)
  {
    ParseDecimalOfDecimal(m);
    ParseDecimalOfDecimal(n);
  }
}
