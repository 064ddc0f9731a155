/** The memory column of a node row: printed by the agent as gigabytes with one decimal,
    read back by the allocator with the pattern `(\d+(\.\d+)?)\s*(GB|MB)`. */
module MemoryText {
  // ---------- Decimal numerals ----------

  predicate IsDigit(c: char) { '0' <= c <= '9' }

  predicate AllDigits(s: string) { forall i :: 0 <= i < |s| ==> IsDigit(s[i]) }

  function DigitChar(d: nat): (c: char)
    requires d < 10
    ensures IsDigit(c)
  {
    '0' + d as char
  }

  function Decimal(n: nat): string {
    if n < 10 then [DigitChar(n)] else Decimal(n / 10) + [DigitChar(n % 10)]
  }

  function Numeral(s: string): nat
    requires AllDigits(s)
  {
    if s == "" then 0 else 10 * Numeral(s[..|s| - 1]) + (s[|s| - 1] as int - '0' as int)
  }

  /** The value of digits behind a decimal point. */
  function Fraction(s: string): (x: real)
    requires AllDigits(s)
    ensures x >= 0.0
  {
    if s == "" then 0.0 else ((s[0] as int - '0' as int) as real + Fraction(s[1..])) / 10.0
  }

  lemma {:induction false} DecimalNumeral(n: nat)
    ensures Decimal(n) != "" && AllDigits(Decimal(n)) && Numeral(Decimal(n)) == n
  {
    var s := Decimal(n);
    if n >= 10 {
      DecimalNumeral(n / 10);
      assert s[..|s| - 1] == Decimal(n / 10);
    } else {
      assert s[..|s| - 1] == "";
    }
  }

  // ---------- The printer ----------

  /** The tenths of a gigabyte that are printed, rounded as the `.1f` format does it: to nearest, ties to even. */
  function Tenths(bytes: nat): nat {
    var q, r := 10 * bytes / 1073741824, 10 * bytes % 1073741824;
    if r < 536870912 || (r == 536870912 && q % 2 == 0) then q else q + 1
  }

  /** No other number of tenths is nearer, and between two equally near ones the even one is printed. */
  lemma TenthsNearest(bytes: nat, t: int)
    ensures var distance := if Tenths(bytes) * 1073741824 >= 10 * bytes then Tenths(bytes) * 1073741824 - 10 * bytes
                            else 10 * bytes - Tenths(bytes) * 1073741824;
            var other := if t * 1073741824 >= 10 * bytes then t * 1073741824 - 10 * bytes
                         else 10 * bytes - t * 1073741824;
            && distance <= 536870912
            && (t != Tenths(bytes) ==> distance < other || (distance == other && Tenths(bytes) % 2 == 0))
  {
    var q, r := 10 * bytes / 1073741824, 10 * bytes % 1073741824;
    assert 10 * bytes == q * 1073741824 + r;
  }

  function RamText(bytes: nat): string {
    Decimal(Tenths(bytes) / 10) + "." + [DigitChar(Tenths(bytes) % 10)] + "GB"
  }

  // ---------- The pattern ----------

  function UpperChar(c: char): char {
    if 'a' <= c <= 'z' then (c as int - 32) as char else c
  }

  function Upper(s: string): (u: string)
    ensures |u| == |s| && forall i :: 0 <= i < |s| ==> u[i] == UpperChar(s[i])
  {
    seq(|s|, i requires 0 <= i < |s| => UpperChar(s[i]))
  }

  predicate IsSpace(c: char) { c == ' ' || '\t' <= c <= '\r' || 28 as char <= c <= 31 as char }

  predicate UnitAt(s: string, p: nat) {
    p + 2 <= |s| && (s[p] == 'G' || s[p] == 'M') && s[p + 1] == 'B'
  }

  /** Where the unit would stand after `d` integer digits, `f` fraction digits and `w` blanks. */
  function UnitPosition(i: nat, d: nat, f: nat, w: nat): nat { i + d + (if f == 0 then 0 else f + 1) + w }

  /** One way, out of possibly many a backtracking matcher might try, to read the pattern at position `i`. */
  ghost predicate MatchAt(s: string, i: nat, d: nat, f: nat, w: nat) {
    && d >= 1
    && UnitAt(s, UnitPosition(i, d, f, w))
    && (forall k :: i <= k < i + d ==> IsDigit(s[k]))
    && (f > 0 ==> s[i + d] == '.' && forall k :: i + d + 1 <= k < i + d + 1 + f ==> IsDigit(s[k]))
    && (forall k :: UnitPosition(i, d, f, 0) <= k < UnitPosition(i, d, f, w) ==> IsSpace(s[k]))
  }

  /** The pattern matches at position `i`, one way or another. */
  ghost predicate Matches(s: string, i: nat) { exists d, f, w :: MatchAt(s, i, d, f, w) }

  /** The megabytes written as `d` digits, optionally a point and `f` more digits, in the unit at `p`. */
  function Megabytes(s: string, i: nat, d: nat, f: nat, p: nat): (mb: real)
    requires i + d <= |s| && p < |s| && (f > 0 ==> i + d + 1 + f <= |s|)
    requires AllDigits(s[i..i + d]) && (f > 0 ==> AllDigits(s[i + d + 1..i + d + 1 + f]))
    ensures mb >= 0.0
  {
    var whole := Numeral(s[i..i + d]) as real;
    var fraction := if f == 0 then 0.0 else Fraction(s[i + d + 1..i + d + 1 + f]);
    if s[p] == 'G' then (whole + fraction) * 1024.0 else whole + fraction
  }

  /** What a reading of the pattern is worth. */
  ghost function Amount(s: string, i: nat, d: nat, f: nat, w: nat): real
    requires MatchAt(s, i, d, f, w)
  {
    Megabytes(s, i, d, f, UnitPosition(i, d, f, w))
  }

  // ---------- The reader ----------

  /** The length of the longest run of characters satisfying `p` from position `i` on. */
  function RunLength(s: string, i: nat, p: char -> bool): nat
    decreases |s| - i
  {
    if i < |s| && p(s[i]) then 1 + RunLength(s, i + 1, p) else 0
  }

  lemma {:induction false} RunMeans(s: string, i: nat, p: char -> bool)
    ensures i <= |s| ==> i + RunLength(s, i, p) <= |s|
    ensures forall k :: i <= k < i + RunLength(s, i, p) && k < |s| ==> p(s[k])
    ensures i + RunLength(s, i, p) < |s| ==> !p(s[i + RunLength(s, i, p)])
    decreases |s| - i
  {
    if i < |s| && p(s[i]) { RunMeans(s, i + 1, p); }
  }

  function IntegerDigits(s: string, i: nat): nat { RunLength(s, i, IsDigit) }

  function FractionDigits(s: string, j: nat): nat {
    if j < |s| && s[j] == '.' then RunLength(s, j + 1, IsDigit) else 0
  }

  function Blanks(s: string, k: nat): nat { RunLength(s, k, IsSpace) }

  /** Greedy reading at `i`, without backtracking; -1 when there is none. */
  function ReadAt(s: string, i: nat): real
    requires i <= |s|
  {
    var d := IntegerDigits(s, i);
    RunMeans(s, i, IsDigit);
    var f := FractionDigits(s, i + d);
    RunMeans(s, i + d + 1, IsDigit);
    var k := UnitPosition(i, d, f, 0);
    var p := k + Blanks(s, k);
    if d == 0 || !UnitAt(s, p) then -1.0 else Megabytes(s, i, d, f, p)
  }

  /** The first reading that succeeds from position `i` on; nothing found counts as zero. */
  function Search(s: string, i: nat): real
    decreases if i <= |s| then |s| - i + 1 else 0, 1
  {
    if i > |s| then 0.0 else ReadOrMoveOn(s, i)
  }

  function ReadOrMoveOn(s: string, i: nat): real
    requires i <= |s|
    decreases |s| - i + 1, 0
  {
    var reading := ReadAt(s, i);
    if reading >= 0.0 then reading else Search(s, i + 1)
  }

  function ParseMemory(text: string): real {
    if text == "" then 0.0 else Search(Upper(text), 0)
  }

  // ---------- The reader implements the pattern ----------

  /** Backtracking can never pay off: every way to match at `i` is the greedy one. */
  lemma OnlyGreedyMatches(s: string, i: nat, d: nat, f: nat, w: nat)
    requires i <= |s| && MatchAt(s, i, d, f, w)
    ensures d == IntegerDigits(s, i)
    ensures f == FractionDigits(s, i + d)
    ensures w == Blanks(s, UnitPosition(i, d, f, 0))
  {
    var p := UnitPosition(i, d, f, w);
    LongestRun(s, i, d, IsDigit);
    if f > 0 {
      LongestRun(s, i + d + 1, f, IsDigit);
    }
    LongestRun(s, UnitPosition(i, d, f, 0), w, IsSpace);
  }

  lemma LongestRun(s: string, i: nat, n: nat, p: char -> bool)
    requires i + n < |s| && (forall k :: i <= k < i + n ==> p(s[k])) && !p(s[i + n])
    ensures RunLength(s, i, p) == n
  {
    RunMeans(s, i, p);
  }

  lemma MatchReads(s: string, i: nat, d: nat, f: nat, w: nat)
    requires i <= |s| && MatchAt(s, i, d, f, w)
    ensures ReadAt(s, i) == Amount(s, i, d, f, w)
  {
    OnlyGreedyMatches(s, i, d, f, w);
  }

  lemma ReadMatches(s: string, i: nat)
    requires i <= |s| && ReadAt(s, i) >= 0.0
    ensures Matches(s, i)
  {
    var d := IntegerDigits(s, i);
    var f := FractionDigits(s, i + d);
    RunMeans(s, i, IsDigit);
    RunMeans(s, i + d + 1, IsDigit);
    RunMeans(s, UnitPosition(i, d, f, 0), IsSpace);
    assert MatchAt(s, i, d, f, Blanks(s, UnitPosition(i, d, f, 0)));
  }

  /** The greedy reading succeeds exactly where the pattern matches, with the pattern's value. */
  lemma ReadAtMeaning(s: string, i: nat)
    requires i <= |s|
    ensures ReadAt(s, i) >= 0.0 <==> Matches(s, i)
    ensures forall d, f, w :: MatchAt(s, i, d, f, w) ==> ReadAt(s, i) == Amount(s, i, d, f, w)
  {
    forall d, f, w | MatchAt(s, i, d, f, w) ensures ReadAt(s, i) == Amount(s, i, d, f, w) { MatchReads(s, i, d, f, w); }
    if ReadAt(s, i) >= 0.0 { ReadMatches(s, i); }
  }

  lemma {:induction false} SearchFinds(s: string, i: nat, k: nat)
    requires i <= k <= |s| + 1 && forall m :: i <= m < k ==> ReadAt(s, m) < 0.0
    ensures k <= |s| && ReadAt(s, k) >= 0.0 ==> Search(s, i) == ReadAt(s, k)
    ensures k == |s| + 1 ==> Search(s, i) == 0.0
    decreases k - i
  {
    if i < k { SearchFinds(s, i + 1, k); }
  }

  /** Parsing returns the value of the leftmost match, whichever way it is read. */
  lemma ParsesLeftmostMatch(text: string, i: nat, d: nat, f: nat, w: nat)
    requires i <= |text| && MatchAt(Upper(text), i, d, f, w)
    requires forall k :: 0 <= k < i ==> !Matches(Upper(text), k)
    ensures ParseMemory(text) == Amount(Upper(text), i, d, f, w)
  {
    forall k | 0 <= k < i ensures ReadAt(Upper(text), k) < 0.0 { ReadAtMeaning(Upper(text), k); }
    MatchReads(Upper(text), i, d, f, w);
    SearchFinds(Upper(text), 0, i);
  }

  /** Without a match anywhere the memory counts as zero. */
  lemma ParsesNothing(text: string)
    requires forall i :: 0 <= i <= |text| ==> !Matches(Upper(text), i)
    ensures ParseMemory(text) == 0.0
  {
    forall k | 0 <= k <= |text| ensures ReadAt(Upper(text), k) < 0.0 { ReadAtMeaning(Upper(text), k); }
    SearchFinds(Upper(text), 0, |text| + 1);
  }

  // ---------- Texts written by hand ----------

  const BLANKS := {' ', '\t', '\n', 11 as char, 12 as char, '\r', 28 as char, 29 as char, 30 as char, 31 as char}

  const GIGABYTES := {"GB", "Gb", "gB", "gb"}
  const MEGABYTES := {"MB", "Mb", "mB", "mb"}

  /** A whole number, any blanks, and the unit in any case read as they say. */
  lemma WholeAmount(n: nat, blanks: string, unit: string)
    requires (forall i :: 0 <= i < |blanks| ==> blanks[i] in BLANKS) && unit in GIGABYTES + MEGABYTES
    ensures ParseMemory(Decimal(n) + blanks + unit) == n as real * (if unit in GIGABYTES then 1024.0 else 1.0)
  {
    var whole := Decimal(n);
    var text, d, w := whole + blanks + unit, |whole|, |blanks|;
    var s := Upper(text);
    DecimalNumeral(n);
    forall k | 0 <= k < d ensures s[k] == whole[k] && IsDigit(s[k]) { assert text[k] == whole[k]; }
    forall k | d <= k < d + w ensures IsSpace(s[k]) { assert text[k] == blanks[k - d]; }
    assert text[d + w] == unit[0] && text[d + w + 1] == unit[1];
    assert MatchAt(s, 0, d, 0, w);
    assert s[0..d] == whole;
    ParsesLeftmostMatch(text, 0, d, 0, w);
  }

  /** Any other character between number and unit makes the text worth nothing. */
  lemma NotSeparated(n: nat, c: char)
    requires c !in BLANKS && !('0' <= c <= '9')
    ensures ParseMemory(Decimal(n) + [c] + "GB") == 0.0
  {
    var whole := Decimal(n);
    var text := whole + [c] + "GB";
    DecimalNumeral(n);
    forall i | 0 <= i <= |text| ensures !Matches(Upper(text), i) {
      forall d, f, w ensures !MatchAt(Upper(text), i, d, f, w) { NoMatchBehind(whole, c, i, d, f, w); }
    }
    ParsesNothing(text);
  }

  lemma NoMatchBehind(whole: string, c: char, i: nat, d: nat, f: nat, w: nat)
    requires AllDigits(whole) && c !in BLANKS && !IsDigit(c)
    ensures !MatchAt(Upper(whole + [c] + "GB"), i, d, f, w)
  {
    var s, p := Upper(whole + [c] + "GB"), UnitPosition(i, d, f, w);
    assert forall k :: 0 <= k < |whole| ==> s[k] == whole[k];
    assert s[|whole|] == UpperChar(c) && s[|whole| + 1] == 'G' && s[|whole| + 2] == 'B';
    if UnitAt(s, p) {
      assert p == |whole| + 1;
      assert !IsSpace(s[p - 1]) && !IsDigit(s[p - 1]);
    }
  }

  // ---------- Round trip ----------

  lemma RamTextMatches(bytes: nat)
    ensures var text, d := RamText(bytes), |Decimal(Tenths(bytes) / 10)|;
            && Upper(text) == text && MatchAt(text, 0, d, 1, 0)
            && text[0..d] == Decimal(Tenths(bytes) / 10) && text[d + 1..d + 2] == Decimal(Tenths(bytes) % 10)
  {
    var whole := Decimal(Tenths(bytes) / 10);
    var text, d := RamText(bytes), |whole|;
    DecimalNumeral(Tenths(bytes) / 10);
    assert text[0..d] == whole;
    forall k | 0 <= k < d ensures IsDigit(text[k]) { assert text[k] == whole[k]; }
    assert text[d] == '.' && text[d + 1] == DigitChar(Tenths(bytes) % 10) && text[d + 2] == 'G' && text[d + 3] == 'B';
    assert forall k :: 0 <= k < |text| ==> UpperChar(text[k]) == text[k];
  }

  lemma TenthsAsReal(t: nat)
    ensures (t / 10) as real + (t % 10) as real / 10.0 == t as real / 10.0
  {
    assert t == 10 * (t / 10) + t % 10;
  }

  lemma RamTextAmount(bytes: nat)
    requires MatchAt(RamText(bytes), 0, |Decimal(Tenths(bytes) / 10)|, 1, 0)
    ensures Amount(RamText(bytes), 0, |Decimal(Tenths(bytes) / 10)|, 1, 0)
         == ((Tenths(bytes) / 10) as real + (Tenths(bytes) % 10) as real / 10.0) * 1024.0
  {
    RamTextMatches(bytes);
    DecimalNumeral(Tenths(bytes) / 10);
    OneDigit(Tenths(bytes) % 10);
  }

  lemma OneDigit(d: nat)
    requires d < 10
    ensures AllDigits(Decimal(d)) && Fraction(Decimal(d)) == d as real / 10.0
  {
    assert Decimal(d)[1..] == "";
    assert Fraction(Decimal(d)[1..]) == 0.0;
  }

  /** Reading back what an agent prints returns exactly the printed tenths of a gigabyte. */
  lemma RoundTrip(bytes: nat)
    ensures ParseMemory(RamText(bytes)) == Tenths(bytes) as real / 10.0 * 1024.0
  {
    RamTextMatches(bytes);
    ParsesLeftmostMatch(RamText(bytes), 0, |Decimal(Tenths(bytes) / 10)|, 1, 0);
    RamTextAmount(bytes);
    TenthsAsReal(Tenths(bytes));
  }

  /** The printed size is within half a tenth of a gigabyte, 51.2 MB, of the true one. */
  lemma RoundTripError(bytes: nat)
    ensures -51.2 <= ParseMemory(RamText(bytes)) - bytes as real / 1048576.0 <= 51.2
  {
    RoundTrip(bytes);
    var t := Tenths(bytes);
    TenthsNearest(bytes, t);
    assert -0.5 <= t as real - 10.0 * bytes as real / 1073741824.0 <= 0.5;
    assert ParseMemory(RamText(bytes)) - bytes as real / 1048576.0
      == 102.4 * (t as real - 10.0 * bytes as real / 1073741824.0);
  }

  /** The memory part of a node's score. */
  function RamScore(megabytes: real, weight: real): real { megabytes / 1024.0 * weight }

  /** Hence rounding moves a node's memory score by at most 5% of the memory weight. */
  lemma RamScoreError(bytes: nat, weight: real)
    ensures var error := RamScore(ParseMemory(RamText(bytes)), weight) - RamScore(bytes as real / 1048576.0, weight);
            -0.05 * Magnitude(weight) <= error <= 0.05 * Magnitude(weight)
  {
    RoundTripError(bytes);
    ScaleError(ParseMemory(RamText(bytes)), bytes as real / 1048576.0, weight);
  }

  function Magnitude(x: real): real { if x < 0.0 then -x else x }

  lemma ScaleError(a: real, b: real, weight: real)
    requires -51.2 <= a - b <= 51.2
    ensures var error := RamScore(a, weight) - RamScore(b, weight);
            -0.05 * Magnitude(weight) <= error <= 0.05 * Magnitude(weight)
  {
    var x := a / 1024.0 - b / 1024.0;
    assert -0.05 <= x <= 0.05;
    Distribute(a / 1024.0, b / 1024.0, weight);
    Product(0.05 - x, Magnitude(weight));
    Product(0.05 + x, Magnitude(weight));
  }

  lemma Distribute(p: real, q: real, w: real)
    ensures p * w - q * w == (p - q) * w
  {
  }

  lemma Product(x: real, y: real)
    requires x >= 0.0 && y >= 0.0
    ensures x * y >= 0.0
  {
  }
}
