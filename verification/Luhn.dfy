/** The Luhn check character over the base32 alphabet (luhn32 and luhnify in internal/certid/certid.go), for
    blocks of any length, and what single-character and transposition errors it detects. */
module Luhn {
  import opened Base32

  /** What a digit adds to the sum: itself, or the digit sum of its double. */
  function Addend(doubled: bool, d: Digit): nat {
    if !doubled then d else if d < 16 then 2 * d else 2 * d - 31
  }

  lemma AddendIsDigitSum(doubled: bool, d: Digit)
    ensures var addend: int := if doubled then 2 * d else d;
            Addend(doubled, d) == addend / 32 + addend % 32
  {
  }

  /** The rightmost digit counts once, and doubling alternates to the left. */
  predicate Doubled(fromRight: nat) {
    fromRight % 2 == 1
  }

  function LuhnSum(s: seq<Digit>): nat {
    if s == [] then 0 else Addend(Doubled(|s| - 1), s[0]) + LuhnSum(s[1..])
  }

  function CheckDigit(s: seq<Digit>): Digit {
    Check(LuhnSum(s))
  }

  function Check(sum: nat): Digit {
    (32 - sum % 32) % 32
  }

  function CheckChar(s: string): char
    requires InAlphabet(s)
  {
    CharOf(CheckDigit(Codes(s)))
  }

  method AlphabetIndex(c: char) returns (i: int)
    ensures i == if IsBase32(c) then CodePoint(c) else -1
  {
    AlphabetSearch(c);
    i := IndexByte(ALPHABET, c);
  }

  method AlphabetChar(d: Digit) returns (c: char)
    ensures c == CharOf(d)
  {
    AlphabetTable(d);
    c := ALPHABET[d];
  }

  // --- The loop, for any string ---

  /** What the search in the alphabet gives for c: its value, or -1. */
  function Score(c: char): (v: int)
    ensures -1 <= v < 32
  {
    if IsBase32(c) then CodePoint(c) else -1
  }

  /** Go's division and remainder round towards zero, so a negative product is its own digit sum. */
  function Weighted(doubled: bool, v: int): int
    requires -1 <= v < 32
  {
    if v >= 0 then Addend(doubled, v) else if doubled then -2 else -1
  }

  function ScoreSum(s: string): int {
    if s == "" then 0 else Weighted(Doubled(|s| - 1), Score(s[0])) + ScoreSum(s[1..])
  }

  function ScoreCheck(sum: int): Digit {
    -sum % 32
  }

  function TruncDiv(a: int, b: int): int
    requires b > 0
  {
    if a >= 0 then a / b else -(-a / b)
  }

  function TruncMod(a: int, b: int): int
    requires b > 0
  {
    a - TruncDiv(a, b) * b
  }

  lemma WeightedByFactor(factor: int, v: int)
    requires (factor == 1 || factor == 2) && -1 <= v < 32
    ensures var addend := factor * v; TruncDiv(addend, 32) + TruncMod(addend, 32) == Weighted(factor == 2, v)
  {
    if v >= 0 {
      AddendIsDigitSum(factor == 2, v);
    }
  }

  lemma CheckByRemainder(sum: int)
    ensures TruncMod(32 - TruncMod(sum, 32), 32) == -sum % 32
  {
    var q := TruncDiv(sum, 32);
    assert TruncMod(sum, 32) == sum - 32 * q;
    assert -sum % 32 == (32 - (sum - 32 * q)) % 32 by {
      SameResidue(-sum, 32 - (sum - 32 * q), 1 + q);
    }
  }

  lemma SameResidue(a: int, b: int, k: int)
    requires b == a + 32 * k
    ensures a % 32 == b % 32
  {
    assert b == 32 * (a / 32 + k) + a % 32;
  }

  lemma {:induction false} ScoresOfDigits(s: string)
    requires InAlphabet(s)
    ensures ScoreSum(s) == LuhnSum(Codes(s))
  {
    if s != "" {
      assert Codes(s)[1..] == Codes(s[1..]);
      ScoresOfDigits(s[1..]);
    }
  }

  /** Characters outside the alphabet count as -1. */
  method Luhn32(s: string) returns (check: char)
    ensures check == CharOf(ScoreCheck(ScoreSum(s)))
    ensures InAlphabet(s) ==> check == CheckChar(s)
  {
    var factor, sum := 1, 0;
    var i := |s| - 1;
    while i >= 0
      invariant -1 <= i < |s|
      invariant factor == if Doubled(|s| - 1 - i) then 2 else 1
      invariant sum == ScoreSum(s[i + 1..])
    {
      ScoreFrom(s, i);
      DoublingAlternates(|s| - 1 - i);
      var addend := AddendOf(factor, s[i]);
      factor := if factor == 2 then 1 else 2;
      sum := sum + addend;
      i := i - 1;
    }
    assert s[0..] == s;
    check := CheckOf(s, sum);
  }

  method AddendOf(factor: int, c: char) returns (addend: int)
    requires factor == 1 || factor == 2
    ensures addend == Weighted(factor == 2, Score(c))
  {
    var codePoint := AlphabetIndex(c);
    WeightedByFactor(factor, codePoint);
    addend := factor * codePoint;
    addend := TruncDiv(addend, 32) + TruncMod(addend, 32);
  }

  method CheckOf(s: string, sum: int) returns (check: char)
    requires sum == ScoreSum(s)
    ensures check == CharOf(ScoreCheck(ScoreSum(s)))
    ensures InAlphabet(s) ==> check == CheckChar(s)
  {
    if InAlphabet(s) {
      ScoresOfDigits(s);
      CheckIsNegation(sum);
    }
    CheckByRemainder(sum);
    var remainder := TruncMod(sum, 32);
    check := AlphabetChar(TruncMod(32 - remainder, 32));
  }

  lemma ScoreFrom(s: string, i: nat)
    requires i < |s|
    ensures ScoreSum(s[i..]) == Weighted(Doubled(|s| - 1 - i), Score(s[i])) + ScoreSum(s[i + 1..])
  {
    assert s[i..][1..] == s[i + 1..];
  }

  lemma DoublingAlternates(fromRight: nat)
    ensures Doubled(fromRight + 1) == !Doubled(fromRight)
  {
  }

  lemma CheckIsNegation(sum: int)
    requires sum >= 0
    ensures Check(sum) == ScoreCheck(sum)
  {
    SameResidue(-sum, 32 - sum % 32, 1 + sum / 32);
  }

  /** The check digit makes the total a multiple of 32. */
  lemma CheckDigitBalances(s: seq<Digit>)
    ensures (LuhnSum(s) + CheckDigit(s)) % 32 == 0
  {
    CheckBalances(LuhnSum(s));
  }

  lemma CheckBalances(sum: nat)
    ensures (sum + Check(sum)) % 32 == 0
  {
    var total: int := sum + Check(sum);
    assert sum == sum / 32 * 32 + sum % 32;
    assert total == sum / 32 * 32 || total == (sum / 32 + 1) * 32;
  }

  // --- Which digit has which weight ---

  /** What the digit at distance fromRight from the right end counts: itself at the end and at every second place from
      there, and the digit sum of its double in between. */
  function Counts(fromRight: nat, d: Digit): int {
    if fromRight % 2 == 0 then d else 2 * d / 32 + 2 * d % 32
  }

  /** Replacing the digit at k by 0 raises the check digit by what that digit counts. */
  lemma PlaceCounts(s: seq<Digit>, k: nat)
    requires k < |s|
    ensures (CheckDigit(s) + Counts(|s| - 1 - k, s[k])) % 32 == CheckDigit(s[k := 0])
  {
    SumAfterChange(s, k, 0);
    AddendIsDigitSum(Doubled(|s| - 1 - k), s[k]);
    var counts := Counts(|s| - 1 - k, s[k]);
    var sum, without := LuhnSum(s), LuhnSum(s[k := 0]);
    assert sum == without + counts;
    CheckShifts(sum, without, counts);
  }

  lemma CheckShifts(sum: int, without: int, counts: int)
    requires sum >= 0 && without >= 0 && sum == without + counts
    ensures (Check(sum) + counts) % 32 == Check(without)
  {
    CheckIsNegation(sum);
    CheckIsNegation(without);
    var check: int := Check(sum);
    assert check == -sum - 32 * (-sum / 32);
    SameResidue(-without, check + counts, -(-sum / 32));
  }

  /** So the last digit of a block counts once, and the one before it counts as its double. */
  lemma LastDigitsCount(s: seq<Digit>, d: Digit, e: Digit)
    ensures (CheckDigit(s + [e]) + e) % 32 == CheckDigit(s + [0])
    ensures (CheckDigit(s + [d, e]) + 2 * d / 32 + 2 * d % 32) % 32 == CheckDigit(s + [0, e])
  {
    PlaceCounts(s + [e], |s|);
    assert (s + [e])[|s| := 0] == s + [0];
    PlaceCounts(s + [d, e], |s|);
    assert (s + [d, e])[|s| := 0] == s + [0, e];
  }

  /** Both weights permute the digits modulo 32. */
  lemma AddendInjective(doubled: bool, c: Digit, d: Digit)
    ensures Addend(doubled, c) % 32 == Addend(doubled, d) % 32 <==> c == d
  {
  }

  lemma {:induction false} SumAfterChange(s: seq<Digit>, k: nat, d: Digit)
    requires k < |s|
    ensures LuhnSum(s[k := d]) - LuhnSum(s) == Addend(Doubled(|s| - 1 - k), d) - Addend(Doubled(|s| - 1 - k), s[k])
    decreases |s|
  {
    if k == 0 {
      assert s[0 := d][1..] == s[1..];
    } else {
      assert s[k := d][1..] == s[1..][k - 1 := d];
      SumAfterChange(s[1..], k - 1, d);
    }
  }

  lemma DifferenceModulo(a: int, b: int)
    ensures (a - b) % 32 == 0 <==> a % 32 == b % 32
  {
    assert a == a / 32 * 32 + a % 32 && b == b / 32 * 32 + b % 32;
  }

  lemma CheckCollides(a: nat, b: nat)
    ensures Check(a) == Check(b) <==> (a - b) % 32 == 0
  {
    DifferenceModulo(a, b);
    assert Check(a) == if a % 32 == 0 then 0 else 32 - a % 32;
    assert Check(b) == if b % 32 == 0 then 0 else 32 - b % 32;
  }

  /** Equal check digits mean sums equal modulo 32. */
  lemma SameCheckDigit(s: seq<Digit>, t: seq<Digit>)
    ensures CheckDigit(s) == CheckDigit(t) <==> (LuhnSum(s) - LuhnSum(t)) % 32 == 0
  {
    CheckCollides(LuhnSum(s), LuhnSum(t));
  }

  /** Changing any one character of a block always changes its check character. */
  lemma SingleErrorDetected(s: seq<Digit>, k: nat, d: Digit)
    requires k < |s|
    ensures CheckDigit(s[k := d]) == CheckDigit(s) <==> d == s[k]
  {
    var f := Doubled(|s| - 1 - k);
    SumAfterChange(s, k, d);
    SameCheckDigit(s[k := d], s);
    AddendInjective(f, d, s[k]);
    DifferenceModulo(Addend(f, d), Addend(f, s[k]));
  }

  function Transposed(s: seq<Digit>, k: nat): seq<Digit>
    requires k + 1 < |s|
  {
    s[k := s[k + 1]][k + 1 := s[k]]
  }

  /** Swapping two neighbours goes unnoticed only when they are equal or are exactly 0 and 31, that is the
      characters 'A' and '7'. */
  lemma TranspositionDetected(s: seq<Digit>, k: nat)
    requires k + 1 < |s|
    ensures CheckDigit(Transposed(s, k)) == CheckDigit(s) <==> s[k] == s[k + 1] || {s[k], s[k + 1]} == {0, 31}
    ensures CharOf(0) == 'A' && CharOf(31) == '7'
  {
    var c, d := s[k], s[k + 1];
    SumAfterTransposition(s, k);
    SameCheckDigit(Transposed(s, k), s);
    ExcessCollides(c, d);
    DifferenceModulo(0, Excess(d) - Excess(c));
  }

  /** How much more a digit adds at weight 2 than at weight 1. */
  function Excess(d: Digit): int {
    if d < 16 then d else d - 31
  }

  lemma SumAfterTransposition(s: seq<Digit>, k: nat)
    requires k + 1 < |s|
    ensures var change := LuhnSum(Transposed(s, k)) - LuhnSum(s);
            var shift := Excess(s[k]) - Excess(s[k + 1]);
            change == shift || change == -shift
  {
    var c, d, near := s[k], s[k + 1], Doubled(|s| - 2 - k);
    assert Doubled(|s| - 1 - k) == !near;
    SumAfterTwoChanges(s, k, d, c);
    ExchangedAddends(near, c, d);
  }

  lemma ExchangedAddends(near: bool, c: Digit, d: Digit)
    ensures var change := Addend(!near, d) - Addend(!near, c) + Addend(near, c) - Addend(near, d);
            change == if near then Excess(c) - Excess(d) else Excess(d) - Excess(c)
  {
  }

  lemma SumAfterTwoChanges(s: seq<Digit>, k: nat, x: Digit, y: Digit)
    requires k + 1 < |s|
    ensures LuhnSum(s[k := x][k + 1 := y]) - LuhnSum(s)
            == Addend(Doubled(|s| - 1 - k), x) - Addend(Doubled(|s| - 1 - k), s[k])
             + Addend(Doubled(|s| - 2 - k), y) - Addend(Doubled(|s| - 2 - k), s[k + 1])
  {
    SumAfterChange(s, k, x);
    SumAfterChange(s[k := x], k + 1, y);
  }

  lemma ExcessCollides(c: Digit, d: Digit)
    ensures (Excess(d) - Excess(c)) % 32 == 0 <==> c == d || {c, d} == {0, 31}
    ensures (Excess(c) - Excess(d)) % 32 == 0 <==> (Excess(d) - Excess(c)) % 32 == 0
  {
    var change := Excess(d) - Excess(c);
    assert -30 <= change <= 30;
    assert {0, 31} == {31, 0};
    if {c, d} == {0, 31} {
      assert c in {0, 31} && d in {0, 31} && 0 in {c, d} && 31 in {c, d};
    }
  }

  /** The block with its check character after every 13 characters. */
  function Luhnified(s: string): (r: string)
    requires |s| % 13 == 0 && InAlphabet(s)
    ensures |r| == |s| / 13 * 14 && InAlphabet(r)
  {
    if s == "" then "" else
    s[..13] + [CheckChar(s[..13])] + Luhnified(s[13..])
  }

  lemma LuhnifiedSplit(s: string, i: nat, b: string, whole: string)
    requires i < 4 && |s| == 52 && InAlphabet(s)
    requires b + Luhnified(s[i * 13..]) == whole
    ensures var chunk := s[i * 13..(i + 1) * 13];
            InAlphabet(chunk) && b + (chunk + [CheckChar(chunk)]) + Luhnified(s[(i + 1) * 13..]) == whole
  {
    var rest := s[i * 13..];
    assert s[i * 13..(i + 1) * 13] == rest[..13] && s[(i + 1) * 13..] == rest[13..];
  }

  method Luhnify(s: string) returns (b: string)
    requires |s| == 52 && InAlphabet(s)
    ensures b == Luhnified(s)
  {
    b := "";
    for i := 0 to 4
      invariant b + Luhnified(s[i * 13..]) == Luhnified(s)
    {
      LuhnifiedSplit(s, i, b, Luhnified(s));
      var chunk := s[i * 13..(i + 1) * 13];
      var check := Luhn32(chunk);
      b := b + (chunk + [check]);
    }
  }
}
