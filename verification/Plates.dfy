/** Plate normalisation and look-alike correction (backend/app/alpr/utils.py). */
module Plates {

  const DIGIT_TO_LETTER: map<char, char> := map[
    '0' := 'D', '1' := 'T', '2' := 'Z', '3' := 'B', '4' := 'A',
    '5' := 'S', '6' := 'G', '7' := 'T', '8' := 'B', '9' := 'G']

  const LETTER_TO_DIGIT: map<char, char> := map[
    'A' := '4', 'B' := '8', 'C' := '0', 'D' := '0', 'E' := '3', 'G' := '6', 'I' := '1',
    'L' := '1', 'O' := '0', 'Q' := '0', 'S' := '5', 'T' := '7', 'U' := '0', 'Z' := '2']

  const KNOWN_TWO_LETTER_SERIES: set<string> :=
    {"LD", "DA", "MK", "MD", "ME", "CD", "NG", "NN", "KT"}

  predicate IsDigit(c: char) { '0' <= c <= '9' }

  predicate IsLetter(c: char) { 'A' <= c <= 'Z' }

  predicate IsPlateChar(c: char) { IsDigit(c) || IsLetter(c) }

  /** A string of capital letters and digits only. */
  predicate IsClean(s: string) { forall i :: 0 <= i < |s| ==> IsPlateChar(s[i]) }

  /** Upper-casing works character by character; one character may become several. */
  type CaseMap = char -> string

  ghost predicate FixesPlateChars(upper: CaseMap) {
    forall c :: IsPlateChar(c) ==> upper(c) == [c]
  }

  function Upper(upper: CaseMap, s: string): string {
    if s == "" then "" else upper(s[0]) + Upper(upper, s[1..])
  }

  lemma {:induction false} UpperOfClean(upper: CaseMap, s: string)
    requires FixesPlateChars(upper) && IsClean(s)
    ensures Upper(upper, s) == s
  {
    if s != "" {
      UpperOfClean(upper, s[1..]);
    }
  }

  function KeepPlateChars(s: string): (r: string)
    ensures IsClean(r)
  {
    if s == "" then ""
    else (if IsPlateChar(s[0]) then [s[0]] else "") + KeepPlateChars(s[1..])
  }

  lemma {:induction false} KeepPlateCharsOfClean(s: string)
    requires IsClean(s)
    ensures KeepPlateChars(s) == s
  {
    if s != "" {
      KeepPlateCharsOfClean(s[1..]);
    }
  }

  function ToDigit(c: char): char {
    if !IsDigit(c) && c in LETTER_TO_DIGIT then LETTER_TO_DIGIT[c] else c
  }

  function ToLetter(c: char): char {
    if IsDigit(c) && c in DIGIT_TO_LETTER then DIGIT_TO_LETTER[c] else c
  }

  /** Which characters count as letters: on arbitrary strings these are not only the plate letters. */
  type Alphabet = char -> bool

  ghost predicate AgreesOnPlateChars(isAlpha: Alphabet) {
    forall c :: IsPlateChar(c) ==> (isAlpha(c) <==> IsLetter(c))
  }

  /** Where the serial number of a plate starts, given its series letter and the character after. */
  function SerialStart(isAlpha: Alphabet, n: nat, series: char, next: char): nat {
    if n == 7 then 3
    else if n == 8 then
      if [series, next] in KNOWN_TWO_LETTER_SERIES || (isAlpha(series) && isAlpha(next)) then 4 else 3
    else 4
  }

  predicate Correctable(s: string) { 7 <= |s| <= 9 }

  /** What correction leaves at each position of a plate of 7 to 9 characters. */
  function CorrectedAt(isAlpha: Alphabet, s: string, i: nat): char
    requires Correctable(s) && i < |s|
  {
    if i < 2 || i >= SerialStart(isAlpha, |s|, ToLetter(s[2]), s[3]) then ToDigit(s[i])
    else if i == 2 then ToLetter(s[i])
    else s[i]
  }

  function CorrectWith(isAlpha: Alphabet, s: string): string {
    if Correctable(s) then seq(|s|, i requires 0 <= i < |s| => CorrectedAt(isAlpha, s, i)) else s
  }

  function Correct(s: string): string { CorrectWith(IsLetter, s) }

  /** On cleaned strings only the plate letters matter. */
  lemma CorrectOfClean(isAlpha: Alphabet, s: string)
    requires AgreesOnPlateChars(isAlpha) && IsClean(s)
    ensures CorrectWith(isAlpha, s) == Correct(s)
  {
    if Correctable(s) {
      assert IsPlateChar(s[2]) && IsPlateChar(ToLetter(s[2])) && IsPlateChar(s[3]);
    }
  }

  /** The correction pass, which rewrites a list of characters in place. */
  method CorrectVietnamesePlate(isAlpha: Alphabet, cleaned: string) returns (r: string)
    requires AgreesOnPlateChars(isAlpha)
    ensures r == CorrectWith(isAlpha, cleaned)
    ensures IsClean(cleaned) ==> r == Correct(cleaned)
  {
    var n := |cleaned|;
    if IsClean(cleaned) {
      CorrectOfClean(isAlpha, cleaned);
    }
    if n !in {7, 8, 9} {
      return cleaned;
    }
    var chars := new char[n](i requires 0 <= i < n => cleaned[i]);
    for i := 0 to 2
      invariant forall k :: 0 <= k < n ==> chars[k] == if k < i then ToDigit(cleaned[k]) else cleaned[k]
    {
      if !IsDigit(chars[i]) && chars[i] in LETTER_TO_DIGIT {
        chars[i] := LETTER_TO_DIGIT[chars[i]];
      }
    }
    if IsDigit(chars[2]) && chars[2] in DIGIT_TO_LETTER {
      chars[2] := DIGIT_TO_LETTER[chars[2]];
    }
    var start;
    if n == 7 {
      start := 3;
    } else if n == 8 {
      var seriesTwo := [chars[2], chars[3]];
      if seriesTwo in KNOWN_TWO_LETTER_SERIES
         || (isAlpha(chars[2]) && isAlpha(chars[3]) && !IsDigit(chars[3])) {
        start := 4;
      } else {
        start := 3;
      }
    } else {
      start := 4;
    }
    for i := start to n
      invariant forall k :: 0 <= k < n ==>
                  chars[k] == (if k < 2 || start <= k < i then ToDigit(cleaned[k])
                               else if k == 2 then ToLetter(cleaned[k])
                               else cleaned[k])
    {
      if !IsDigit(chars[i]) && chars[i] in LETTER_TO_DIGIT {
        chars[i] := LETTER_TO_DIGIT[chars[i]];
      }
    }
    r := chars[..];
  }

  function NormalizePlate(upper: CaseMap, plate: string): string {
    Correct(KeepPlateChars(Upper(upper, plate)))
  }

  lemma CorrectKeepsClean(s: string)
    requires IsClean(s)
    ensures IsClean(Correct(s)) && |Correct(s)| == |s|
  {
  }

  lemma NoLookAlikeLeft(c: char)
    ensures ToDigit(c) !in LETTER_TO_DIGIT
  {
    if c in LETTER_TO_DIGIT {
      assert IsDigit(LETTER_TO_DIGIT[c]);
    }
  }

  /** The series position is a letter afterwards, and no character that correction reads as a
      digit still has a digit look-alike. */
  lemma CorrectedShape(s: string)
    requires IsClean(s) && Correctable(s)
    ensures IsLetter(Correct(s)[2])
    ensures forall i :: 0 <= i < |s| && (i < 2 || i > 3) ==> Correct(s)[i] !in LETTER_TO_DIGIT
    ensures Correct(s)[3] in LETTER_TO_DIGIT ==> |s| == 9 || (|s| == 8 && IsLetter(s[3]))
  {
    forall i | 0 <= i < |s| && i != 2
      ensures ToDigit(s[i]) !in LETTER_TO_DIGIT
    {
      NoLookAlikeLeft(s[i]);
    }
    var r := Correct(s);
    assert r[2] == CorrectedAt(IsLetter, s, 2) && r[3] == CorrectedAt(IsLetter, s, 3);
    assert forall i :: 0 <= i < |s| && (i < 2 || i > 3) ==> r[i] == ToDigit(s[i]);
  }

  /** The characters that look alike, pair by pair: letters read as digits, and digits read as letters. */
  const LETTERS := "ABCDEGILOQSTUZ"
  const THEIR_DIGITS := "48003611005702"
  const DIGITS := "0123456789"
  const THEIR_LETTERS := "DTZBASGTBG"

  /** Where a plate has digits, each letter is read as the digit it looks like and every other character
      stays; in the series, each digit is read as the letter it looks like and every other one stays. */
  lemma LookAlikesAreRead(s: string, i: nat)
    requires Correctable(s) && i < |s|
    ensures i < 2 || i > 3 ==>
              && (forall j :: 0 <= j < 14 && s[i] == LETTERS[j] ==> Correct(s)[i] == THEIR_DIGITS[j])
              && (s[i] !in LETTERS ==> Correct(s)[i] == s[i])
    ensures i == 2 ==>
              && (forall j :: 0 <= j < 10 && s[i] == DIGITS[j] ==> Correct(s)[i] == THEIR_LETTERS[j])
              && (s[i] !in DIGITS ==> Correct(s)[i] == s[i])
  {
    hide SerialStart;
    assert SerialStart(IsLetter, |s|, ToLetter(s[2]), s[3]) in {3, 4} by {
      SerialStartIs(IsLetter, |s|, ToLetter(s[2]), s[3]);
    }
    ReadAsDigit(s[i]);
    ReadAsLetter(s[i]);
  }

  lemma ReadAsDigit(c: char)
    ensures forall j :: 0 <= j < 14 && c == LETTERS[j] ==> ToDigit(c) == THEIR_DIGITS[j]
    ensures c !in LETTERS ==> ToDigit(c) == c
  {
    assert LETTERS[0] == 'A' && LETTERS[1] == 'B' && LETTERS[2] == 'C' && LETTERS[3] == 'D' && LETTERS[4] == 'E';
    assert LETTERS[5] == 'G' && LETTERS[6] == 'I' && LETTERS[7] == 'L' && LETTERS[8] == 'O' && LETTERS[9] == 'Q';
    assert LETTERS[10] == 'S' && LETTERS[11] == 'T' && LETTERS[12] == 'U' && LETTERS[13] == 'Z';
  }

  lemma ReadAsLetter(c: char)
    ensures forall j :: 0 <= j < 10 && c == DIGITS[j] ==> ToLetter(c) == THEIR_LETTERS[j]
    ensures c !in DIGITS ==> ToLetter(c) == c
  {
    assert DIGITS[0] == '0' && DIGITS[1] == '1' && DIGITS[2] == '2' && DIGITS[3] == '3' && DIGITS[4] == '4';
    assert DIGITS[5] == '5' && DIGITS[6] == '6' && DIGITS[7] == '7' && DIGITS[8] == '8' && DIGITS[9] == '9';
  }

  /** A digit read as a letter and back is itself again, except for 1, 3 and 9. */
  lemma ReadThereAndBack(c: char)
    requires IsDigit(c)
    ensures ToDigit(ToLetter(c)) == c <==> c !in {'1', '3', '9'}
  {
  }

  /** The character after the series is a digit of the serial number, and read as one, in plates of seven and
      in those of eight unless it belongs to a series of two letters; in plates of nine it stays. */
  lemma SecondOfSeries(s: string)
    requires IsClean(s) && Correctable(s)
    ensures Correct(s)[3] == if |s| == 7 || (|s| == 8 && !(IsLetter(Correct(s)[2]) && IsLetter(s[3])))
                             then ToDigit(s[3]) else s[3]
  {
    assert Correct(s)[2] == ToLetter(s[2]) && IsPlateChar(s[2]);
    assert forall x :: x in KNOWN_TWO_LETTER_SERIES ==> IsLetter(x[0]) && IsLetter(x[1]);
    assert [ToLetter(s[2]), s[3]][1] == s[3];
  }

  lemma CorrectsTo(s: string, r: string)
    requires Correctable(s) && |r| == |s| && forall i :: 0 <= i < |s| ==> CorrectedAt(IsLetter, s, i) == r[i]
    ensures Correct(s) == r
  {
  }

  /** Plates of each length, with look-alikes in each place. */
  lemma CorrectedPlates()
    ensures Correct("29812345") == "29B12345" && Correct("S1A12345") == "51A12345"
    ensures Correct("298123D") == "29B1230" && Correct("29LD123B") == "29LD1238"
    ensures Correct("29A11234S") == "29A112345" && Correct("O1I0") == "O1I0"
  {
    CorrectsTo("29812345", "29B12345");
    CorrectsTo("S1A12345", "51A12345");
    CorrectsTo("298123D", "29B1230");
    CorrectsTo("29LD123B", "29LD1238");
    CorrectsTo("29A11234S", "29A112345");
  }

  lemma CorrectedTwice(c: char)
    ensures ToDigit(ToDigit(c)) == ToDigit(c) && ToLetter(ToLetter(c)) == ToLetter(c)
    ensures ToDigit(c) != c ==> IsDigit(ToDigit(c))
  {
    if c in LETTER_TO_DIGIT {
      assert IsDigit(LETTER_TO_DIGIT[c]);
    }
    if c in DIGIT_TO_LETTER {
      assert IsLetter(DIGIT_TO_LETTER[c]);
    }
  }

  /** Reading the character after the series as a digit does not move the serial number. */
  lemma SerialStaysPut(isAlpha: Alphabet, n: nat, series: char, next: char)
    requires AgreesOnPlateChars(isAlpha) && SerialStart(isAlpha, n, series, next) == 3
    ensures SerialStart(isAlpha, n, series, ToDigit(next)) == 3
  {
    hide ToDigit;
    CorrectedTwice(next);
    if ToDigit(next) != next {
      var d := ToDigit(next);
      assert IsPlateChar(d) && !IsLetter(d);
      assert forall x :: x in KNOWN_TWO_LETTER_SERIES ==> IsLetter(x[1]);
      assert [series, d][1] == d;
    }
  }

  /** Correcting twice is correcting once, for all strings and whatever else counts as a letter. */
  lemma CorrectIsIdempotent(isAlpha: Alphabet, s: string)
    requires AgreesOnPlateChars(isAlpha)
    ensures CorrectWith(isAlpha, CorrectWith(isAlpha, s)) == CorrectWith(isAlpha, s)
  {
    hide ToDigit, ToLetter, SerialStart;
    var r := CorrectWith(isAlpha, s);
    if Correctable(s) {
      var start := SerialStart(isAlpha, |s|, ToLetter(s[2]), s[3]);
      CorrectedTwice(s[2]);
      SerialStartIs(isAlpha, |s|, ToLetter(s[2]), s[3]);
      if start == 3 {
        SerialStaysPut(isAlpha, |s|, ToLetter(s[2]), s[3]);
      }
      forall i | 0 <= i < |s| ensures CorrectedAt(isAlpha, r, i) == r[i] {
        CorrectedTwice(s[i]);
      }
    }
  }

  lemma SerialStartIs(isAlpha: Alphabet, n: nat, series: char, next: char)
    ensures SerialStart(isAlpha, n, series, next) in {3, 4}
  {
  }

  /** A stored plate normalises to itself, so the key looked up at check-out is the key stored at
      check-in. */
  lemma NormalizeIsIdempotent(upper: CaseMap, plate: string)
    requires FixesPlateChars(upper)
    ensures NormalizePlate(upper, NormalizePlate(upper, plate)) == NormalizePlate(upper, plate)
    ensures IsClean(NormalizePlate(upper, plate))
  {
    var cleaned := KeepPlateChars(Upper(upper, plate));
    CorrectKeepsClean(cleaned);
    UpperOfClean(upper, Correct(cleaned));
    KeepPlateCharsOfClean(Correct(cleaned));
    CorrectIsIdempotent(IsLetter, cleaned);
  }
}
