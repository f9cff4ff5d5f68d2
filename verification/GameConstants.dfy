/** Suits and values as text, and back (src/Core/GameConstants.cpp). */
module GameConstants {
  import opened Options
  import opened Cards

  function SuitToString(s: Suit): string {
    match s
    case Circle => "CIRCLE"
    case Triangle => "TRIANGLE"
    case Cross => "CROSS"
    case Block => "BLOCK"
    case Star => "STAR"
    case Whot => "WHOT"
  }

  function StringToSuit(s: string): Suit {
    if s == "CIRCLE" then Circle
    else if s == "TRIANGLE" then Triangle
    else if s == "CROSS" then Cross
    else if s == "BLOCK" then Block
    else if s == "STAR" then Star
    else if s == "WHOT" then Whot
    else Circle
  }

  lemma SuitTextRoundTrip(s: Suit)
    ensures StringToSuit(SuitToString(s)) == s
  {
    var names := ["CIRCLE", "TRIANGLE", "CROSS", "BLOCK", "STAR", "WHOT"];
    assert |names[0]| == 6 && |names[1]| == 8 && |names[2]| == 5 && |names[3]| == 5;
    assert names[2][0] == 'C' && names[3][0] == 'B' && names[4][0] == 'S' && names[5][0] == 'W';
  }

  /** Any other text counts as Circle. */
  lemma SuitTexts(s: string)
    ensures SuitToString(Circle) == "CIRCLE" && SuitToString(Triangle) == "TRIANGLE" && SuitToString(Cross) == "CROSS"
    ensures SuitToString(Block) == "BLOCK" && SuitToString(Star) == "STAR" && SuitToString(Whot) == "WHOT"
    ensures s !in {"CIRCLE", "TRIANGLE", "CROSS", "BLOCK", "STAR", "WHOT"} ==> StringToSuit(s) == Circle
  {
  }

  // ---------- Decimal text ----------

  function Digit(d: nat): char
    requires d < 10
  {
    '0' + d as char
  }

  predicate IsDigit(c: char) { '0' <= c <= '9' }

  function DigitValue(c: char): nat
    requires IsDigit(c)
  {
    c as int - '0' as int
  }

  /** Decimal digits of a number, without leading zeros. */
  function ToDecimal(n: nat): (s: string)
    ensures s != [] && forall i :: 0 <= i < |s| ==> IsDigit(s[i])
  {
    if n < 10 then [Digit(n)] else ToDecimal(n / 10) + [Digit(n % 10)]
  }

  /** The leading digits of a text, read after acc. */
  function ReadDigits(s: string, acc: nat): nat {
    if s == [] || !IsDigit(s[0]) then acc else ReadDigits(s[1..], 10 * acc + DigitValue(s[0]))
  }

  lemma {:induction false} ReadDigitsAppend(a: string, b: string, acc: nat)
    requires forall i :: 0 <= i < |a| ==> IsDigit(a[i])
    ensures ReadDigits(a + b, acc) == ReadDigits(b, ReadDigits(a, acc))
  {
    if a == [] {
      assert a + b == b;
    } else {
      assert (a + b)[1..] == a[1..] + b;
      ReadDigitsAppend(a[1..], b, 10 * acc + DigitValue(a[0]));
    }
  }

  lemma {:induction false} DecimalRoundTrip(n: nat)
    ensures ReadDigits(ToDecimal(n), 0) == n
  {
    if n < 10 {
      assert ToDecimal(n)[1..] == [];
    } else {
      DecimalRoundTrip(n / 10);
      ReadDigitsAppend(ToDecimal(n / 10), [Digit(n % 10)], 0);
      assert [Digit(n % 10)][1..] == [];
    }
  }

  predicate IsSpace(c: char) { c == ' ' || '\t' <= c <= '\r' }

  function SkipSpaces(s: string): string {
    if s != [] && IsSpace(s[0]) then SkipSpaces(s[1..]) else s
  }

  /** std::stoi: blanks, a sign, digits; anything after them is ignored. None when it throws. */
  function Stoi(s: string): Option<int> {
    var t := SkipSpaces(s);
    var negative := t != [] && t[0] == '-';
    var u := if t != [] && (t[0] == '-' || t[0] == '+') then t[1..] else t;
    if u == [] || !IsDigit(u[0]) then None
    else
      var n: int := ReadDigits(u, 0);
      var signed := if negative then -n else n;
      if -0x8000_0000 <= signed < 0x8000_0000 then Some(signed) else None
  }

  lemma StoiReadsDecimal(n: nat)
    requires n < 0x8000_0000
    ensures Stoi(ToDecimal(n)) == Some(n)
  {
    DecimalRoundTrip(n);
    assert IsDigit(ToDecimal(n)[0]);
  }

  // ---------- Card values ----------

  function CardValueToString(v: CardValue): string { ToDecimal(Number(v)) }

  /** The named values, for readability. */
  function NamedValue(s: string): Option<CardValue> {
    if s == "ONE" then Some(One)
    else if s == "TWO" then Some(Two)
    else if s == "THREE" then Some(Three)
    else if s == "FOUR" then Some(Four)
    else if s == "FIVE" then Some(Five)
    else if s == "SEVEN" then Some(Seven)
    else if s == "EIGHT" then Some(Eight)
    else if s == "TEN" then Some(Ten)
    else if s == "ELEVEN" then Some(Eleven)
    else if s == "TWELVE" then Some(Twelve)
    else if s == "THIRTEEN" then Some(Thirteen)
    else if s == "FOURTEEN" then Some(Fourteen)
    else if s == "TWENTY" then Some(Twenty)
    else None
  }

  function StringToCardValue(s: string): CardValue {
    if NamedValue(s).Some? then NamedValue(s).value
    else
      var n := Stoi(s);
      if n.Some? && LegalNumber(n.value) then ValueOf(n.value) else One
  }

  lemma NamesAreNotNumbers(s: string)
    requires s != [] && IsDigit(s[0])
    ensures NamedValue(s) == None
  {
    assert !IsDigit('O') && !IsDigit('T') && !IsDigit('F') && !IsDigit('S') && !IsDigit('E');
  }

  /** The named values are read as named, and a text that is neither a name nor a legal number as One. */
  lemma ValueTexts(s: string)
    ensures StringToCardValue("ONE") == One && StringToCardValue("TWO") == Two
    ensures StringToCardValue("THREE") == Three && StringToCardValue("FOUR") == Four
    ensures StringToCardValue("FIVE") == Five && StringToCardValue("SEVEN") == Seven
    ensures StringToCardValue("EIGHT") == Eight && StringToCardValue("TEN") == Ten
    ensures StringToCardValue("ELEVEN") == Eleven && StringToCardValue("TWELVE") == Twelve
    ensures StringToCardValue("THIRTEEN") == Thirteen && StringToCardValue("FOURTEEN") == Fourteen
    ensures StringToCardValue("TWENTY") == Twenty
    ensures NamedValue(s).None? && Stoi(s).None? ==> StringToCardValue(s) == One
    ensures NamedValue(s).None? && Stoi(s).Some? && Stoi(s).value !in {1, 2, 3, 4, 5, 7, 8, 10, 11, 12, 13, 14, 20}
      ==> StringToCardValue(s) == One
  {
    hide Stoi;
    NamesDiffer();
  }

  /** The names are told apart by their length and first letters. */
  lemma NamesDiffer()
    ensures |"ONE"| == |"TWO"| == |"TEN"| == 3 && |"FOUR"| == |"FIVE"| == 4
    ensures |"THREE"| == |"SEVEN"| == |"EIGHT"| == 5 && |"ELEVEN"| == |"TWELVE"| == |"TWENTY"| == 6
    ensures |"THIRTEEN"| == |"FOURTEEN"| == 8
    ensures "ONE"[0] != "TWO"[0] && "TWO"[1] != "TEN"[1] && "ONE"[0] != "TEN"[0]
    ensures "FOUR"[1] != "FIVE"[1] && "THREE"[0] != "SEVEN"[0] && "THREE"[0] != "EIGHT"[0]
    ensures "SEVEN"[0] != "EIGHT"[0] && "ELEVEN"[0] != "TWELVE"[0] && "ELEVEN"[0] != "TWENTY"[0]
    ensures "TWELVE"[3] != "TWENTY"[3] && "THIRTEEN"[0] != "FOURTEEN"[0]
  {
  }

  /** Values are written as their printed numbers. */
  lemma NumberTexts()
    ensures CardValueToString(One) == "1" && CardValueToString(Two) == "2" && CardValueToString(Three) == "3"
    ensures CardValueToString(Four) == "4" && CardValueToString(Five) == "5" && CardValueToString(Seven) == "7"
    ensures CardValueToString(Eight) == "8" && CardValueToString(Ten) == "10" && CardValueToString(Eleven) == "11"
    ensures CardValueToString(Twelve) == "12" && CardValueToString(Thirteen) == "13"
    ensures CardValueToString(Fourteen) == "14" && CardValueToString(Twenty) == "20"
  {
  }

  lemma ValueTextRoundTrip(v: CardValue)
    ensures StringToCardValue(CardValueToString(v)) == v
  {
    var s := CardValueToString(v);
    assert IsDigit(s[0]);
    NamesAreNotNumbers(s);
    StoiReadsDecimal(Number(v));
    assert Number(ValueOf(Number(v))) == Number(v);
  }
}
