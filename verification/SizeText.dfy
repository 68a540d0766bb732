/**
 Sizes as short text: size_str prints a byte count with one of the suffixes k, m and g and
 at most one decimal.  The text loses digits; `Decode` says which size it stands for.
 */
module SizeText {
  import opened Machine

  const NUL := '\0'
  const KILO: nat := 0x400
  const MEGA: nat := 0x10_0000
  const GIGA: nat := 0x4000_0000

  function Base(size: int): nat {
    if size >= GIGA then GIGA else if size >= MEGA then MEGA else if size >= KILO then KILO else 1
  }

  /** The unit is the largest of 1, 1024, 1024^2 and 1024^3 that the size reaches. */
  lemma UnitIs(size: int)
    ensures Base(size) in {1, 1024, 1024 * 1024, 1024 * 1024 * 1024}
    ensures Base(size) > 1 ==> size >= Base(size)
    ensures Base(size) < 1024 * 1024 * 1024 ==> size < 1024 * Base(size)
  {}

  function Suffix(base: nat): char {
    if base == GIGA then 'g' else if base == MEGA then 'm' else if base == KILO then 'k' else NUL
  }

  /** The one decimal, or 0 for none. */
  function Fraction(size: int): (f: nat)
    ensures f < 10
  {
    if size >= 0 && size / Base(size) < 10 then size % Base(size) * 10 / Base(size) else 0
  }

  // ---------------------------------------------------------------- decimal digits

  function Digit(d: nat): char
    requires d < 10
  {
    d as char + '0'
  }

  // %lld of a number that is not negative
  function Digits(n: nat): (s: string)
    ensures s != [] && forall c :: c in s ==> '0' <= c <= '9'
  {
    if n < 10 then [Digit(n)] else Digits(n / 10) + [Digit(n % 10)]
  }

  function Number(s: string): nat {
    if s == [] then 0
    else 10 * Number(s[..|s| - 1]) + if '0' <= s[|s| - 1] <= '9' then (s[|s| - 1] - '0') as nat else 0
  }

  lemma {:induction false} NumberOfDigits(n: nat)
    ensures Number(Digits(n)) == n
    ensures n > 0 ==> Digits(n)[0] != '0'
    ensures n < 10 ==> |Digits(n)| == 1
  {
    if n < 10 {
      assert Digits(n)[..0] == [];
    } else {
      NumberOfDigits(n / 10);
      assert Digits(n)[..|Digits(n)| - 1] == Digits(n / 10);
    }
  }

  // ---------------------------------------------------------------- the text

  function Decimal(f: nat): string
    requires f < 10
  {
    if f > 0 then ['.', Digit(f)] else []
  }

  function Magnitude(base: nat): string { if base == 1 then [] else [Suffix(base)] }

  /** What a reader of the buffer sees. */
  function Text(size: int): string {
    if size < 0 then ['-'] + Digits(-size)
    else Digits(size / Base(size)) + Decimal(Fraction(size)) + Magnitude(Base(size))
  }

  /** The characters the format produces: where there is no suffix, %c produces a NUL. */
  function Produced(size: int): string {
    Text(size) + if Base(size) == 1 then [NUL] else []
  }

  /** The suffix names the unit, and there is a decimal only below ten units, and only if it is
      not 0. */
  lemma TextShape(size: nat)
    ensures size < 1024 ==> Text(size) == Digits(size)
    ensures 1024 <= size < 1024 * 1024 ==> EndsWith(Text(size), 'k')
    ensures 1024 * 1024 <= size < 1024 * 1024 * 1024 ==> EndsWith(Text(size), 'm')
    ensures 1024 * 1024 * 1024 <= size ==> EndsWith(Text(size), 'g')
    ensures '.' in Text(size) <==> size / Base(size) < 10 && size % Base(size) * 10 >= Base(size)
  {
    UnitIs(size);
    var whole := Digits(size / Base(size));
    assert '.' !in whole;
    assert '.' !in Magnitude(Base(size));
    assert Fraction(size) > 0 ==> Decimal(Fraction(size))[0] == '.';
  }

  predicate EndsWith(s: string, c: char) { s != [] && s[|s| - 1] == c }

  // ---------------------------------------------------------------- reading it back

  function SuffixBase(c: char): nat {
    if c == 'g' then GIGA else if c == 'm' then MEGA else if c == 'k' then KILO else 1
  }

  /** The least part of `base` that prints as the decimal `f`. */
  function LeastPart(f: nat, base: nat): nat { (f * base + 9) / 10 }

  function DecodeNumeral(t: string, base: nat): int {
    if |t| >= 2 && t[|t| - 2] == '.'
    then Number(t[..|t| - 2]) * base + LeastPart(Number(t[|t| - 1..]), base)
    else Number(t) * base
  }

  /** The least size with this text. */
  function Decode(s: string): int {
    if s == [] then 0
    else if s[0] == '-' then 0 - Number(s[1..])
    else
      var base := SuffixBase(s[|s| - 1]);
      DecodeNumeral(if base == 1 then s else s[..|s| - 1], base)
  }

  lemma DecodeSplits(t: string, base: nat)
    requires base in {1, KILO, MEGA, GIGA}
    requires t != [] && t[0] != '-' && '0' <= t[|t| - 1] <= '9'
    ensures Decode(t + Magnitude(base)) == DecodeNumeral(t, base)
  {
    var s := t + Magnitude(base);
    if base == 1 {
      assert s == t;
    } else {
      assert s[..|s| - 1] == t && SuffixBase(s[|s| - 1]) == base;
    }
  }

  lemma NumeralSplits(whole: string, f: nat, base: nat)
    requires whole != [] && (forall c :: c in whole ==> '0' <= c <= '9') && f < 10
    ensures DecodeNumeral(whole + Decimal(f), base) == Number(whole) * base + LeastPart(f, base)
  {
    var t := whole + Decimal(f);
    if f > 0 {
      NumberOfDigits(f);
      assert t[..|t| - 2] == whole && t[|t| - 1..] == Digits(f);
    } else {
      assert t == whole;
      assert |t| >= 2 ==> t[|t| - 2] in whole;
    }
  }

  /** The size that the text of `size` stands for. */
  lemma DecodeText(size: nat)
    ensures Decode(Text(size)) == (size / Base(size)) * Base(size) + LeastPart(Fraction(size), Base(size))
  {
    var base, f := Base(size), Fraction(size);
    var whole := Digits(size / base);
    assert whole[0] in whole && whole[|whole| - 1] in whole;
    NumeralSplits(whole, f, base);
    DecodeSplits(whole + Decimal(f), base);
    NumberOfDigits(size / base);
  }

  lemma PartsOf(r: nat, base: nat)
    requires base in {1, KILO, MEGA, GIGA} && r < base
    ensures var f := r * 10 / base; var p := LeastPart(f, base);
      p <= r && p * 10 / base == f && 10 * (r - p) < base
  {}

  /** A size that differs only in the part below the unit stays in its band. */
  lemma SameBand(size: nat, p: nat)
    requires p <= size % Base(size)
    ensures var n := (size / Base(size)) * Base(size) + p;
      n <= size && Base(n) == Base(size) && n / Base(size) == size / Base(size) && n % Base(size) == p
  {
    if size >= GIGA {
    } else if size >= MEGA {
    } else if size >= KILO {
    }
  }

  /** The part of the size below the unit that its text keeps. */
  function KeptPart(size: nat): nat {
    if size / Base(size) < 10 then LeastPart(Fraction(size), Base(size)) else 0
  }

  lemma KeptPartOf(size: nat)
    ensures KeptPart(size) == LeastPart(Fraction(size), Base(size))
    ensures KeptPart(size) <= size % Base(size)
    ensures size / Base(size) < 10 ==> KeptPart(size) * 10 / Base(size) == Fraction(size)
    ensures size / Base(size) < 10 ==> 10 * (size % Base(size) - KeptPart(size)) < Base(size)
  {
    PartsOf(size % Base(size), Base(size));
  }

  lemma SameText(size: nat)
    ensures var n := (size / Base(size)) * Base(size) + KeptPart(size);
      n <= size && Text(n) == Text(size)
  {
    KeptPartOf(size);
    SameBand(size, KeptPart(size));
  }

  /** At most a tenth of the unit below `size` where one decimal is printed, less than one
      unit otherwise. */
  predicate CloseBelow(d: int, size: int, base: nat)
    requires base > 0
  {
    d <= size && if size / base < 10 then 10 * (size - d) < base else size - d < base
  }

  lemma KeptIsClose(size: nat, base: nat, kept: nat)
    requires base > 0 && kept <= size % base
    requires size / base < 10 ==> 10 * (size % base - kept) < base
    ensures CloseBelow((size / base) * base + kept, size, base)
  {
    assert size == (size / base) * base + size % base;
  }

  lemma DecodeNegative(size: int)
    requires size < 0
    ensures Decode(Text(size)) == size
  {
    NumberOfDigits(-size);
    assert Text(size)[1..] == Digits(-size);
  }

  lemma DecodeBelow(size: int)
    ensures var d := Decode(Text(size)); CloseBelow(d, size, Base(size)) && Text(d) == Text(size)
  {
    if size < 0 {
      DecodeNegative(size);
    } else {
      var d := (size / Base(size)) * Base(size) + KeptPart(size);
      assert Decode(Text(size)) == d by { DecodeText(size); KeptPartOf(size); }
      assert Text(d) == Text(size) by { SameText(size); }
      assert CloseBelow(d, size, Base(size)) by {
        KeptPartOf(size);
        KeptIsClose(size, Base(size), KeptPart(size));
      }
    }
  }

  /** The text of a size reads back as the least size with that text, which is close below. */
  lemma DecodeIsLeast(size: int)
    ensures var d := Decode(Text(size));
      && Text(d) == Text(size)
      && CloseBelow(d, size, Base(size))
      && forall n: int :: Text(n) == Text(size) ==> d <= n
  {
    DecodeBelow(size);
    forall n: int | Text(n) == Text(size)
      ensures Decode(Text(size)) <= n
    {
      DecodeBelow(n);
    }
  }

  // ---------------------------------------------------------------- the program

  lemma NoNulInText(size: int)
    ensures NUL !in Text(size)
  {}

  /** snprintf(str, ssize, ...): at most ssize - 1 characters and a NUL; nothing if ssize is 0. */
  method Snprintf(str: array<char>, ssize: nat, produced: seq<char>)
    requires ssize <= str.Length
    modifies str
    ensures forall k :: ssize <= k < str.Length ==> str[k] == old(str[k])
    ensures ssize > 0 ==> IsCut(str[..], produced, ssize - 1)
  {
    if ssize == 0 { return; }
    var n := Min(|produced|, ssize - 1);
    for i := 0 to n
      invariant forall k :: 0 <= k < i ==> str[k] == produced[k]
      invariant forall k :: i <= k < str.Length ==> str[k] == old(str[k])
    {
      str[i] := produced[i];
    }
    str[n] := NUL;
  }

  /** `s` begins with as much of `produced` as fits in `room`, and a NUL. */
  ghost predicate IsCut(s: seq<char>, produced: seq<char>, room: nat) {
    var n := Min(|produced|, room);
    n < |s| && s[n] == NUL && forall k :: 0 <= k < n ==> s[k] == produced[k]
  }

  /** The format and its arguments. */
  function Print(whole: int, fraction: nat, mag: char): seq<char> {
    (if whole < 0 then ['-'] + Digits(-whole) else Digits(whole))
    + (if fraction != 0 then ['.'] + Digits(fraction) else [])
    + [mag]
  }

  lemma PrintIsProduced(size: int)
    ensures size < 0 ==> Print(size, 0, NUL) == Produced(size)
    ensures size >= 0 ==> Print(size / Base(size), Fraction(size), Suffix(Base(size))) == Produced(size)
  {
    if size >= 0 {
      assert Base(size) == 1 ==> Fraction(size) == 0;
      assert Fraction(size) > 0 ==> Digits(Fraction(size)) == [Digit(Fraction(size))];
    }
  }

  /** size_str: the buffer reads as the text, cut to fit; the NUL that stands for "no suffix"
      is not seen. */
  method SizeStr(str: array<char>, ssize: nat, size: int)
    requires ssize <= str.Length
    modifies str
    ensures ssize > 0 ==> CStr(str[..], NUL) == Text(size)[..Min(|Text(size)|, ssize - 1)]
    ensures forall k :: ssize <= k < str.Length ==> str[k] == old(str[k])
  {
    var base, fraction, mag := 1, 0, NUL;
    if size >= GIGA {
      base, mag := GIGA, 'g';
    } else if size >= MEGA {
      base, mag := MEGA, 'm';
    } else if size >= KILO {
      base, mag := KILO, 'k';
    }
    if size / base < 10 {
      fraction := size % base * 10 / base;
    }
    PrintIsProduced(size);
    Snprintf(str, ssize, Print(size / base, fraction, mag));
    if ssize > 0 {
      CutText(size, ssize - 1, str[..]);
    }
  }

  lemma CutText(size: int, room: nat, s: seq<char>)
    requires IsCut(s, Produced(size), room)
    ensures CStr(s, NUL) == Text(size)[..Min(|Text(size)|, room)]
  {
    NoNulInText(size);
    CutIsText(Text(size), Produced(size), room, s);
  }

  lemma CutIsText(text: seq<char>, produced: seq<char>, room: nat, s: seq<char>)
    requires NUL !in text && (produced == text || produced == text + [NUL]) && IsCut(s, produced, room)
    ensures CStr(s, NUL) == text[..Min(|text|, room)]
  {
    var m := Min(|text|, room);
    assert forall k :: 0 <= k < m ==> s[k] == produced[k] == text[k];
    assert s[m] == NUL;
    assert s[..m] == text[..m];
    assert s == s[..m] + s[m..];
    CStrStops(text[..m], s[m..], NUL);
  }
}
