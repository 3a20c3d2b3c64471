/** The console demo's hexadecimal reader and printer, over 32-bit unsigned numbers. */
module HexText {

  const WORD := 0x1_0000_0000

  type u32 = n: nat | n < WORD

  function ShiftLeft4(x: u32): u32 { x * 16 % WORD }

  function Add(x: u32, d: nat): u32 { (x + d) % WORD }

  // ---------------------------------------------------------------- digits

  predicate IsHex(c: char) {
    '0' <= c <= '9' || 'a' <= c <= 'f' || 'A' <= c <= 'F'
  }

  function DigitValue(c: char): (d: nat)
    requires IsHex(c)
    ensures d < 16
  {
    if '0' <= c <= '9' then (c - '0') as nat
    else if 'a' <= c <= 'f' then (c - 'a') as nat + 10
    else (c - 'A') as nat + 10
  }

  /** The character the printer writes for a digit: lower case above nine. */
  function DigitChar(d: nat): (c: char)
    requires d < 16
    ensures IsHex(c) && DigitValue(c) == d && c != '\0'
    ensures c == '0' <==> d == 0
  {
    if d <= 9 then '0' + d as char else 'a' + (d - 10) as char
  }

  /** The hexadecimal digits of a text in order, lower-cased; everything else is dropped. */
  function HexDigits(s: string): (ds: string)
    ensures |ds| <= |s|
    ensures Canonical(ds)
  {
    if s == "" then ""
    else
      var init := HexDigits(s[..|s| - 1]);
      var c := s[|s| - 1];
      if IsHex(c) then init + [DigitChar(DigitValue(c))] else init
  }

  /** A text made only of the digits the printer writes. */
  predicate Canonical(s: string) {
    forall i :: 0 <= i < |s| ==> IsHex(s[i]) && s[i] == DigitChar(DigitValue(s[i]))
  }

  /** The number a canonical text denotes, without any width limit. */
  function Value(ds: string): nat
    requires Canonical(ds)
  {
    if ds == "" then 0 else Value(ds[..|ds| - 1]) * 16 + DigitValue(ds[|ds| - 1])
  }

  function Pow16(k: nat): (p: nat)
    ensures p > 0
  {
    if k == 0 then 1 else 16 * Pow16(k - 1)
  }

  /** How many hexadecimal digits of `s` are not its very first character. */
  function ShiftingDigits(s: string): nat {
    if s == "" then 0 else |HexDigits(s[1..])|
  }

  /** The unbounded number read from `s` on top of `start`. */
  function Accumulated(start: nat, s: string): nat {
    start * Pow16(ShiftingDigits(s)) + Value(HexDigits(s))
  }

  /** What the printer writes for a number: no leading zeros, so nothing at all for zero. */
  function Print(x: nat): (ds: string)
    ensures Canonical(ds)
    ensures ds == "" <==> x == 0
    ensures ds != "" ==> ds[0] != '0'
  {
    if x == 0 then "" else Print(x / 16) + [DigitChar(x % 16)]
  }

  // ------------------------------------------------------------- operations

  /** Reads the digits of `str` into a word that already holds `start`. The shift is skipped for
      the character at index 0 only, so a nonzero start is kept in front of the digits. */
  method ChrToHex(str: string, start: u32) returns (dst: u32)
    ensures dst == Accumulated(start, str) % WORD
  {
    dst := start;
    assert str[..0] == "";
    for i := 0 to |str|
      invariant dst == Accumulated(start, str[..i]) % WORD
    {
      if IsHex(str[i]) {
        TakeDigit(start, str, i, dst);
      } else {
        ReadStep(start, str, i);
      }
      if '0' <= str[i] <= '9' {
        if i != 0 { dst := ShiftLeft4(dst); }
        dst := Add(dst, (str[i] - '0') as nat);
      } else if 'a' <= str[i] <= 'f' {
        if i != 0 { dst := ShiftLeft4(dst); }
        dst := Add(dst, (str[i] - 'a') as nat + 10);
      } else if 'A' <= str[i] <= 'F' {
        if i != 0 { dst := ShiftLeft4(dst); }
        dst := Add(dst, (str[i] - 'A') as nat + 10);
      }
    }
    assert str[..|str|] == str;
  }

  /** Prints `word` at the front of `str`. Nothing else in `str` changes: in particular no
      terminator is written, and zero prints as nothing. */
  method HexToChr(str: array<char>, word: u32)
    requires |Print(word)| <= str.Length
    modifies str
    ensures |Print(word)| <= 8
    ensures str[..] == Print(word) + old(str[..])[|Print(word)|..]
  {
    WordPrintsShort(word);
    ghost var digits := Print(word);
    ghost var n := |digits|;
    var tmp := new char[10](_ => '\0');
    var i := 0;
    var dst: nat := word;
    while dst != 0
      invariant 0 <= i <= n
      invariant Print(dst) == digits[..n - i]
      invariant forall k :: 0 <= k < i ==> tmp[k] == digits[n - 1 - k]
      modifies tmp
    {
      NextDigit(dst, digits, n - i);
      if dst % 16 <= 9 {
        tmp[i] := '0' + (dst % 16) as char;
      } else {
        tmp[i] := 'a' + (dst % 16 - 10) as char;
      }
      i := i + 1;
      dst := dst / 16;
    }
    CopyReversed(str, tmp, i, digits);
  }

  /** The second loop: what was collected from the last digit on goes out from the first on. */
  method CopyReversed(str: array<char>, tmp: array<char>, i: nat, ghost digits: string)
    requires i == |digits| <= str.Length && i <= tmp.Length && str != tmp
    requires forall k :: 0 <= k < i ==> tmp[k] == digits[i - 1 - k]
    modifies str
    ensures str[..] == digits + old(str[..])[i..]
  {
    for j := 0 to i
      invariant forall k :: 0 <= k < j ==> str[k] == digits[k]
      invariant forall k :: j <= k < str.Length ==> str[k] == old(str[k])
    {
      str[j] := tmp[i - 1 - j];
    }
  }

  // ------------------------------------------------------ steps of the reader

  lemma DigitsOfPrefix(str: string, i: nat)
    requires i < |str|
    ensures HexDigits(str[..i + 1]) ==
            if IsHex(str[i]) then HexDigits(str[..i]) + [DigitChar(DigitValue(str[i]))] else HexDigits(str[..i])
    ensures IsHex(str[i]) ==> Value(HexDigits(str[..i + 1])) == Value(HexDigits(str[..i])) * 16 + DigitValue(str[i])
    ensures ShiftingDigits(str[..i + 1]) == ShiftingDigits(str[..i]) + (if i != 0 && IsHex(str[i]) then 1 else 0)
    ensures i == 0 ==> ShiftingDigits(str[..i]) == Value(HexDigits(str[..i])) == 0
  {
    var p := str[..i + 1];
    assert p[..|p| - 1] == str[..i];
    if IsHex(str[i]) {
      var ds := HexDigits(p);
      assert ds[..|ds| - 1] == HexDigits(str[..i]);
    }
    if i != 0 {
      var q := p[1..];
      assert q[..|q| - 1] == str[..i][1..];
    }
  }

  lemma ModAdd(a: int, k: int)
    ensures (a + k * WORD) % WORD == a % WORD
  {
  }

  /** Shifting in and adding a digit commute with the 32-bit wrap-around. */
  lemma ShiftMod(x: nat)
    ensures ((x % WORD) * 16) % WORD == (x * 16) % WORD
  {
    ModAdd((x % WORD) * 16, 16 * (x / WORD));
  }

  lemma AddMod(x: nat, d: nat)
    ensures ((x % WORD) + d) % WORD == (x + d) % WORD
  {
    ModAdd(x % WORD + d, x / WORD);
  }

  lemma AppendMod(x: nat, d: nat)
    ensures (x % WORD * 16 % WORD + d) % WORD == (x * 16 + d) % WORD
  {
    ShiftMod(x);
    AddMod(x * 16, d);
  }

  /** One more digit, as the reader computes it. */
  lemma TakeDigit(start: nat, str: string, i: nat, dst: u32)
    requires i < |str| && IsHex(str[i]) && dst == Accumulated(start, str[..i]) % WORD
    ensures Add(if i != 0 then ShiftLeft4(dst) else dst, DigitValue(str[i])) == Accumulated(start, str[..i + 1]) % WORD
  {
    ReadStep(start, str, i);
    if i == 0 {
      AddMod(Accumulated(start, str[..i]), DigitValue(str[i]));
    } else {
      AppendMod(Accumulated(start, str[..i]), DigitValue(str[i]));
    }
  }

  lemma ReadStep(start: nat, str: string, i: nat)
    requires i < |str|
    ensures Accumulated(start, str[..i + 1]) ==
            if !IsHex(str[i]) then Accumulated(start, str[..i])
            else if i == 0 then Accumulated(start, str[..i]) + DigitValue(str[i])
            else Accumulated(start, str[..i]) * 16 + DigitValue(str[i])
  {
    DigitsOfPrefix(str, i);
    if IsHex(str[i]) && i != 0 {
      Regroup(start, Pow16(ShiftingDigits(str[..i])));
    }
  }

  lemma Regroup(start: nat, p: nat)
    ensures start * (16 * p) == (start * p) * 16
  {
  }

  lemma LastDigit(x: nat)
    requires x != 0
    ensures var ds := Print(x);
            ds != "" && ds[|ds| - 1] == DigitChar(x % 16) && ds[..|ds| - 1] == Print(x / 16)
  {
  }

  lemma SliceOfPrefix(ds: string, k: nat)
    requires 0 < k <= |ds|
    ensures ds[..k][..k - 1] == ds[..k - 1] && ds[..k][k - 1] == ds[k - 1]
  {
  }

  lemma NextDigit(x: nat, ds: string, k: nat)
    requires x != 0 && k <= |ds| && Print(x) == ds[..k]
    ensures k > 0 && ds[k - 1] == DigitChar(x % 16) && Print(x / 16) == ds[..k - 1]
  {
    LastDigit(x);
    SliceOfPrefix(ds, k);
  }

  lemma WordPrintsShort(word: u32)
    ensures |Print(word)| <= 8
  {
    EightDigits();
    PrintLength(word, 8);
  }

  lemma EightDigits()
    ensures Pow16(8) == WORD
  {
    assert Pow16(4) == 0x1_0000;
    assert Pow16(6) == 0x100_0000;
  }

  lemma {:induction false} PrintLength(x: nat, k: nat)
    requires x < Pow16(k)
    ensures |Print(x)| <= k
  {
    if x != 0 {
      PrintLength(x / 16, k - 1);
    }
  }

  // ------------------------------------------------------ normal form

  /** The word the reader leaves when it starts from zero. */
  function Parse(s: string): u32 {
    Value(HexDigits(s)) % WORD
  }

  function StripZeros(ds: string): string {
    if ds == "" || ds[0] != '0' then ds else StripZeros(ds[1..])
  }

  function LastEight(ds: string): string {
    if |ds| <= 8 then ds else ds[|ds| - 8..]
  }

  /** Drop everything that is not a hex digit, lower-case, keep the last eight, strip zeros. */
  function Normalize(s: string): string {
    StripZeros(LastEight(HexDigits(s)))
  }

  lemma ShiftIn(high: nat, p: nat, low: nat)
    ensures (high * p + low) * 16 == high * (16 * p) + low * 16
  {
    Regroup(high, p);
  }

  lemma {:induction false} ValueConcat(a: string, b: string)
    requires Canonical(a) && Canonical(b)
    ensures Canonical(a + b) && Value(a + b) == Value(a) * Pow16(|b|) + Value(b)
  {
    if b == "" {
      assert a + b == a;
    } else {
      var c := b[..|b| - 1];
      ValueConcat(a, c);
      assert (a + b)[..|a + b| - 1] == a + c;
      ShiftIn(Value(a), Pow16(|c|), Value(c));
    }
  }

  lemma {:induction false} ValueBound(ds: string)
    requires Canonical(ds)
    ensures Value(ds) < Pow16(|ds|)
  {
    if ds != "" {
      ValueBound(ds[..|ds| - 1]);
    }
  }

  lemma {:induction false} StripSnoc(ds: string, c: char)
    ensures StripZeros(ds + [c]) ==
            if StripZeros(ds) == "" then (if c == '0' then "" else [c]) else StripZeros(ds) + [c]
  {
    if ds != "" && ds[0] == '0' {
      assert (ds + [c])[1..] == ds[1..] + [c];
      StripSnoc(ds[1..], c);
    }
  }

  lemma {:induction false} PrintOfValue(ds: string)
    requires Canonical(ds)
    ensures Print(Value(ds)) == StripZeros(ds)
  {
    if ds != "" {
      var init, c := ds[..|ds| - 1], ds[|ds| - 1];
      assert ds == init + [c];
      PrintOfValue(init);
      StripSnoc(init, c);
      assert Value(ds) / 16 == Value(init) && Value(ds) % 16 == DigitValue(c);
    }
  }

  lemma {:induction false} ValueOfPrint(x: nat)
    ensures Value(Print(x)) == x
  {
    if x != 0 {
      ValueOfPrint(x / 16);
      var ds := Print(x);
      assert ds[..|ds| - 1] == Print(x / 16);
    }
  }

  lemma {:induction false} CanonicalIsFixed(ds: string)
    requires Canonical(ds)
    ensures HexDigits(ds) == ds
  {
    if ds != "" {
      CanonicalIsFixed(ds[..|ds| - 1]);
    }
  }

  lemma DropHigh(high: nat, low: nat)
    requires low < WORD
    ensures (high * WORD + low) % WORD == low
  {
    ModAdd(low, high);
  }

  lemma LastEightIsLowWord(ds: string)
    requires Canonical(ds)
    ensures Value(ds) % WORD == Value(LastEight(ds))
  {
    var low := LastEight(ds);
    EightDigits();
    ValueBound(low);
    Pow16Grows(|low|, 8);
    if |ds| > 8 {
      var high := ds[..|ds| - 8];
      assert ds == high + low;
      ValueConcat(high, low);
      DropHigh(Value(high), Value(low));
    } else {
      WithinWord(Value(ds));
    }
  }

  /** It is what ChrToHex returns for a zero start: only the last eight digits survive the word. */
  lemma {:induction false} ParseIsLastEight(s: string)
    ensures Parse(s) == Accumulated(0, s) % WORD == Value(LastEight(HexDigits(s)))
  {
    LastEightIsLowWord(HexDigits(s));
    FromZero(s);
  }

  lemma FromZero(s: string)
    ensures Accumulated(0, s) == Value(HexDigits(s))
  {
    assert 0 * Pow16(ShiftingDigits(s)) == 0;
  }

  lemma WithinWord(x: nat)
    requires x < WORD
    ensures x % WORD == x
  {
  }

  lemma {:induction false} Pow16Grows(j: nat, k: nat)
    requires j <= k
    ensures Pow16(j) <= Pow16(k)
  {
    if j < k {
      Pow16Grows(j, k - 1);
    }
  }

  /** Parsing and printing back gives the normal form of the text, whatever the text is. */
  lemma NormalForm(s: string)
    ensures Print(Parse(s)) == Normalize(s)
  {
    ParseIsLastEight(s);
    PrintOfValue(LastEight(HexDigits(s)));
  }

  /** Two texts read as the same word exactly when their normal forms agree. */
  lemma SameWordIffSameNormalForm(s: string, t: string)
    ensures Parse(s) == Parse(t) <==> Normalize(s) == Normalize(t)
  {
    NormalForm(s);
    NormalForm(t);
    ValueOfPrint(Parse(s));
    ValueOfPrint(Parse(t));
  }

  /** Printing and reading back is the identity on every 32-bit word, and normal forms are
      exactly the texts the printer produces. */
  lemma PrintThenParse(x: u32)
    ensures Parse(Print(x)) == x
    ensures Normalize(Print(x)) == Print(x)
  {
    CanonicalIsFixed(Print(x));
    ValueOfPrint(x);
    WithinWord(x);
    NormalForm(Print(x));
  }

  // ------------------------------------------------------ the characters

  const Lower := "0123456789abcdef"
  const Upper := "0123456789ABCDEF"

  /** What is read as a digit, and as which; and what is printed for one. */
  lemma DigitTable(d: nat)
    requires d < 16
    ensures IsHex(Lower[d]) && DigitValue(Lower[d]) == d
    ensures IsHex(Upper[d]) && DigitValue(Upper[d]) == d
    ensures DigitChar(d) == Lower[d]
  {
  }

  lemma OnlyTheseAreHex(c: char)
    ensures IsHex(c) <==> c in Lower || c in Upper
  {
    if IsHex(c) {
      var d := DigitValue(c);
      DigitTable(d);
      assert c == Lower[d] || c == Upper[d];
    } else {
      assert c !in Lower && c !in Upper by {
        if d :| 0 <= d < 16 && (Lower[d] == c || Upper[d] == c) { DigitTable(d); }
      }
    }
  }

  /** Printed letters are lower case, and so are those of the normal form. */
  lemma {:induction false} PrintsLowerCase(x: nat)
    ensures forall i :: 0 <= i < |Print(x)| ==> '0' <= Print(x)[i] <= '9' || 'a' <= Print(x)[i] <= 'f'
  {
    if x != 0 {
      PrintsLowerCase(x / 16);
      DigitTable(x % 16);
    }
  }

  lemma {:induction false} DigitsLowerCase(s: string)
    ensures forall i :: 0 <= i < |HexDigits(s)| ==> '0' <= HexDigits(s)[i] <= '9' || 'a' <= HexDigits(s)[i] <= 'f'
  {
    if s != "" {
      DigitsLowerCase(s[..|s| - 1]);
      if IsHex(s[|s| - 1]) {
        DigitTable(DigitValue(s[|s| - 1]));
      }
    }
  }

  predicate SameButCase(c: char, d: char) {
    c == d || ('a' <= c <= 'z' && d as int == c as int - 32) || ('A' <= c <= 'Z' && d as int == c as int + 32)
  }

  predicate TextsSameButCase(s: string, t: string) {
    |s| == |t| && forall i :: 0 <= i < |s| ==> SameButCase(s[i], t[i])
  }

  lemma DigitCaseBlind(c: char, d: char)
    requires SameButCase(c, d)
    ensures IsHex(c) == IsHex(d) && (IsHex(c) ==> DigitValue(c) == DigitValue(d))
  {
  }

  lemma {:induction false} DigitsCaseBlind(s: string, t: string)
    requires TextsSameButCase(s, t)
    ensures HexDigits(s) == HexDigits(t)
  {
    if s != "" {
      var last := |s| - 1;
      assert SameButCase(s[last], t[last]);
      DigitsCaseBlind(s[..last], t[..last]);
      DigitCaseBlind(s[last], t[last]);
    }
  }

  /** Reading does not distinguish upper from lower case, from any start. */
  lemma ReadingIsCaseBlind(start: nat, s: string, t: string)
    requires TextsSameButCase(s, t)
    ensures Accumulated(start, s) == Accumulated(start, t)
  {
    DigitsCaseBlind(s, t);
    if s != "" {
      DigitsCaseBlind(s[1..], t[1..]);
    }
  }

  // ------------------------------------------------------ order

  /** Shorter first, then by the first differing character. */
  predicate Shortlex(a: string, b: string) {
    |a| < |b| || (|a| == |b| && LexLess(a, b))
  }

  predicate LexLess(a: string, b: string)
    requires |a| == |b|
  {
    a != "" && (a[0] < b[0] || (a[0] == b[0] && LexLess(a[1..], b[1..])))
  }

  lemma {:induction false} LexSnoc(a: string, b: string, c: char, d: char)
    requires |a| == |b|
    ensures LexLess(a + [c], b + [d]) <==> LexLess(a, b) || (a == b && c < d)
  {
    if a != "" {
      assert (a + [c])[1..] == a[1..] + [c] && (b + [d])[1..] == b[1..] + [d];
      LexSnoc(a[1..], b[1..], c, d);
      assert a == [a[0]] + a[1..] && b == [b[0]] + b[1..];
    }
  }

  lemma {:induction false} PrintLengthGrows(x: nat, y: nat)
    requires x <= y
    ensures |Print(x)| <= |Print(y)|
  {
    if x != 0 {
      PrintLengthGrows(x / 16, y / 16);
    }
  }

  lemma {:induction false} SmallerPrintsFirst(x: nat, y: nat)
    requires x < y
    ensures Shortlex(Print(x), Print(y))
  {
    PrintLengthGrows(x, y);
    if x != 0 && |Print(x)| == |Print(y)| {
      var a, b := Print(x / 16), Print(y / 16);
      LexSnoc(a, b, DigitChar(x % 16), DigitChar(y % 16));
      if x / 16 < y / 16 {
        SmallerPrintsFirst(x / 16, y / 16);
      }
    }
  }

  lemma {:induction false} LexLessIrreflexive(a: string)
    ensures !LexLess(a, a)
  {
    if a != "" { LexLessIrreflexive(a[1..]); }
  }

  lemma {:induction false} LexLessAsymmetric(a: string, b: string)
    requires |a| == |b| && LexLess(a, b)
    ensures !LexLess(b, a)
  {
    if a[0] == b[0] { LexLessAsymmetric(a[1..], b[1..]); }
  }

  /** Printed texts are in shortlex order exactly when the numbers are in numeric order. */
  lemma PrintIsShortlexMonotone(x: nat, y: nat)
    ensures x < y <==> Shortlex(Print(x), Print(y))
  {
    if x < y {
      SmallerPrintsFirst(x, y);
    } else if x == y {
      LexLessIrreflexive(Print(x));
    } else {
      SmallerPrintsFirst(y, x);
      if |Print(x)| == |Print(y)| {
        LexLessAsymmetric(Print(y), Print(x));
      }
    }
  }

  // ------------------------------------------------------ the caller's buffer

  /** The text a C reader sees in a buffer: everything before the first NUL. */
  function CString(buffer: string): string {
    if buffer == "" || buffer[0] == '\0' then "" else [buffer[0]] + CString(buffer[1..])
  }

  /** What a caller reads back after HexToChr: the printed word followed by whatever text was
      left behind it, so exactly the printed word if and only if the caller had cleared the
      position behind it (or the word fills the buffer). */
  lemma PrintedInBuffer(word: u32, stale: string)
    requires |Print(word)| <= |stale|
    ensures var n := |Print(word)|;
            CString(Print(word) + stale[n..]) == Print(word) + CString(stale[n..])
    ensures var n := |Print(word)|;
            CString(Print(word) + stale[n..]) == Print(word) <==> n == |stale| || stale[n] == '\0'
  {
    var n := |Print(word)|;
    CStringConcat(Print(word), stale[n..]);
    if n < |stale| && stale[n] != '\0' {
      assert |CString(stale[n..])| > 0;
    } else {
      assert Print(word) + "" == Print(word);
    }
  }

  lemma {:induction false} CStringConcat(ds: string, rest: string)
    requires Canonical(ds)
    ensures CString(ds + rest) == ds + CString(rest)
  {
    if ds == "" {
      assert ds + rest == rest;
    } else {
      assert (ds + rest)[1..] == ds[1..] + rest;
      CStringConcat(ds[1..], rest);
    }
  }
}
