/** The number printer, and the two readers that undo it: strToUint and a reader for any base and sign. */
module PrintNum {
  import opened Options

  const WORD_LIMIT: nat := 0x1_0000_0000
  const INT_MAX: int := 0x7fff_ffff

  // ----- digits -----

  function DigitChar(d: nat, upcase: bool): (c: char)
    requires d < 36
    ensures DigitOf(c) == d && c != '-' && c != ' '
  {
    if d <= 9 then '0' + d as char else if upcase then 'A' + (d - 10) as char else 'a' + (d - 10) as char
  }

  /** The value of a digit, 36 if it is none. */
  function DigitOf(c: char): nat {
    if '0' <= c <= '9' then c as nat - '0' as nat
    else if 'A' <= c <= 'Z' then c as nat - 'A' as nat + 10
    else if 'a' <= c <= 'z' then c as nat - 'a' as nat + 10
    else 36
  }

  lemma DivMod(u: nat, base: nat)
    requires base >= 2
    ensures 0 <= u % base < base && u / base >= 0 && u == u / base * base + u % base
    ensures u / base == 0 <==> u < base
    ensures u < base ==> u % base == u
    ensures u / base <= u / 2
  {
    var q := u / base;
    assert u == q * base + u % base;
    assert q * base >= q * 2;
    assert q >= 1 ==> q * base >= base;
  }

  /** `u / base` and `u % base`, on unsigned long. */
  function Quot(u: nat, base: nat): (q: nat)
    requires base >= 2
    ensures q <= u / 2 && (q == 0 <==> u < base)
  {
    DivMod(u, base);
    u / base
  }

  function Rem(u: nat, base: nat): (d: nat)
    requires base >= 2
    ensures d < base && (u < base ==> d == u)
  {
    DivMod(u, base);
    u % base
  }

  lemma QuotRem(u: nat, base: nat)
    requires base >= 2
    ensures Quot(u, base) * base + Rem(u, base) == u
  {
    DivMod(u, base);
  }

  /** The digits of u, highest first, without leading zeros. */
  function Numeral(u: nat, base: nat, upcase: bool): (s: string)
    requires 2 <= base <= 36
    ensures s != [] && (s[0] == '0' ==> u == 0)
  {
    if u < base then [DigitChar(u, upcase)] else Numeral(Quot(u, base), base, upcase) + [DigitChar(Rem(u, base), upcase)]
  }

  predicate AllDigits(s: string, base: nat) {
    forall i :: 0 <= i < |s| ==> DigitOf(s[i]) < base
  }

  function Value(s: string, base: nat): nat {
    if s == [] then 0 else Value(s[..|s| - 1], base) * base + DigitOf(s[|s| - 1])
  }

  lemma ValueMore(s: string, c: char, base: nat)
    ensures Value(s + [c], base) == Value(s, base) * base + DigitOf(c)
    ensures AllDigits(s, base) && DigitOf(c) < base ==> AllDigits(s + [c], base)
  {
    assert (s + [c])[..|s|] == s;
  }

  lemma {:induction false} NumeralDenotes(u: nat, base: nat, upcase: bool)
    requires 2 <= base <= 36
    ensures AllDigits(Numeral(u, base, upcase), base) && Value(Numeral(u, base, upcase), base) == u
    decreases u
  {
    hide DigitChar, DigitOf, Value, AllDigits, Quot, Rem;
    QuotRem(u, base);
    if u < base {
      ValueMore([], DigitChar(u, upcase), base);
      NoDigits(base);
      assert [] + [DigitChar(u, upcase)] == Numeral(u, base, upcase);
    } else {
      NumeralDenotes(Quot(u, base), base, upcase);
      ValueMore(Numeral(Quot(u, base), base, upcase), DigitChar(Rem(u, base), upcase), base);
    }
  }

  lemma NoDigits(base: nat)
    ensures Value([], base) == 0 && AllDigits([], base)
  {
  }

  function Pow2(n: nat): nat {
    if n == 0 then 1 else 2 * Pow2(n - 1)
  }

  /** A number below 2^n has at most n digits in any base. */
  lemma {:induction false} NumeralShort(u: nat, base: nat, upcase: bool, n: nat)
    requires 2 <= base <= 36 && 0 < n && u < Pow2(n)
    ensures |Numeral(u, base, upcase)| <= n
    decreases n
  {
    hide Quot, Rem;
    if u >= base {
      assert n > 1 by { assert Pow2(1) == 2 * Pow2(0); }
      NumeralShort(Quot(u, base), base, upcase, n - 1);
    }
  }

  // ----- layout -----

  function Rep(c: char, n: nat): (s: string)
    ensures |s| == n && forall i :: 0 <= i < n ==> s[i] == c
  {
    seq(n, _ => c)
  }

  function Sign(neg: bool): string {
    if neg then "-" else ""
  }

  function Gap(length: nat, used: nat): nat {
    if length < used then 0 else length - used
  }

  /** Padded right with blanks, or left with the padding character, where zeros go between the sign and the
      digits. */
  function Laid(digits: string, neg: bool, length: nat, ladjust: bool, padc: char): string {
    var gap := Gap(length, |digits| + |Sign(neg)|);
    if ladjust then Sign(neg) + digits + Rep(' ', gap)
    else if padc == '0' then Sign(neg) + Rep('0', gap) + digits
    else Rep(padc, gap) + Sign(neg) + digits
  }

  function Printed(u: nat, base: nat, neg: bool, length: nat, ladjust: bool, padc: char, upcase: bool): string
    requires 2 <= base <= 36
  {
    Laid(Numeral(u, base, upcase), neg, length, ladjust, padc)
  }

  function Rev(s: string): (r: string)
    ensures |r| == |s| && forall i :: 0 <= i < |s| ==> r[i] == s[|s| - 1 - i]
  {
    seq(|s|, i requires 0 <= i < |s| => s[|s| - 1 - i])
  }

  lemma NumeralStep(u: nat, base: nat, upcase: bool)
    requires 2 <= base <= 36
    ensures Quot(u, base) == 0 ==> Rev(Numeral(u, base, upcase)) == [DigitChar(Rem(u, base), upcase)]
    ensures Quot(u, base) != 0 ==> Rev(Numeral(u, base, upcase)) == [DigitChar(Rem(u, base), upcase)] + Rev(Numeral(Quot(u, base), base, upcase))
  {
    hide Quot, Rem, DigitChar, Rev;
    if Quot(u, base) == 0 {
      RevParts([DigitChar(u, upcase)], "");
      RevOne(DigitChar(u, upcase));
    } else {
      RevParts(Numeral(Quot(u, base), base, upcase), [DigitChar(Rem(u, base), upcase)]);
      RevOne(DigitChar(Rem(u, base), upcase));
    }
  }

  lemma RevOne(c: char)
    ensures Rev([c]) == [c]
  {
  }

  /** The digits go into the buffer lowest first. */
  method WriteDigits(buf: array<char>, u0: nat, base: nat, upcase: bool) returns (p: nat)
    requires 2 <= base <= 36 && u0 < WORD_LIMIT && buf.Length >= 70
    modifies buf
    ensures p == |Numeral(u0, base, upcase)| <= 32 && buf[..p] == Rev(Numeral(u0, base, upcase))
  {
    hide Numeral, Rev, Pow2, DigitChar, DigitOf, Quot, Rem;
    var u: nat := u0;
    p := 0;
    WordBits();
    NumeralShort(u0, base, upcase, 32);
    ghost var all := Rev(Numeral(u0, base, upcase));
    assert all == buf[..0] + Rev(Numeral(u, base, upcase));
    while true
      invariant p < |all| <= 32 && all == buf[..p] + Rev(Numeral(u, base, upcase))
      decreases |all| - p
    {
      NumeralStep(u, base, upcase);
      ghost var done := buf[..p];
      var tmp := Rem(u, base);
      buf[p] := DigitChar(tmp, upcase);
      p := p + 1;
      assert buf[..p] == done + [DigitChar(tmp, upcase)];
      u := Quot(u, base);
      if u == 0 {
        break;
      }
    }
  }

  lemma WordBits()
    ensures Pow2(32) == WORD_LIMIT
  {
    assert Pow2(8) == 256;
    assert Pow2(16) == 256 * Pow2(8);
    assert Pow2(24) == 256 * Pow2(16);
    assert Pow2(32) == 256 * Pow2(24);
  }

  /** The closing loop of print_num: the first n characters are turned round in place. */
  method ReverseFirst(buf: array<char>, n: nat)
    requires n <= buf.Length
    modifies buf
    ensures buf[..n] == Rev(old(buf[..n])) && buf[n..] == old(buf[n..])
  {
    var begin, end := 0, n - 1;
    while end > begin
      invariant 0 <= begin && begin + end == n - 1 && begin <= end + 2
      invariant forall k :: 0 <= k < begin ==> buf[k] == old(buf[n - 1 - k]) && buf[n - 1 - k] == old(buf[k])
      invariant forall k :: begin <= k <= end ==> buf[k] == old(buf[k])
      invariant forall k :: n <= k < buf.Length ==> buf[k] == old(buf[k])
      decreases end - begin
    {
      var tmp := buf[begin];
      buf[begin] := buf[end];
      buf[end] := tmp;
      begin := begin + 1;
      end := end - 1;
    }
    forall k | 0 <= k < n ensures buf[k] == old(buf[n - 1 - k]) {
      if k > end { assert n - 1 - (n - 1 - k) == k; }
    }
  }

  method Fill(buf: array<char>, from: nat, to: nat, c: char)
    requires from <= to <= buf.Length
    modifies buf
    ensures buf[..to] == old(buf[..from]) + Rep(c, to - from) && buf[to..] == old(buf[to..])
  {
    var i := from;
    while i < to
      invariant from <= i <= to
      invariant forall k :: from <= k < i ==> buf[k] == c
      invariant forall k :: 0 <= k < buf.Length && !(from <= k < i) ==> buf[k] == old(buf[k])
    {
      buf[i] := c;
      i := i + 1;
    }
  }

  method PrintNum(u: nat, base: nat, neg: bool, length: nat, ladjust: bool, padc: char, upcase: bool) returns (out: string)
    requires 2 <= base <= 36 && u < WORD_LIMIT
    ensures out == Printed(u, base, neg, length, ladjust, padc, upcase)
  {
    hide Numeral, Rev, Laid, Padded, DigitChar;
    var buf := new char[length + 70];
    var p := WriteDigits(buf, u, base, upcase);
    ghost var low := buf[..p];
    if neg {
      buf[p] := '-';
      p := p + 1;
    }
    var actual := p;
    assert buf[..actual] == low + Sign(neg);
    var len := Pad(buf, low, neg, actual, length, ladjust, padc);
    ghost var filled := buf[..len];
    var n := if ladjust then actual else len;
    assert filled[..n] == buf[..n] && filled[n..] == buf[n..][..len - n];
    ReverseFirst(buf, n);
    out := buf[..len];
    assert out == buf[..n] + buf[n..][..len - n];
    Layout(Numeral(u, base, upcase), neg, length, ladjust, padc, filled, out);
  }

  /** The padding in the buffer, before it is turned round; `low` are the digits, lowest first. */
  function Padded(low: string, neg: bool, length: nat, ladjust: bool, padc: char): string {
    var gap := Gap(length, |low| + |Sign(neg)|);
    if neg && !ladjust && padc == '0' then low + Rep('0', gap) + "-"
    else low + Sign(neg) + Rep(if ladjust then ' ' else padc, gap)
  }

  /** The part of print_num that adjusts the length and fills the remaining space. */
  method Pad(buf: array<char>, ghost low: string, neg: bool, actual: nat, length: nat, ladjust: bool, padc: char) returns (len: nat)
    requires actual <= 33 && buf.Length == length + 70 && actual == |low| + |Sign(neg)|
    requires buf[..actual] == low + Sign(neg)
    modifies buf
    ensures len == (if length < actual then actual else length) < buf.Length
    ensures buf[..len] == Padded(low, neg, length, ladjust, padc)
  {
    len := if length < actual then actual else length;
    var pad := if ladjust then ' ' else padc;
    if neg && !ladjust && pad == '0' {
      assert buf[..actual - 1] == buf[..actual][..actual - 1] == low;
      Fill(buf, actual - 1, len - 1, pad);
      ghost var body := buf[..len - 1];
      buf[len - 1] := '-';
      assert buf[..len] == body + "-";
    } else {
      Fill(buf, actual, len, pad);
    }
  }

  lemma RevParts(a: string, b: string)
    ensures Rev(a + b) == Rev(b) + Rev(a) && Rev(Rev(a)) == a
  {
  }

  lemma RevRep(c: char, n: nat)
    ensures Rev(Rep(c, n)) == Rep(c, n)
  {
  }

  /** Turning the buffer round gives the layout. */
  lemma Layout(d: string, neg: bool, length: nat, ladjust: bool, padc: char, filled: string, out: string)
    requires filled == Padded(Rev(d), neg, length, ladjust, padc)
    requires var n := if ladjust then |d| + |Sign(neg)| else |filled|;
      out == Rev(filled[..n]) + filled[n..]
    ensures out == Laid(d, neg, length, ladjust, padc)
  {
    hide Rev, Rep;
    var low, gap := Rev(d), Gap(length, |d| + |Sign(neg)|);
    RevSign(neg);
    RevParts(low, Sign(neg));
    RevParts(d, "");
    if ladjust {
      var tail := Rep(' ', gap);
      assert filled[..|d| + |Sign(neg)|] == low + Sign(neg) && filled[|d| + |Sign(neg)|..] == tail;
    } else {
      assert filled[..|filled|] == filled && filled[|filled|..] == [];
      assert out == Rev(filled);
      RightLayout(d, neg, gap, padc);
    }
  }

  lemma RightLayout(d: string, neg: bool, gap: nat, padc: char)
    ensures neg && padc == '0' ==> Rev(Rev(d) + Rep('0', gap) + "-") == "-" + Rep('0', gap) + d
    ensures Rev(Rev(d) + Sign(neg) + Rep(padc, gap)) == Rep(padc, gap) + Sign(neg) + d
    ensures !neg ==> Rep(padc, gap) + Sign(neg) + d == Sign(neg) + Rep(padc, gap) + d
  {
    hide Rev, Rep;
    var low := Rev(d);
    RevParts(d, "");
    RevSign(true);
    RevSign(neg);
    RevRep(padc, gap);
    RevRep('0', gap);
    RevParts(low + Rep('0', gap), "-");
    RevParts(low, Rep('0', gap));
    RevParts(low + Sign(neg), Rep(padc, gap));
    RevParts(low, Sign(neg));
    assert "-" + (Rep('0', gap) + d) == "-" + Rep('0', gap) + d;
    assert Rep(padc, gap) + (Sign(neg) + d) == Rep(padc, gap) + Sign(neg) + d;
  }

  lemma RevSign(neg: bool)
    ensures Rev(Sign(neg)) == Sign(neg)
  {
  }

  /** The width asked for, or what sign and digits need. */
  lemma PrintedLength(u: nat, base: nat, neg: bool, length: nat, ladjust: bool, padc: char, upcase: bool)
    requires 2 <= base <= 36 && u < WORD_LIMIT
    ensures var n := |Numeral(u, base, upcase)| + (if neg then 1 else 0);
      && |Printed(u, base, neg, length, ladjust, padc, upcase)| == (if length < n then n else length) < length + 70
  {
    WordBits();
    NumeralShort(u, base, upcase, 32);
  }

  /** Where everything stands: the digits at the side asked for, the minus sign in front of them, or in front of the zeros, and
      padding in all other places. */
  lemma PrintedLayout(u: nat, base: nat, neg: bool, length: nat, ladjust: bool, padc: char, upcase: bool, i: nat)
    requires 2 <= base <= 36 && i < |Printed(u, base, neg, length, ladjust, padc, upcase)|
    ensures var s, d := Printed(u, base, neg, length, ladjust, padc, upcase), Numeral(u, base, upcase);
      var sign := if neg then 1 else 0;
      var start := if ladjust then sign else |s| - |d|;
      var minus := if ladjust || padc == '0' then 0 else |s| - |d| - 1;
      && 0 <= start && start + |d| <= |s|
      && s[i] == if start <= i < start + |d| then d[i - start]
                 else if neg && i == minus then '-'
                 else if ladjust then ' ' else padc
  {
    hide Numeral;
  }

  /** Letters are of the case asked for. */
  lemma {:induction false} NumeralCase(u: nat, base: nat, upcase: bool)
    requires 2 <= base <= 36
    ensures forall c :: c in Numeral(u, base, upcase) ==> '0' <= c <= '9' || (if upcase then 'A' <= c <= 'Z' else 'a' <= c <= 'z')
    decreases u
  {
    hide Quot, Rem;
    if u >= base { NumeralCase(Quot(u, base), base, upcase); }
  }

  // ----- reading it back -----

  function Trim(s: string): string {
    if s != [] && s[0] == ' ' then Trim(s[1..]) else s
  }

  function TrimEnd(s: string): string {
    if s != [] && s[|s| - 1] == ' ' then TrimEnd(s[..|s| - 1]) else s
  }

  function ReadUnsigned(s: string, base: nat): Option<int> {
    if s != [] && AllDigits(s, base) then Some(Value(s, base)) else None
  }

  /** Blanks, an optional minus sign, digits, blanks. */
  function Read(s: string, base: nat): Option<int> {
    var t := TrimEnd(Trim(s));
    if t != [] && t[0] == '-' then
      var r := ReadUnsigned(t[1..], base);
      if r.Some? then Some(-r.value) else None
    else ReadUnsigned(t, base)
  }

  lemma {:induction false} TrimBlanks(k: nat, t: string)
    requires t != [] && t[0] != ' '
    ensures Trim(Rep(' ', k) + t) == t
  {
    if k > 0 {
      assert (Rep(' ', k) + t)[1..] == Rep(' ', k - 1) + t;
      TrimBlanks(k - 1, t);
    } else {
      assert Rep(' ', 0) + t == t;
    }
  }

  lemma {:induction false} TrimEndBlanks(k: nat, t: string)
    requires t != [] && t[|t| - 1] != ' '
    ensures TrimEnd(t + Rep(' ', k)) == t
  {
    if k > 0 {
      var s := t + Rep(' ', k);
      assert s[..|s| - 1] == t + Rep(' ', k - 1);
      TrimEndBlanks(k - 1, t);
    } else {
      assert t + Rep(' ', 0) == t;
    }
  }

  /** Leading zeros do not count. */
  lemma {:induction false} LeadingZeros(k: nat, d: string, base: nat)
    requires AllDigits(d, base) && base >= 1
    ensures AllDigits(Rep('0', k) + d, base) && Value(Rep('0', k) + d, base) == Value(d, base)
    decreases k + |d|
  {
    var s := Rep('0', k) + d;
    if d != [] {
      LeadingZeros(k, d[..|d| - 1], base);
      assert s[..|s| - 1] == Rep('0', k) + d[..|d| - 1];
    } else if k > 0 {
      LeadingZeros(k - 1, d, base);
      assert s[..|s| - 1] == Rep('0', k - 1) + d && s[|s| - 1] == '0';
    } else {
      assert s == d;
    }
  }

  function Signed(neg: bool, u: nat): int {
    if neg then -(u as int) else u
  }

  /** Without its padding the output denotes the signed input, for every base, width and side. */
  lemma ReadInverts(u: nat, base: nat, neg: bool, length: nat, ladjust: bool, padc: char, upcase: bool)
    requires 2 <= base <= 36 && (padc == ' ' || padc == '0' || ladjust)
    ensures Read(Printed(u, base, neg, length, ladjust, padc, upcase), base) == Some(Signed(neg, u))
  {
    hide Numeral, Laid, Read;
    NumeralDenotes(u, base, upcase);
    ReadLaid(Numeral(u, base, upcase), base, neg, length, ladjust, padc);
  }

  lemma ReadLaid(d: string, base: nat, neg: bool, length: nat, ladjust: bool, padc: char)
    requires d != [] && 2 <= base <= 36 && AllDigits(d, base) && (padc == ' ' || padc == '0' || ladjust)
    ensures Read(Laid(d, neg, length, ladjust, padc), base) == Some(Signed(neg, Value(d, base)))
  {
    hide Read, Value;
    var out, gap := Laid(d, neg, length, ladjust, padc), Gap(length, |d| + |Sign(neg)|);
    var number := if !ladjust && padc == '0' then Rep('0', gap) + d else d;
    var left, right := if ladjust || padc == '0' then 0 else gap, if ladjust then gap else 0;
    LeadingZeros(gap, d, base);
    assert out == Rep(' ', left) + (Sign(neg) + number) + Rep(' ', right);
    ReadPadded(left, neg, number, right, base);
  }

  /** Blanks around a signed number are skipped. */
  lemma ReadPadded(left: nat, neg: bool, number: string, right: nat, base: nat)
    requires number != [] && AllDigits(number, base) && base <= 36
    ensures Read(Rep(' ', left) + (Sign(neg) + number) + Rep(' ', right), base) == Some(Signed(neg, Value(number, base)))
  {
    hide Trim, TrimEnd, Value, AllDigits;
    var core := Sign(neg) + number;
    Visible(number, base);
    assert Rep(' ', left) + core + Rep(' ', right) == Rep(' ', left) + (core + Rep(' ', right));
    TrimBlanks(left, core + Rep(' ', right));
    TrimEndBlanks(right, core);
    assert core[|Sign(neg)|..] == number;
  }

  lemma Visible(s: string, base: nat)
    requires s != [] && AllDigits(s, base) && base <= 36
    ensures s[0] != ' ' && s[0] != '-' && s[|s| - 1] != ' '
  {
    assert DigitOf(s[0]) < 36 && DigitOf(s[|s| - 1]) < 36;
  }

  // ----- strToUint -----

  /** A 32-bit int holding x. */
  function Wrap(x: int): int {
    (x + 0x8000_0000) % WORD_LIMIT - 0x8000_0000
  }

  /** What strToUint makes of a string: its decimal value in an int, -1 if some character is no digit. */
  function Parsed(s: string): int {
    if AllDigits(s, 10) then Wrap(Value(s, 10)) else -1
  }

  lemma WrapStep(x: nat, d: nat)
    ensures Wrap(d + Wrap(x) * 10) == Wrap(x * 10 + d)
  {
    var q := (x + 0x8000_0000) / WORD_LIMIT;
    assert Wrap(x) == x - q * WORD_LIMIT;
    var y := x * 10 + d + 0x8000_0000;
    assert d + Wrap(x) * 10 + 0x8000_0000 == y - 10 * q * WORD_LIMIT;
    Shift(y, 10 * q);
  }

  lemma Shift(y: int, k: nat)
    ensures (y - k * WORD_LIMIT) % WORD_LIMIT == y % WORD_LIMIT
    decreases k
  {
    if k > 0 {
      Shift(y, k - 1);
      assert y - k * WORD_LIMIT == (y - (k - 1) * WORD_LIMIT) - WORD_LIMIT;
    }
  }

  method StrToUint(str: string) returns (r: int)
    ensures r == Parsed(str)
    ensures (exists c :: c in str && !('0' <= c <= '9')) ==> r == -1
    ensures (forall c :: c in str ==> '0' <= c <= '9') && Value(str, 10) < 0x8000_0000 ==> r == Value(str, 10)
  {
    r := 0;
    var i := 0;
    assert str[..0] == [];
    while i < |str|
      invariant 0 <= i <= |str| && AllDigits(str[..i], 10) && r == Wrap(Value(str[..i], 10))
    {
      if '0' <= str[i] <= '9' {
        WrapStep(Value(str[..i], 10), DigitOf(str[i]));
        assert str[..i + 1][..i] == str[..i];
        r := Wrap((str[i] as int - '0' as int) + r * 10);
      } else {
        assert DigitOf(str[i]) >= 10 && str[i] in str;
        return -1;
      }
      i := i + 1;
    }
    assert str[..i] == str;
    forall c | c in str ensures '0' <= c <= '9' {
      var k :| 0 <= k < |str| && str[k] == c;
      assert DigitOf(str[k]) < 10;
    }
  }

  /** strToUint gives a printed decimal back exactly when there is no sign, no blank, and it fits an int. */
  lemma ParseInvertsIff(u: nat, neg: bool, length: nat, ladjust: bool, padc: char, upcase: bool)
    requires u < WORD_LIMIT && (padc == ' ' || padc == '0')
    ensures Parsed(Printed(u, 10, neg, length, ladjust, padc, upcase)) == u <==>
      !neg && u <= INT_MAX && (length <= |Numeral(u, 10, upcase)| || (padc == '0' && !ladjust))
  {
    hide Numeral, Laid, Parsed;
    NumeralDenotes(u, 10, upcase);
    ParseLaid(Numeral(u, 10, upcase), neg, length, ladjust, padc);
  }

  lemma ParseLaid(d: string, neg: bool, length: nat, ladjust: bool, padc: char)
    requires d != [] && AllDigits(d, 10) && Value(d, 10) < WORD_LIMIT && (padc == ' ' || padc == '0')
    ensures Parsed(Laid(d, neg, length, ladjust, padc)) == Value(d, 10) <==>
      !neg && Value(d, 10) <= INT_MAX && (length <= |d| || (padc == '0' && !ladjust))
  {
    hide Value, Parsed, Wrap, AllDigits;
    if neg {
      SignLaid(d, length, ladjust, padc);
    } else if length > |d| && (ladjust || padc == ' ') {
      BlankLaid(d, length, ladjust, padc);
    } else {
      var gap := Gap(length, |d|);
      LeadingZeros(gap, d, 10);
      PlainLaid(d, length, ladjust, padc);
      Fits(Rep('0', gap) + d);
    }
  }

  lemma SignLaid(d: string, length: nat, ladjust: bool, padc: char)
    ensures Parsed(Laid(d, true, length, ladjust, padc)) == -1
  {
    hide Parsed;
    NoNumber(Laid(d, true, length, ladjust, padc), if ladjust || padc == '0' then 0 else Gap(length, |d| + 1));
  }

  lemma BlankLaid(d: string, length: nat, ladjust: bool, padc: char)
    requires length > |d| && (ladjust || padc == ' ')
    ensures Parsed(Laid(d, false, length, ladjust, padc)) == -1
  {
    hide Parsed;
    var out := Laid(d, false, length, ladjust, padc);
    NoNumber(out, if ladjust then |out| - 1 else 0);
  }

  lemma PlainLaid(d: string, length: nat, ladjust: bool, padc: char)
    requires length <= |d| || (padc == '0' && !ladjust)
    ensures Laid(d, false, length, ladjust, padc) == Rep('0', Gap(length, |d|)) + d
  {
  }

  lemma NoNumber(s: string, i: nat)
    requires i < |s| && (s[i] == '-' || s[i] == ' ')
    ensures Parsed(s) == -1
  {
    assert DigitOf(s[i]) == 36;
  }

  lemma Fits(s: string)
    requires AllDigits(s, 10) && Value(s, 10) < WORD_LIMIT
    ensures Parsed(s) == Value(s, 10) <==> Value(s, 10) <= INT_MAX
  {
  }
}
