/** Request parsing: query strings, dotted-quad addresses and numbers, exactly. */
module HttpUtil {
  import opened Types

  /** A C string: position |s| holds the terminating NUL. */
  type CStr = s: string | '\0' !in s witness ""

  function CharAt(s: string, i: nat): char {
    if i < |s| then s[i] else '\0'
  }

  // Numerals -------------------------------------------------------------------------------------

  function HexDigit(c: char): int {
    if '0' <= c <= '9' then c as int - '0' as int
    else if 'a' <= c <= 'f' then c as int - 'a' as int + 10
    else if 'A' <= c <= 'F' then c as int - 'A' as int + 10
    else -1
  }

  predicate IsDigit(base: nat, c: char) { 0 <= HexDigit(c) < base }

  predicate AllDigits(base: nat, s: string) { forall i :: 0 <= i < |s| ==> IsDigit(base, s[i]) }

  /** The number a digit string denotes. */
  function Value(base: nat, s: string): nat
    requires AllDigits(base, s)
    decreases |s|
  {
    if s == "" then 0
    else
      assert IsDigit(base, s[|s| - 1]);
      Value(base, s[..|s| - 1]) * base + HexDigit(s[|s| - 1])
  }

  /** A longer numeral is never smaller. */
  lemma {:induction false} ValueGrows(base: nat, s: string, n: nat)
    requires base > 0 && AllDigits(base, s) && n <= |s|
    ensures Value(base, s[..n]) <= Value(base, s)
    decreases |s|
  {
    if n == |s| {
      assert s[..n] == s;
    } else {
      var front := s[..|s| - 1];
      assert front[..n] == s[..n];
      ValueGrows(base, front, n);
      MulAtLeast(Value(base, front), base);
    }
  }

  lemma MulAtLeast(v: nat, base: nat)
    requires base > 0
    ensures v * base >= v
  {
  }

  lemma ValueSnoc(base: nat, s: string, c: char)
    requires AllDigits(base, s + [c])
    ensures AllDigits(base, s) && IsDigit(base, c)
    ensures Value(base, s + [c]) == Value(base, s) * base + HexDigit(c)
  {
    var t := s + [c];
    assert t[..|t| - 1] == s && t[|t| - 1] == c;
    forall i | 0 <= i < |s| ensures IsDigit(base, s[i]) {
      assert t[i] == s[i];
    }
  }

  /** The printer's digit. */
  function DigitChar(d: nat): (c: char)
    requires d < 16
    ensures HexDigit(c) == d && c != '.' && c != '\0' && c != 'x' && c != 'X'
    ensures d < 10 ==> '0' <= c <= '9'
  {
    if d < 10 then ('0' as int + d) as char else ('a' as int + d - 10) as char
  }

  /** %u or %x. */
  function Print(base: nat, n: nat): (s: string)
    requires 2 <= base <= 16
    ensures |s| > 0
    decreases n
  {
    if n < base then [DigitChar(n)] else Print(base, n / base) + [DigitChar(n % base)]
  }

  lemma OneDigit(base: nat, d: nat)
    requires d < base <= 16
    ensures AllDigits(base, [DigitChar(d)]) && Value(base, [DigitChar(d)]) == d
  {
    var c := DigitChar(d);
    assert [c][..0] == "";
    assert Value(base, [c]) == Value(base, "") * base + HexDigit(c);
  }

  lemma Quotient(n: nat, base: nat)
    requires 2 <= base <= n
    ensures n / base < n && n / base * base + n % base == n
  {
  }

  lemma PrintOne(base: nat, n: nat)
    requires 2 <= base <= 16 && n < base
    ensures Print(base, n) == [DigitChar(n)]
  {
  }

  lemma PrintSnoc(base: nat, n: nat)
    requires 2 <= base <= 16 && base <= n
    ensures Print(base, n) == Print(base, n / base) + [DigitChar(n % base)]
  {
  }

  lemma AllDigitsSnoc(base: nat, s: string, c: char)
    requires AllDigits(base, s) && IsDigit(base, c)
    ensures AllDigits(base, s + [c])
  {
  }

  lemma {:induction false} PrintedValue(base: nat, n: nat)
    requires 2 <= base <= 16
    ensures AllDigits(base, Print(base, n)) && Value(base, Print(base, n)) == n
    decreases n
  {
    hide Value, HexDigit, Print, AllDigits;
    if n < base {
      PrintOne(base, n);
      OneDigit(base, n);
    } else {
      var front, c := Print(base, n / base), DigitChar(n % base);
      Quotient(n, base);
      PrintedValue(base, n / base);
      PrintSnoc(base, n);
      AllDigitsSnoc(base, front, c);
      ValueSnoc(base, front, c);
    }
  }

  // http_parse_u32 -------------------------------------------------------------------------------

  predicate HasHexPrefix(s: string) { CharAt(s, 0) == '0' && (CharAt(s, 1) == 'x' || CharAt(s, 1) == 'X') }

  function BaseOf(s: string): nat { if HasHexPrefix(s) then 16 else 10 }

  function DigitsOf(s: string): string {
    if HasHexPrefix(s) then s[2..] else s
  }

  /** What is accepted: a decimal numeral, or 0x or 0X and a hexadecimal one, that fits 32 bits. */
  predicate IsU32(s: string) {
    && DigitsOf(s) != "" && AllDigits(BaseOf(s), DigitsOf(s))
    && Value(BaseOf(s), DigitsOf(s)) < 0x1_0000_0000
  }

  /** The accumulator is a u64, and the verifier checks that it never leaves that range. */
  method ParseU32(s: Option<CStr>) returns (r: Option<u32>)
    ensures r.Some? <==> s.Some? && IsU32(s.value)
    ensures r.Some? ==> r.value == Value(BaseOf(s.value), DigitsOf(s.value))
  {
    hide Value, HexDigit, AllDigits;
    if s.None? || |s.value| == 0 {
      return None;
    }
    var text: string := s.value;
    var base: nat := 10;
    if CharAt(text, 0) == '0' && (CharAt(text, 1) == 'x' || CharAt(text, 1) == 'X') {
      base := 16;
      text := text[2..];
      if |text| == 0 {
        return None;
      }
    }
    assert text == DigitsOf(s.value) && base == BaseOf(s.value);
    var v: u64 := 0;
    assert text[..0] == "";
    EmptyValue(base);
    for i := 0 to |text|
      invariant AllDigits(base, text[..i]) && v == Value(base, text[..i]) && v < 0x1_0000_0000
    {
      var d := HexDigit(text[i]);
      DigitNext(base, text, i);
      if d < 0 || d >= base {
        U32Means(s.value);
        return None;
      }
      Small(v, base, d);
      v := v * base + d;
      if v >= 0x1_0000_0000 {
        U32Means(s.value);
        return None;
      }
    }
    assert text[..|text|] == text;
    U32Means(s.value);
    return Some(v);
  }

  lemma Small(v: nat, base: nat, d: nat)
    requires v < 0x1_0000_0000 && base <= 16 && d < 16
    ensures v * base + d < 0x10_0000_0000
  {
    assert v * base <= v * 16;
  }

  /** One more character: a further digit, or the end of all hope for the whole text. */
  lemma DigitNext(base: nat, text: string, i: nat)
    requires base > 0 && i < |text| && AllDigits(base, text[..i])
    ensures !IsDigit(base, text[i]) ==> !AllDigits(base, text)
    ensures IsDigit(base, text[i]) ==>
      && AllDigits(base, text[..i + 1])
      && Value(base, text[..i + 1]) == Value(base, text[..i]) * base + HexDigit(text[i])
      && (AllDigits(base, text) ==> Value(base, text) >= Value(base, text[..i + 1]))
  {
    hide Value, HexDigit;
    if IsDigit(base, text[i]) {
      assert text[..i + 1] == text[..i] + [text[i]];
      AllDigitsSnoc(base, text[..i], text[i]);
      ValueSnoc(base, text[..i], text[i]);
      if AllDigits(base, text) {
        ValueGrows(base, text, i + 1);
      }
    }
  }

  lemma U32Means(s: string)
    ensures IsU32(s) <==>
      && DigitsOf(s) != "" && AllDigits(BaseOf(s), DigitsOf(s)) && Value(BaseOf(s), DigitsOf(s)) < 0x1_0000_0000
  {
  }

  lemma EmptyValue(base: nat)
    ensures AllDigits(base, "") && Value(base, "") == 0
  {
  }

  /** A text without digits is no number, and neither is one with anything but digits. */
  lemma NoDigitsNoNumber(s: string, i: nat)
    ensures !IsU32("") && !IsU32("0x") && !IsU32("0X")
    ensures i < |s| && !HasHexPrefix(s) && !('0' <= s[i] <= '9') ==> !IsU32(s)
    ensures 2 <= i < |s| && HasHexPrefix(s) && !IsDigit(16, s[i]) ==> !IsU32(s)
  {
    assert "0x"[2..] == "" && "0X"[2..] == "";
    if i < |s| && !HasHexPrefix(s) {
      HexDigitsExactly(s[i]);
    }
    if 2 <= i < |s| && HasHexPrefix(s) {
      assert s[2..][i - 2] == s[i];
    }
  }

  /** Both printed forms of every 32-bit number are accepted, and read back as that number. */
  lemma PrintedNumbersParse(n: u32)
    ensures IsU32(Print(10, n)) && Value(BaseOf(Print(10, n)), DigitsOf(Print(10, n))) == n
    ensures IsU32("0x" + Print(16, n)) && Value(BaseOf("0x" + Print(16, n)), DigitsOf("0x" + Print(16, n))) == n
  {
    hide Value, Print;
    PrintedValue(10, n);
    PrintedValue(16, n);
    var d, h := Print(10, n), "0x" + Print(16, n);
    assert |d| > 1 ==> IsDigit(10, d[1]);
    assert !HasHexPrefix(d);
    assert h[0] == '0' && h[1] == 'x' && h[2..] == Print(16, n);
  }

  /** Hexadecimal digits are exactly these, and case does not matter. */
  lemma HexDigitsExactly(c: char)
    ensures IsDigit(16, c) <==> '0' <= c <= '9' || 'a' <= c <= 'f' || 'A' <= c <= 'F'
    ensures IsDigit(10, c) <==> '0' <= c <= '9'
    ensures IsDigit(16, c) ==> HexDigit(UpperChar(c)) == HexDigit(c) && IsDigit(16, UpperChar(c))
  {
  }

  function UpperChar(c: char): char { if 'a' <= c <= 'z' then (c as int - 32) as char else c }

  function Upper(s: string): (u: string)
    ensures |u| == |s| && forall i :: 0 <= i < |s| ==> u[i] == UpperChar(s[i])
  {
    seq(|s|, i requires 0 <= i < |s| => UpperChar(s[i]))
  }

  lemma {:induction false} UpperValue(s: string)
    requires AllDigits(16, s)
    ensures AllDigits(16, Upper(s)) && Value(16, Upper(s)) == Value(16, s)
    decreases |s|
  {
    hide HexDigit, UpperChar;
    forall i | 0 <= i < |s| ensures IsDigit(16, Upper(s)[i]) {
      HexDigitsExactly(s[i]);
    }
    if s != "" {
      var front, c := s[..|s| - 1], s[|s| - 1];
      UpperValue(front);
      assert Upper(s)[..|s| - 1] == Upper(front);
      HexDigitsExactly(c);
      assert Upper(s)[|s| - 1] == UpperChar(c);
    }
  }

  /** %X after 0X is read back too. */
  lemma UpperNumbersParse(n: u32)
    ensures IsU32("0X" + Upper(Print(16, n)))
    ensures Value(BaseOf("0X" + Upper(Print(16, n))), DigitsOf("0X" + Upper(Print(16, n)))) == n
  {
    hide Value, Print, Upper, AllDigits;
    PrintedValue(16, n);
    UpperValue(Print(16, n));
    var u := "0X" + Upper(Print(16, n));
    assert u[0] == '0' && u[1] == 'X' && u[2..] == Upper(Print(16, n));
    UpperLength(Print(16, n));
  }

  lemma UpperLength(s: string)
    ensures |Upper(s)| == |s|
  {
  }

  // http_parse_ipv4 ------------------------------------------------------------------------------

  /** One to three digits denoting at most 255. */
  predicate IsOctet(g: string)
  {
    1 <= |g| <= 3 && AllDigits(10, g) && Value(10, g) <= 255
  }

  function Dotted(a: string, b: string, c: string, d: string): string {
    a + ("." + (b + ("." + (c + ("." + d)))))
  }

  /** How many digits s starts with. */
  function DigitRun(s: string): (n: nat)
    ensures n <= |s| && AllDigits(10, s[..n]) && (n < |s| ==> !IsDigit(10, s[n]))
  {
    if s == "" || !IsDigit(10, s[0]) then 0
    else
      var m := DigitRun(s[1..]);
      assert s[..1 + m] == [s[0]] + s[1..][..m];
      1 + m
  }

  /** Read `more` further octets after the ones in ip. */
  function Octets(s: string, more: nat, ip: nat): Option<nat>
    decreases more
  {
    if more == 0 then if s == "" then Some(ip) else None
    else
      var n := DigitRun(s);
      if !IsOctet(s[..n]) then None
      else
        var ip' := ip * 0x100 + Value(10, s[..n]);
        if more == 1 then Octets(s[n..], 0, ip')
        else if n == |s| || s[n] != '.' then None
        else Octets(s[n + 1..], more - 1, ip')
  }

  /** The octet at position p, its number of digits and its value. */
  function RunAt(text: string, p: nat): (n: nat)
    requires p <= |text|
    ensures p + n <= |text|
  {
    DigitRun(text[p..])
  }

  predicate OctetAt(text: string, p: nat)
    requires p <= |text|
  {
    IsOctet(text[p..][..RunAt(text, p)])
  }

  function OctetValueAt(text: string, p: nat): (v: u8)
    requires p <= |text| && OctetAt(text, p)
  {
    Value(10, text[p..][..RunAt(text, p)])
  }

  function OctetsFrom(text: string, p: nat, more: nat, ip: nat): Option<nat>
    requires p <= |text|
  {
    Octets(text[p..], more, ip)
  }

  lemma {:induction false} RunAtLeast(s: string, k: nat)
    requires k <= |s| && AllDigits(10, s[..k])
    ensures DigitRun(s) >= k
    ensures (k < |s| ==> !IsDigit(10, s[k])) ==> DigitRun(s) == k
    decreases k
  {
    if k > 0 {
      assert s[..k][0] == s[0];
      assert s[1..][..k - 1] == s[..k][1..];
      RunAtLeast(s[1..], k - 1);
    }
  }

  /** The inner loop: one octet at p, and how many digits it has. */
  method ReadOctet(s: string, p: nat) returns (r: Option<(u8, nat)>)
    requires p <= |s|
    ensures r.Some? <==> OctetAt(s, p)
    ensures r.Some? ==> r.value == (OctetValueAt(s, p), RunAt(s, p))
  {
    hide Value, HexDigit;
    var t := s[p..];
    var v: nat, digits := 0, 0;
    EmptyValue(10);
    while digits < |t| && '0' <= t[digits] <= '9'
      invariant digits <= |t| && digits <= 3 && AllDigits(10, t[..digits]) && v == Value(10, t[..digits]) <= 255
    {
      assert IsDigit(10, t[digits]) by { DigitIs(t[digits]); }
      assert t[..digits + 1] == t[..digits] + [t[digits]];
      ValueSnoc(10, t[..digits], t[digits]);
      RunAtLeast(t, digits + 1);
      v := v * 10 + (t[digits] as int - '0' as int);
      DigitIs(t[digits]);
      if v > 255 {
        ghost var run := t[..DigitRun(t)];
        assert run[..digits + 1] == t[..digits + 1];
        ValueGrows(10, run, digits + 1);
        return None;
      }
      digits := digits + 1;
      if digits > 3 {
        return None;
      }
    }
    if digits < |t| {
      DigitIs(t[digits]);
    }
    RunAtLeast(t, digits);
    if digits == 0 {
      return None;
    }
    return Some((v, digits));
  }

  lemma DigitIs(c: char)
    ensures IsDigit(10, c) <==> '0' <= c <= '9'
    ensures '0' <= c <= '9' ==> HexDigit(c) == c as int - '0' as int
  {
  }

  function Cap(octets: nat): nat { if octets == 0 then 1 else 0x100 * Cap(octets - 1) }

  lemma CapEnds()
    ensures Cap(0) == 1 && Cap(4) == 0x1_0000_0000
  {
    assert Cap(1) == 0x100 && Cap(2) == 0x1_0000 && Cap(3) == 0x100_0000;
  }

  lemma CapStep(octets: nat, ip: nat, v: u8)
    requires ip < Cap(octets)
    ensures ip * 0x100 + v < Cap(octets + 1)
  {
  }

  lemma OctetsEnd(text: string, p: nat, ip: nat)
    requires p <= |text|
    ensures OctetsFrom(text, p, 0, ip) == if p == |text| then Some(ip) else None
  {
  }

  /** What reading one octet at p leaves to be read. */
  lemma OctetsAt(text: string, p: nat, more: nat, ip: nat)
    requires p <= |text| && more > 0
    ensures !OctetAt(text, p) ==> OctetsFrom(text, p, more, ip) == None
    ensures OctetAt(text, p) ==>
      var ip', q := ip * 0x100 + OctetValueAt(text, p), p + RunAt(text, p);
      if more == 1 then OctetsFrom(text, p, more, ip) == OctetsFrom(text, q, 0, ip')
      else if CharAt(text, q) != '.' then OctetsFrom(text, p, more, ip) == None
      else q < |text| && OctetsFrom(text, p, more, ip) == OctetsFrom(text, q + 1, more - 1, ip')
  {
    hide IsOctet, Value;
    var n := RunAt(text, p);
    assert text[p..][n..] == text[p + n..];
    if p + n < |text| {
      assert text[p..][n] == text[p + n] && text[p..][n + 1..] == text[p + n + 1..];
    }
  }

  method ParseIpv4(s: Option<CStr>) returns (r: Option<u32>)
    ensures r == if s.None? then None else Octets(s.value, 4, 0)
  {
    hide OctetAt, OctetValueAt, RunAt, OctetsFrom, Octets, Cap;
    if s.None? {
      return None;
    }
    CapEnds();
    var text: string := s.value;
    var p: nat, ip: nat := 0, 0;
    FromStart(text);
    for octet := 0 to 4
      invariant p <= |text| && ip < Cap(octet)
      invariant OctetsFrom(text, p, 4 - octet, ip) == Octets(text, 4, 0)
    {
      OctetsAt(text, p, 4 - octet, ip);
      var g := ReadOctet(text, p);
      if g.None? {
        return None;
      }
      CapStep(octet, ip, g.value.0);
      ip := ip * 0x100 + g.value.0;
      p := p + g.value.1;
      if octet < 3 {
        if CharAt(text, p) != '.' {
          return None;
        }
        p := p + 1;
      }
    }
    OctetsEnd(text, p, ip);
    if CharAt(text, p) != '\0' {
      return None;
    }
    return Some(ip);
  }

  lemma FromStart(text: string)
    ensures OctetsFrom(text, 0, 4, 0) == Octets(text, 4, 0)
  {
    assert text[0..] == text;
  }

  /** An octet and what follows it: its digits are exactly the run the scanner reads. */
  lemma OctetThen(g: string, rest: string)
    requires IsOctet(g) && (rest != "" ==> !IsDigit(10, rest[0]))
    ensures DigitRun(g + rest) == |g| && (g + rest)[..|g|] == g && (g + rest)[|g|..] == rest
  {
    hide Value;
    var s := g + rest;
    assert s[..|g|] == g;
    assert |g| < |s| ==> s[|g|] == rest[0];
    RunAtLeast(s, |g|);
  }

  lemma OctetsMore(g: string, rest: string, more: nat, ip: nat)
    requires IsOctet(g) && more > 1
    ensures Octets(g + ("." + rest), more, ip) == Octets(rest, more - 1, ip * 0x100 + Value(10, g))
  {
    OctetThen(g, "." + rest);
    var s := g + ("." + rest);
    assert s[|g|] == '.' && s[|g| + 1..] == rest;
  }

  lemma OctetsLast(g: string, ip: nat)
    requires IsOctet(g)
    ensures Octets(g, 1, ip) == Some(ip * 0x100 + Value(10, g))
  {
    OctetThen(g, "");
    assert g + "" == g;
  }

  function Address(a: nat, b: nat, c: nat, d: nat): nat { ((a * 0x100 + b) * 0x100 + c) * 0x100 + d }

  /** Four octets with three dots between them: accepted, with the address they spell. */
  lemma DottedParses(a: string, b: string, c: string, d: string)
    requires IsOctet(a) && IsOctet(b) && IsOctet(c) && IsOctet(d)
    ensures Octets(Dotted(a, b, c, d), 4, 0) == Some(Address(Value(10, a), Value(10, b), Value(10, c), Value(10, d)))
  {
    hide Octets, Value, AllDigits;
    var ip1 := Value(10, a);
    var ip2 := ip1 * 0x100 + Value(10, b);
    OctetsMore(a, b + ("." + (c + ("." + d))), 4, 0);
    OctetsMore(b, c + ("." + d), 3, ip1);
    OctetsMore(c, d, 2, ip2);
    OctetsLast(d, ip2 * 0x100 + Value(10, c));
  }

  /** Only such a text is accepted. */
  lemma OctetsSplit(s: string, more: nat, ip: nat) returns (g: string, rest: string)
    requires Octets(s, more, ip).Some? && more > 0
    ensures IsOctet(g)
    ensures if more == 1 then s == g && rest == "" else
      s == g + ("." + rest) && Octets(rest, more - 1, ip * 0x100 + Value(10, g)).Some?
  {
    hide *;
    FirstOctet(s, more, ip);
    var n := DigitRun(s);
    g := s[..n];
    if more == 1 {
      rest := "";
      assert g == s;
    } else {
      rest := s[n + 1..];
      assert s == g + ("." + rest);
    }
  }

  lemma FirstOctet(s: string, more: nat, ip: nat)
    requires Octets(s, more, ip).Some? && more > 0
    ensures var n := DigitRun(s);
      && IsOctet(s[..n])
      && (more == 1 ==> n == |s|)
      && (more > 1 ==> n < |s| && s[n] == '.' && Octets(s[n + 1..], more - 1, ip * 0x100 + Value(10, s[..n])).Some?)
  {
    hide IsOctet, Value, AllDigits, HexDigit, DigitRun;
    var ip' := ip * 0x100 + Value(10, s[..DigitRun(s)]);
    OctetsEnd(s, DigitRun(s), ip');
  }

  predicate IsDotted(s: string, a: string, b: string, c: string, d: string) {
    IsOctet(a) && IsOctet(b) && IsOctet(c) && IsOctet(d) && s == Dotted(a, b, c, d)
  }

  /** Accepted is exactly: four dotted groups of one to three digits, each at most 255. */
  lemma AcceptedExactlyWhenDotted(s: string)
    ensures Octets(s, 4, 0).Some? <==> exists a, b, c, d :: IsDotted(s, a, b, c, d)
  {
    hide Octets, AllDigits, Value;
    if Octets(s, 4, 0).Some? {
      var a, s1 := OctetsSplit(s, 4, 0);
      var b, s2 := OctetsSplit(s1, 3, 0 * 0x100 + Value(10, a));
      var c, s3 := OctetsSplit(s2, 2, (0 * 0x100 + Value(10, a)) * 0x100 + Value(10, b));
      var d, _ := OctetsSplit(s3, 1, ((0 * 0x100 + Value(10, a)) * 0x100 + Value(10, b)) * 0x100 + Value(10, c));
      assert IsDotted(s, a, b, c, d);
    }
    if a, b, c, d :| IsDotted(s, a, b, c, d) {
      DottedParses(a, b, c, d);
    }
  }

  /** "%u.%u.%u.%u" is read back. */
  lemma PrintedAddressesParse(a: u8, b: u8, c: u8, d: u8)
    ensures Octets(Dotted(Print(10, a), Print(10, b), Print(10, c), Print(10, d)), 4, 0) == Some(Address(a, b, c, d))
  {
    hide Octets, Dotted, Value, Print;
    PrintedOctet(a);
    PrintedOctet(b);
    PrintedOctet(c);
    PrintedOctet(d);
    DottedParses(Print(10, a), Print(10, b), Print(10, c), Print(10, d));
  }

  lemma PrintedOctet(n: u8)
    ensures IsOctet(Print(10, n)) && Value(10, Print(10, n)) == n
  {
    hide Value;
    PrintedValue(10, n);
    if n >= 10 {
      assert n / 10 < 26;
      assert |Print(10, n / 10)| <= 2;
    }
  }

  // http_query_get -------------------------------------------------------------------------------

  /** Where c first stands in s, or |s|. */
  function Find(s: string, c: char): (n: nat)
    ensures n <= |s| && c !in s[..n] && (n < |s| ==> s[n] == c)
  {
    if s == "" || s[0] == c then 0
    else
      var m := Find(s[1..], c);
      assert s[..1 + m] == [s[0]] + s[1..][..m];
      1 + m
  }

  /** What follows the first question mark. */
  function QueryOf(url: string): Option<string> {
    var n := Find(url, '?');
    if n == |url| then None else Some(url[n + 1..])
  }

  /** The query cut at its ampersands; nothing stands after a last one. */
  function Pairs(q: string): seq<string>
    decreases |q|
  {
    if q == "" then []
    else
      var n := Find(q, '&');
      [q[..n]] + if n == |q| then [] else Pairs(q[n + 1..])
  }

  predicate Names(pair: string, key: string) {
    |pair| > |key| && pair[..|key|] == key && pair[|key|] == '='
  }

  function FirstValue(pairs: seq<string>, key: string): Option<string> {
    if pairs == [] then None
    else if Names(pairs[0], key) then Some(pairs[0][|key| + 1..])
    else FirstValue(pairs[1..], key)
  }

  function Lookup(url: string, key: string): Option<string> {
    match QueryOf(url)
    case None => None
    case Some(q) => FirstValue(Pairs(q), key)
  }

  function Join(pairs: seq<string>): string {
    if pairs == [] then "" else if |pairs| == 1 then pairs[0] else pairs[0] + ("&" + Join(pairs[1..]))
  }

  /** The pairs are the query cut at every ampersand, all but a last one with nothing behind it. */
  lemma {:induction false} PairsRejoin(q: string)
    ensures forall pair :: pair in Pairs(q) ==> '&' !in pair
    ensures q == Join(Pairs(q)) || q == Join(Pairs(q)) + "&"
    decreases |q|
  {
    hide Find;
    if q != "" {
      var n := Find(q, '&');
      if n == |q| {
        assert q[..n] == q && Pairs(q) == [q];
      } else {
        var tail := q[n + 1..];
        PairsRejoin(tail);
        assert q == q[..n] + ("&" + tail);
        assert Pairs(q)[1..] == Pairs(tail);
        if tail == "" {
          assert Pairs(q) == [q[..n]];
        } else {
          assert q[..n] + ("&" + (Join(Pairs(tail)) + "&")) == q[..n] + ("&" + Join(Pairs(tail))) + "&";
        }
      }
    }
  }

  /** The value found is that of the first pair starting with the key and an equals sign. */
  lemma {:induction false} FirstValueIsFirst(pairs: seq<string>, key: string)
    ensures FirstValue(pairs, key).None? <==> forall i :: 0 <= i < |pairs| ==> !Names(pairs[i], key)
    ensures FirstValue(pairs, key).Some? ==>
      exists i :: 0 <= i < |pairs| && pairs[i] == key + ("=" + FirstValue(pairs, key).value)
        && forall j :: 0 <= j < i ==> !Names(pairs[j], key)
  {
    if pairs != [] {
      if Names(pairs[0], key) {
        assert pairs[0] == pairs[0][..|key|] + ([pairs[0][|key|]] + pairs[0][|key| + 1..]);
      } else {
        FirstValueIsFirst(pairs[1..], key);
        assert forall j :: 0 < j < |pairs| ==> pairs[j] == pairs[1..][j - 1];
        if FirstValue(pairs, key).Some? {
          var i :| 0 <= i < |pairs[1..]| && pairs[1..][i] == key + ("=" + FirstValue(pairs, key).value)
            && forall j :: 0 <= j < i ==> !Names(pairs[1..][j], key);
          assert pairs[i + 1] == pairs[1..][i];
        }
      }
    }
  }

  datatype Code = Done | Invalid | NoEntry | NoSpace

  /** The value is copied whole and terminated, or `out` is left empty, never truncated. */
  method QueryGet(url: Option<CStr>, key: Option<CStr>, out: array<char>) returns (code: Code)
    modifies out
    ensures code.Invalid? <==> url.None? || key.None? || out.Length == 0
    ensures code.Invalid? ==> out[..] == old(out[..])
    ensures !code.Invalid? ==>
      match Lookup(url.value, key.value)
      case None => code == NoEntry && out[0] == '\0'
      case Some(v) =>
        if |v| >= out.Length then code == NoSpace && out[0] == '\0'
        else code == Done && out[..|v|] == v && out[|v|] == '\0'
  {
    hide Find, QueryOf, Lookup, Pairs, FirstValue;
    if url.None? || key.None? || out.Length == 0 {
      return Invalid;
    }
    out[0] := '\0';
    var k: string := key.value;
    LookupMeans(url.value, k);
    var p := QueryOf(url.value);
    if p.None? {
      return NoEntry;
    }
    var q := p.value;
    while q != ""
      invariant out[0] == '\0'
      invariant FirstValue(Pairs(q), k) == Lookup(url.value, k)
      decreases |q|
    {
      var n := Find(q, '&');
      PairsStep(q, k);
      if n > |k| && q[..|k|] == k && q[|k|] == '=' {
        var value := q[|k| + 1..n];
        if |value| >= out.Length {
          return NoSpace;
        }
        CopyOut(value, out);
        return Done;
      }
      if n == |q| {
        return NoEntry;
      }
      q := q[n + 1..];
    }
    NoPairs(k);
    return NoEntry;
  }

  method CopyOut(value: string, out: array<char>)
    requires |value| < out.Length
    modifies out
    ensures out[..|value|] == value && out[|value|] == '\0'
  {
    forall i | 0 <= i < |value| {
      out[i] := value[i];
    }
    out[|value|] := '\0';
  }

  lemma LookupMeans(url: string, key: string)
    ensures Lookup(url, key) == if QueryOf(url).None? then None else FirstValue(Pairs(QueryOf(url).value), key)
  {
  }

  /** What the first pair of a query decides. */
  lemma PairsStep(q: string, key: string)
    requires q != ""
    ensures var n := Find(q, '&');
      FirstValue(Pairs(q), key) ==
        if n > |key| && q[..|key|] == key && q[|key|] == '=' then Some(q[|key| + 1..n])
        else if n == |q| then None
        else FirstValue(Pairs(q[n + 1..]), key)
  {
    hide Find;
    var n := Find(q, '&');
    var pair := q[..n];
    var later := if n == |q| then [] else Pairs(q[n + 1..]);
    assert Pairs(q) == [pair] + later;
    assert ([pair] + later)[1..] == later;
    if n > |key| {
      assert pair[..|key|] == q[..|key|] && pair[|key| + 1..] == q[|key| + 1..n];
    }
  }

  /** True if the key's value is exactly "1". */
  method QueryFlag(url: Option<CStr>, key: Option<CStr>) returns (on: bool)
    ensures on <==> url.Some? && key.Some? && Lookup(url.value, key.value) == Some("1")
  {
    hide Lookup;
    var val := new char[4];
    var code := QueryGet(url, key, val);
    if !code.Done? {
      return false;
    }
    var v := Lookup(url.value, key.value).value;
    assert |v| > 0 ==> v[0] == val[..|v|][0] == val[0];
    assert |v| == 1 ==> v == [val[0]];
    on := val[0] == '1' && val[1] == '\0';
    if |v| > 1 {
      assert val[..|v|][1] == val[1];
      LookedUpHasNoNul(url.value, key.value);
      assert v[1] in v;
    }
  }

  /** A looked-up value is a piece of the url. */
  lemma LookedUpHasNoNul(url: CStr, key: string)
    requires Lookup(url, key).Some?
    ensures '\0' !in Lookup(url, key).value
  {
    hide Find;
    var q := QueryOf(url).value;
    assert forall c :: c in q ==> c in url;
    PieceOfQuery(q, key);
  }

  lemma {:induction false} PieceOfQuery(q: string, key: string)
    requires FirstValue(Pairs(q), key).Some?
    ensures forall c :: c in FirstValue(Pairs(q), key).value ==> c in q
    decreases |q|
  {
    hide Find, FirstValue, Pairs;
    if q != "" {
      PairsStep(q, key);
      var n := Find(q, '&');
      if !(n > |key| && q[..|key|] == key && q[|key|] == '=') && n < |q| {
        PieceOfQuery(q[n + 1..], key);
      }
    } else {
      NoPairs(key);
    }
  }

  lemma NoPairs(key: string)
    ensures FirstValue(Pairs(""), key) == None
  {
  }

  // Printed queries are read back ----------------------------------------------------------------

  datatype Param = Param(key: string, value: string)

  predicate WfKey(key: string) { '=' !in key && '&' !in key }

  predicate WfParams(ps: seq<Param>) { forall i :: 0 <= i < |ps| ==> WfKey(ps[i].key) && '&' !in ps[i].value }

  function PrintParam(p: Param): string { p.key + ("=" + p.value) }

  function PrintParams(ps: seq<Param>): string {
    if ps == [] then ""
    else if |ps| == 1 then PrintParam(ps[0])
    else PrintParam(ps[0]) + ("&" + PrintParams(ps[1..]))
  }

  function FirstParam(ps: seq<Param>, key: string): Option<string> {
    if ps == [] then None else if ps[0].key == key then Some(ps[0].value) else FirstParam(ps[1..], key)
  }

  lemma {:induction false} FindAfter(a: string, c: char, b: string)
    requires c !in a
    ensures Find(a + ([c] + b), c) == |a| && Find(a, c) == |a|
  {
    if a != "" {
      assert (a + ([c] + b))[1..] == a[1..] + ([c] + b);
      FindAfter(a[1..], c, b);
    }
  }

  lemma NamesExactly(p: Param, key: string)
    requires WfKey(p.key) && WfKey(key)
    ensures Names(PrintParam(p), key) <==> p.key == key
    ensures p.key == key ==> PrintParam(p)[|key| + 1..] == p.value
  {
    var s := PrintParam(p);
    assert s[..|p.key|] == p.key && s[|p.key|] == '=';
    assert |key| < |p.key| ==> s[|key|] == p.key[|key|] && p.key[|key|] in p.key;
    assert |p.key| < |key| <= |s| ==> s[|p.key|] == s[..|key|][|p.key|];
    assert |p.key| < |key| ==> key[|p.key|] in key;
  }

  lemma PairsUnfold(q: string)
    requires q != ""
    ensures var n := Find(q, '&'); Pairs(q) == [q[..n]] + if n == |q| then [] else Pairs(q[n + 1..])
  {
    hide Find;
  }

  lemma PairsCons(pair: string, tail: string)
    requires '&' !in pair && pair != ""
    ensures Pairs(pair) == [pair] && Pairs(pair + (['&'] + tail)) == [pair] + Pairs(tail)
  {
    hide Find, Pairs;
    FindAfter(pair, '&', tail);
    var s := pair + (['&'] + tail);
    PairsUnfold(pair);
    PairsUnfold(s);
    assert pair[..|pair|] == pair;
    assert s[..|pair|] == pair && s[|pair| + 1..] == tail;
  }

  lemma FirstValueCons(pair: string, later: seq<string>, key: string)
    ensures FirstValue([pair] + later, key) == if Names(pair, key) then Some(pair[|key| + 1..]) else FirstValue(later, key)
  {
    assert ([pair] + later)[1..] == later;
  }

  lemma {:induction false} FirstOfPrinted(ps: seq<Param>, key: string)
    requires WfParams(ps) && WfKey(key)
    ensures FirstValue(Pairs(PrintParams(ps)), key) == FirstParam(ps, key)
    decreases |ps|
  {
    hide Names, WfKey, Find, Pairs, FirstValue, PrintParam;
    if ps == [] {
      NoPairs(key);
    } else {
      var pair, rest := PrintParam(ps[0]), ps[1..];
      PairHasNoAmpersand(ps[0]);
      NamesExactly(ps[0], key);
      FirstOfPrinted(rest, key);
      PairsCons(pair, PrintParams(rest));
      if |ps| == 1 {
        assert [pair] == [pair] + [];
        FirstValueCons(pair, [], key);
        NoValues(key);
      } else {
        FirstValueCons(pair, Pairs(PrintParams(rest)), key);
      }
    }
  }

  lemma NoValues(key: string)
    ensures FirstValue([], key) == None
  {
  }

  lemma PairHasNoAmpersand(p: Param)
    requires WfKey(p.key) && '&' !in p.value
    ensures '&' !in PrintParam(p) && PrintParam(p) != ""
  {
  }

  /** Every printed query is read back: a key's value is that of the first parameter of that name. */
  lemma PrintedQueriesLookUp(path: string, ps: seq<Param>, key: string)
    requires '?' !in path && WfParams(ps) && WfKey(key)
    ensures Lookup(path + ("?" + PrintParams(ps)), key) == FirstParam(ps, key)
  {
    hide Find, WfParams, WfKey, Pairs, FirstValue;
    var q := PrintParams(ps);
    var url := path + (['?'] + q);
    FindAfter(path, '?', q);
    assert url[|path| + 1..] == q;
    FirstOfPrinted(ps, key);
  }
}
