/** The byte ring behind the last-boot log: a header that detects garbage, and a wrap-around buffer. */
module LogRing {
  import opened Types

  const MAGIC: u32 := 0x4A07BCDE
  const SIZE: nat := 4096

  // The header -----------------------------------------------------------------------------------

  /** Bitwise exclusive or of the low k bits. */
  function XorBits(k: nat, a: nat, b: nat): (x: nat) {
    if k == 0 then 0 else (a % 2 + b % 2) % 2 + 2 * XorBits(k - 1, a / 2, b / 2)
  }

  function Pow2(k: nat): nat { if k == 0 then 1 else 2 * Pow2(k - 1) }

  lemma {:induction false} XorRange(k: nat, a: nat, b: nat)
    ensures XorBits(k, a, b) < Pow2(k)
  {
    if k > 0 {
      XorRange(k - 1, a / 2, b / 2);
    }
  }

  lemma {:induction false} XorSymmetric(k: nat, a: nat, b: nat)
    ensures XorBits(k, a, b) == XorBits(k, b, a)
  {
    if k > 0 {
      XorSymmetric(k - 1, a / 2, b / 2);
    }
  }

  lemma {:induction false} XorCancels(k: nat, a: nat, b: nat, c: nat)
    requires b < Pow2(k) && c < Pow2(k) && XorBits(k, a, b) == XorBits(k, a, c)
    ensures b == c
  {
    if k > 0 {
      var x, y := XorBits(k - 1, a / 2, b / 2), XorBits(k - 1, a / 2, c / 2);
      assert (a % 2 + b % 2) % 2 == (a % 2 + c % 2) % 2 && x == y;
      assert b % 2 == c % 2;
      XorCancels(k - 1, a / 2, b / 2, c / 2);
    }
  }

  lemma Pow32()
    ensures Pow2(32) == 0x1_0000_0000
  {
    assert Pow2(8) == 0x100;
    assert Pow2(16) == 0x100 * Pow2(8);
    assert Pow2(24) == 0x100 * Pow2(16);
    assert Pow2(32) == 0x100 * Pow2(24);
  }

  function Xor(a: u32, b: u32): u32 {
    XorRange(32, a, b);
    Pow32();
    XorBits(32, a, b)
  }

  lemma XorInjective(a: u32, b: u32, c: u32)
    requires Xor(a, b) == Xor(a, c) || Xor(b, a) == Xor(c, a)
    ensures b == c
  {
    hide Pow2, XorBits;
    Pow32();
    XorSymmetric(32, a, b);
    XorSymmetric(32, a, c);
    XorCancels(32, a, b, c);
  }

  /** The complement of the exclusive or of the other three words. */
  function CheckOf(magic: u32, head: u32, wrapped: u32): u32 {
    0xFFFF_FFFF - Xor(Xor(magic, head), wrapped)
  }

  lemma {:induction false} XorComplement(k: nat, x: nat)
    requires x < Pow2(k)
    ensures XorBits(k, Not(k, x), x) == Pow2(k) - 1
    decreases k
  {
    if k > 0 {
      NotDigit(k, x);
      XorComplement(k - 1, Rest(x));
    }
  }

  /** The check word has every bit the exclusive or of the other three has not. */
  lemma CheckIsComplement(magic: u32, head: u32, wrapped: u32)
    ensures Xor(CheckOf(magic, head, wrapped), Xor(Xor(magic, head), wrapped)) == 0xFFFF_FFFF
  {
    hide XorBits, Pow2, Xor;
    Pow32();
    XorComplementHolds(Xor(Xor(magic, head), wrapped));
  }

  lemma XorComplementHolds(x: u32)
    ensures Xor(0xFFFF_FFFF - x, x) == 0xFFFF_FFFF
  {
    hide XorBits, Pow2;
    Pow32();
    XorComplement(32, x);
  }

  /** The header as it lies in memory. */
  datatype Header = Header(magic: u32, head: u32, wrapped: u32, check: u32)

  predicate ValidHeader(h: Header) {
    h.magic == MAGIC && h.head < SIZE && h.wrapped <= 1 && h.check == CheckOf(h.magic, h.head, h.wrapped)
  }

  /** Changing exactly one word of a valid header makes it read as invalid. */
  lemma TornHeaderIsInvalid(h: Header, g: Header)
    requires ValidHeader(h)
    requires
      || (g.magic != h.magic && g == h.(magic := g.magic))
      || (g.head != h.head && g == h.(head := g.head))
      || (g.wrapped != h.wrapped && g == h.(wrapped := g.wrapped))
      || (g.check != h.check && g == h.(check := g.check))
    ensures !ValidHeader(g)
  {
    hide Xor;
    if ValidHeader(g) && g.head != h.head {
      XorInjective(h.wrapped, Xor(MAGIC, h.head), Xor(MAGIC, g.head));
      XorInjective(MAGIC, h.head, g.head);
    } else if ValidHeader(g) && g.wrapped != h.wrapped {
      XorInjective(Xor(MAGIC, h.head), h.wrapped, g.wrapped);
    }
  }

  /** The low binary digit, the rest, and the exclusive or of two digits. */
  function Low(x: nat): nat { x % 2 }
  function Rest(x: nat): nat { x / 2 }
  function Odd(a: nat, b: nat): nat { if a == b then 0 else 1 }

  lemma SameDigits(x: nat, y: nat)
    requires Low(x) == Low(y) && Rest(x) == Rest(y)
    ensures x == y
  {
  }

  lemma XorDigit(k: nat, a: nat, b: nat)
    requires k > 0
    ensures Low(XorBits(k, a, b)) == Odd(Low(a), Low(b))
    ensures Rest(XorBits(k, a, b)) == XorBits(k - 1, Rest(a), Rest(b))
  {
    Joined((a % 2 + b % 2) % 2, XorBits(k - 1, a / 2, b / 2));
  }

  lemma Joined(digit: nat, rest: nat)
    requires digit < 2
    ensures (digit + 2 * rest) % 2 == digit && (digit + 2 * rest) / 2 == rest
  {
  }

  /** The complement of x in k bits. */
  function Not(k: nat, x: nat): nat
    requires x < Pow2(k)
  {
    Pow2(k) - 1 - x
  }

  lemma NotDigit(k: nat, x: nat)
    requires k > 0 && x < Pow2(k)
    ensures Rest(x) < Pow2(k - 1)
    ensures Low(Not(k, x)) == Odd(Low(x), 1) && Rest(Not(k, x)) == Not(k - 1, Rest(x))
  {
    var h, l, p := x / 2, x % 2, Pow2(k - 1);
    assert Pow2(k) == 2 * p;
    Doubled(p, h, l);
  }

  lemma Doubled(p: nat, h: nat, l: nat)
    requires l < 2 && h * 2 + l < 2 * p
    ensures h < p && (2 * p - 1 - (h * 2 + l)) % 2 == 1 - l && (2 * p - 1 - (h * 2 + l)) / 2 == p - 1 - h
  {
    assert 2 * p - 1 - (h * 2 + l) == (p - 1 - h) * 2 + (1 - l);
  }

  /** Two complemented checks over the same magic differ by what head and wrapped differ by. */
  lemma {:induction false} ChecksDiffer(k: nat, m: nat, a: nat, b: nat, c: nat, d: nat)
    ensures XorBits(k, XorBits(k, m, a), b) < Pow2(k) && XorBits(k, XorBits(k, m, c), d) < Pow2(k)
    ensures XorBits(k, Not(k, XorBits(k, XorBits(k, m, a), b)), Not(k, XorBits(k, XorBits(k, m, c), d)))
         == XorBits(k, XorBits(k, a, c), XorBits(k, b, d))
    decreases k
  {
    hide XorBits, Pow2, Low, Rest, Not;
    XorRange(k, XorBits(k, m, a), b);
    XorRange(k, XorBits(k, m, c), d);
    if k == 0 {
      XorNothing();
    } else {
      var x, y := XorBits(k, XorBits(k, m, a), b), XorBits(k, XorBits(k, m, c), d);
      XorDigit(k, m, a);
      XorDigit(k, m, c);
      XorDigit(k, XorBits(k, m, a), b);
      XorDigit(k, XorBits(k, m, c), d);
      NotDigit(k, x);
      NotDigit(k, y);
      XorDigit(k, Not(k, x), Not(k, y));
      XorDigit(k, a, c);
      XorDigit(k, b, d);
      XorDigit(k, XorBits(k, a, c), XorBits(k, b, d));
      ChecksDiffer(k - 1, Rest(m), Rest(a), Rest(b), Rest(c), Rest(d));
      Binary(m);
      Binary(a);
      Binary(b);
      Binary(c);
      Binary(d);
      SameDigits(XorBits(k, Not(k, x), Not(k, y)), XorBits(k, XorBits(k, a, c), XorBits(k, b, d)));
    }
  }

  lemma Binary(x: nat)
    ensures Low(x) < 2
  {
  }

  lemma XorNothing()
    ensures forall a: nat, b: nat :: XorBits(0, a, b) == 0
  {
  }

  /** Exactly which changes to a valid header go unnoticed: the ranges still hold, and the check word changed
      by just what the head and the wrap flag changed by together. */
  lemma StillValidExactlyWhen(h: Header, g: Header)
    requires ValidHeader(h)
    ensures ValidHeader(g) <==>
      && g.magic == MAGIC && g.head < SIZE && g.wrapped <= 1
      && Xor(h.check, g.check) == Xor(Xor(h.head, g.head), Xor(h.wrapped, g.wrapped))
  {
    hide XorBits, Pow2, Low, Rest;
    Pow32();
    if g.magic == MAGIC {
      var right := CheckOf(g.magic, g.head, g.wrapped);
      ChecksDiffer(32, MAGIC, h.head, h.wrapped, g.head, g.wrapped);
      assert Xor(h.check, right) == Xor(Xor(h.head, g.head), Xor(h.wrapped, g.wrapped));
      if Xor(h.check, g.check) == Xor(h.check, right) {
        XorInjective(h.check, g.check, right);
      }
    }
  }

  /** Two changes can cancel: an empty ring's header and one that claims a character. */
  lemma UnnoticedChangeWitness()
    ensures var h, g := Header(MAGIC, 0, 0, CheckOf(MAGIC, 0, 0)), Header(MAGIC, 1, 0, CheckOf(MAGIC, 1, 0));
      ValidHeader(h) && ValidHeader(g) && g.head != h.head && g.check != h.check
  {
    hide XorBits;
    if CheckOf(MAGIC, 0, 0) == CheckOf(MAGIC, 1, 0) {
      XorInjective(0, Xor(MAGIC, 0), Xor(MAGIC, 1));
      XorInjective(MAGIC, 0, 1);
      assert false;
    }
  }

  // The contents ---------------------------------------------------------------------------------

  /** The newest n elements. */
  function Tail(s: seq<char>, n: nat): (t: seq<char>)
    ensures |t| == Min(n, |s|)
    ensures forall k :: 0 <= k < |t| ==> t[k] == s[|s| - |t| + k]
  {
    if n >= |s| then s else s[|s| - n..]
  }

  /** Where the character written k before the newest sits, for a next-write offset `head`. */
  function Pos(head: nat, k: nat): (p: nat)
    requires head < SIZE && k < SIZE
    ensures p < SIZE
  {
    if k < head then head - 1 - k else head + SIZE - 1 - k
  }

  /** The buffer's newest characters, read back from `head`, are the newest of w. */
  ghost predicate Window(buf: seq<char>, head: nat, w: seq<char>) {
    |buf| == SIZE && head < SIZE &&
    forall k :: 0 <= k < Min(|w|, SIZE) ==> buf[Pos(head, k)] == w[|w| - 1 - k]
  }

  predicate Wraps(head: nat, wrapped: nat, total: nat) {
    if total >= SIZE then wrapped == 1 else wrapped == 0 && head == total
  }

  /** Copying a chunk in at `head`, without passing the end, appends it to the window. */
  lemma WindowGrows(buf: seq<char>, head: nat, w: seq<char>, chunk: seq<char>, buf': seq<char>)
    requires Window(buf, head, w) && head + |chunk| <= SIZE
    requires buf' == buf[..head] + chunk + buf[head + |chunk|..]
    ensures Window(buf', if head + |chunk| == SIZE then 0 else head + |chunk|, w + chunk)
  {
    var n := |chunk|;
    var head' := if head + n == SIZE then 0 else head + n;
    forall k | 0 <= k < Min(|w + chunk|, SIZE)
      ensures buf'[Pos(head', k)] == (w + chunk)[|w + chunk| - 1 - k]
    {
      if k >= n {
        assert Pos(head', k) == Pos(head, k - n);
      }
    }
  }

  /** A window of 4096 characters forgets what came before it. */
  lemma WindowForgets(buf: seq<char>, head: nat, a: seq<char>, b: seq<char>, newest: seq<char>)
    requires |newest| >= SIZE && Window(buf, head, a + newest)
    ensures Window(buf, head, b + newest)
  {
    forall k | 0 <= k < SIZE ensures buf[Pos(head, k)] == (b + newest)[|b + newest| - 1 - k] {
      assert (a + newest)[|a + newest| - 1 - k] == newest[|newest| - 1 - k];
    }
  }

  /** The position i after start, around the end. */
  function Around(start: nat, i: nat): (p: nat)
    requires start < SIZE && i < SIZE
    ensures p < SIZE
  {
    if start + i < SIZE then start + i else start + i - SIZE
  }

  /** How much there is to read, and where the newest `cap` of it starts. */
  function Held(head: nat, wrapped: nat): nat { if wrapped != 0 then SIZE else head }

  function StartOf(head: nat, wrapped: nat, cap: nat): (start: nat)
    requires head < SIZE
    ensures start < SIZE
  {
    var from, all := if wrapped != 0 then head else 0, Held(head, wrapped);
    if all > cap then (from + (all - cap)) % SIZE else from
  }

  lemma ReadPosition(head: nat, wrapped: nat, cap: nat, i: nat)
    requires head < SIZE && i < Min(Held(head, wrapped), cap)
    ensures Around(StartOf(head, wrapped, cap), i) == Pos(head, Min(Held(head, wrapped), cap) - 1 - i)
  {
    var from, all := if wrapped != 0 then head else 0, Held(head, wrapped);
    if all > cap {
      var a := from + (all - cap);
      assert a % SIZE == if a < SIZE then a else a - SIZE;
    }
  }

  /** Reading on from the oldest character wanted gives the tail of what the window holds. */
  lemma WindowReads(buf: seq<char>, head: nat, wrapped: nat, w: seq<char>, cap: nat)
    requires Window(buf, head, w) && Wraps(head, wrapped, |w|)
    ensures var total := Min(Held(head, wrapped), cap);
      && total == |Tail(w, Min(cap, SIZE))|
      && forall i :: 0 <= i < total ==> buf[Around(StartOf(head, wrapped, cap), i)] == Tail(w, Min(cap, SIZE))[i]
  {
    hide Around, StartOf, Pos;
    var total, t := Min(Held(head, wrapped), cap), Tail(w, Min(cap, SIZE));
    forall i | 0 <= i < total ensures buf[Around(StartOf(head, wrapped, cap), i)] == t[i] {
      ReadPosition(head, wrapped, cap, i);
      assert buf[Pos(head, total - 1 - i)] == w[|w| - total + i];
    }
  }

  class Ring {
    var header: Header
    const buf: array<char>

    /** This ring holds the tail of `written`, the concatenation of every write since the reset. */
    ghost predicate Holds(written: seq<char>)
      reads this, buf
    {
      && buf.Length == SIZE && ValidHeader(header) && Window(buf[..], header.head, written)
      && Wraps(header.head, header.wrapped, |written|)
    }

    constructor ()
      ensures buf.Length == SIZE && fresh(buf)
    {
      buf := new char[SIZE](_ => '\0');
      header := Header(0, 0, 0, 0);
    }

    method Reset()
      requires buf.Length == SIZE
      modifies this
      ensures Holds([])
    {
      header := Header(MAGIC, 0, 0, CheckOf(MAGIC, 0, 0));
    }

    /** Append data of any length: the ring stays valid and holds what it held, then the data. */
    method Write(data: seq<char>, ghost written: seq<char>)
      requires Holds(written)
      modifies this, buf
      ensures Holds(written + data)
    {
      hide Window, CheckOf;
      var head: nat, wrapped: nat := header.head, header.wrapped;
      var rest := data;
      if |rest| > SIZE {
        rest := rest[|rest| - SIZE..];
      }
      ghost var kept := rest;
      ghost var w := written;
      while |rest| > 0
        invariant buf.Length == SIZE && head < SIZE && header == old(header)
        invariant Window(buf[..], head, w) && Wraps(head, wrapped, |w|)
        invariant w + rest == written + kept
        decreases |rest|
      {
        var n := SIZE - head;
        if n > |rest| {
          n := |rest|;
        }
        ghost var before := buf[..];
        forall i | 0 <= i < n {
          buf[head + i] := rest[i];
        }
        assert buf[..] == before[..head] + rest[..n] + before[head + n..];
        WindowGrows(before, head, w, rest[..n], buf[..]);
        w := w + rest[..n];
        assert rest[..n] + rest[n..] == rest;
        rest := rest[n..];
        head := head + n;
        if head == SIZE {
          head := 0;
          wrapped := 1;
        }
      }
      assert w == written + kept;
      if |data| > SIZE {
        var skipped := data[..|data| - SIZE];
        WindowForgets(buf[..], head, written, written + skipped, kept);
        assert written + skipped + kept == written + data;
      }
      header := header.(head := head, wrapped := wrapped);
      header := header.(check := CheckOf(header.magic, header.head, header.wrapped));
    }

    /** Copy `total` characters from `start` on, around the end of the buffer. */
    method CopySpan(out: array<char>, start: nat, total: nat)
      requires buf.Length == SIZE && out != buf && total <= out.Length && start < SIZE && total <= SIZE
      modifies out
      ensures forall i :: 0 <= i < total ==> out[i] == buf[Around(start, i)]
      ensures out[total..] == old(out[..])[total..]
    {
      var first := SIZE - start;
      if first > total {
        first := total;
      }
      forall i | 0 <= i < first {
        out[i] := buf[start + i];
      }
      forall i | 0 <= i < total - first {
        out[first + i] := buf[i];
      }
    }

    /** Copy the ring out oldest first: exactly the newest characters of everything written, as many as
        the ring and `cap` allow; nothing at all from a ring whose header is garbage. */
    method Copy(out: array<char>, cap: nat, ghost written: seq<char>) returns (total: nat)
      requires buf.Length == SIZE && out != buf && cap <= out.Length
      requires ValidHeader(header) ==> Holds(written)
      modifies out
      ensures total <= cap
      ensures ValidHeader(header) ==> out[..total] == Tail(written, Min(cap, 4096))
      ensures !ValidHeader(header) ==> total == 0
      ensures out[total..] == old(out[..])[total..]
    {
      hide CheckOf, Xor, Window, Around, Tail;
      var ok := ValidHeader(header);
      if !ok || cap == 0 {
        return 0;
      }
      total := if header.wrapped != 0 then SIZE else header.head;
      var start := if header.wrapped != 0 then header.head else 0;
      if total > cap {
        start := (start + (total - cap)) % SIZE;
        total := cap;
      }
      WindowReads(buf[..], header.head, header.wrapped, written, cap);
      CopySpan(out, start, total);
      assert out[..total] == Tail(written, Min(cap, SIZE));
    }
  }

  /** What any sequence of writes amounts to. */
  function Concat(writes: seq<seq<char>>): seq<char> {
    if writes == [] then [] else Concat(writes[..|writes| - 1]) + writes[|writes| - 1]
  }

  /** Reset, any sequence of writes, copy: the copy is the tail of the concatenation. */
  method WriteAllAndCopy(r: Ring, writes: seq<seq<char>>, out: array<char>, cap: nat) returns (total: nat)
    requires r.buf.Length == SIZE && out != r.buf && cap <= out.Length
    modifies r, r.buf, out
    ensures r.Holds(Concat(writes)) && total <= cap
    ensures out[..total] == Tail(Concat(writes), Min(cap, 4096))
  {
    hide ValidHeader, Window;
    r.Reset();
    var i := 0;
    while i < |writes|
      invariant i <= |writes| && r.Holds(Concat(writes[..i]))
    {
      assert writes[..i + 1][..i] == writes[..i];
      r.Write(writes[i], Concat(writes[..i]));
      i := i + 1;
    }
    assert writes[..i] == writes;
    total := r.Copy(out, cap, Concat(writes));
  }
}
