/** Decimal text, white space and the order on names, as the Go standard library
    defines them. */
module Text {
  datatype Option<+T> = None | Some(value: T)

  /** The largest value of Go's `int` on the platforms the daemon is built for. */
  const MAX_INT: nat := 0x7FFF_FFFF_FFFF_FFFF

  function Digit(d: nat): char
    requires d < 10
  {
    "0123456789"[d]
  }

  predicate IsDigit(c: char) {
    '0' <= c <= '9'
  }

  /** strconv.Itoa on the non-negative integers. */
  function Itoa(n: nat): string {
    if n < 10 then [Digit(n)] else Itoa(n / 10) + [Digit(n % 10)]
  }

  /** The number a run of digits denotes. */
  function DigitsValue(s: string): nat
    requires forall c | c in s :: IsDigit(c)
  {
    if s == "" then 0
    else
      assert IsDigit(s[|s| - 1]);
      10 * DigitsValue(s[..|s| - 1]) + (s[|s| - 1] as int - '0' as int)
  }

  function Unsigned(s: string): Option<nat> {
    if s != "" && forall c | c in s :: IsDigit(c) then Some(DigitsValue(s)) else None
  }

  /** strconv.Atoi: an optional sign, then digits, within 64 bits. */
  function Atoi(s: string): Option<int> {
    var negative := s != "" && s[0] == '-';
    var digits := if s != "" && (s[0] == '-' || s[0] == '+') then s[1..] else s;
    match Unsigned(digits)
    case None => None
    case Some(n) =>
      var v: int := n;
      if negative then (if v <= MAX_INT + 1 then Some(-v) else None)
      else if v <= MAX_INT then Some(v)
      else None
  }

  lemma {:induction false} ItoaDigits(n: nat)
    ensures Itoa(n) != ""
    ensures forall c | c in Itoa(n) :: IsDigit(c)
    ensures DigitsValue(Itoa(n)) == n
  {
    if n >= 10 {
      ItoaDigits(n / 10);
      assert Itoa(n)[..|Itoa(n)| - 1] == Itoa(n / 10);
    } else {
      assert Itoa(n)[..0] == "";
    }
  }

  /** A number survives being written into a label and read back exactly when it fits
      64 bits, also behind a sign. */
  lemma AtoiItoa(n: nat)
    ensures Atoi(Itoa(n)) == Atoi("+" + Itoa(n)) == if n <= MAX_INT then Some(n) else None
    ensures Atoi("-" + Itoa(n)) == if n <= MAX_INT + 1 then Some(0 - n) else None
  {
    ItoaDigits(n);
    assert IsDigit(Itoa(n)[0]);
    assert ("+" + Itoa(n))[1..] == Itoa(n) && ("-" + Itoa(n))[1..] == Itoa(n);
  }

  lemma ItoaInjective(m: nat, n: nat)
    requires Itoa(m) == Itoa(n)
    ensures m == n
  {
    ItoaDigits(m);
    ItoaDigits(n);
  }

  /** Go's `<` on strings. */
  predicate Less(a: string, b: string) {
    if b == "" then false
    else if a == "" then true
    else a[0] < b[0] || (a[0] == b[0] && Less(a[1..], b[1..]))
  }

  /** The order of a dictionary: at the first difference the smaller character, or the
      end, comes first. */
  lemma {:induction false} LessIs(a: string, b: string)
    ensures Less(a, b) <==>
              exists k: nat | k <= |a| && k < |b| :: a[..k] == b[..k] && (k == |a| || a[k] < b[k])
  {
    if a == "" && b != "" {
      assert a[..0] == b[..0];
    } else if b != "" && a[0] != b[0] {
      assert a[..0] == b[..0];
      assert forall k: nat | 0 < k <= |a| && k < |b| :: a[..k][0] != b[..k][0];
    } else if b != "" {
      var x, y := a[1..], b[1..];
      LessIs(x, y);
      if k: nat :| k <= |x| && k < |y| && x[..k] == y[..k] && (k == |x| || x[k] < y[k]) {
        assert a[..k + 1] == [a[0]] + x[..k] && b[..k + 1] == [b[0]] + y[..k];
      }
      if k: nat :| k <= |a| && k < |b| && a[..k] == b[..k] && (k == |a| || a[k] < b[k]) {
        assert k > 0;
        assert a[1..][..k - 1] == a[..k][1..] && b[1..][..k - 1] == b[..k][1..];
      }
    }
  }

  lemma {:induction false} LessTotal(a: string, b: string)
    ensures !Less(a, a)
    ensures Less(a, b) || Less(b, a) || a == b
  {
    if a != "" { LessTotal(a[1..], if b == "" then "" else b[1..]); }
    if a != "" && b != "" && a[0] == b[0] && a[1..] == b[1..] {
      assert a == [a[0]] + a[1..] && b == [b[0]] + b[1..];
    }
  }

  lemma {:induction false} LessTransitive(a: string, b: string, c: string)
    requires Less(a, b) && Less(b, c)
    ensures Less(a, c)
  {
    if a != "" && a[0] == b[0] == c[0] { LessTransitive(a[1..], b[1..], c[1..]); }
  }

  lemma LessWeak(a: string, b: string, c: string)
    ensures Less(a, b) ==> !Less(b, a)
    ensures Less(a, c) ==> Less(a, b) || Less(b, c)
  {
    LessTotal(a, b);
    LessTotal(b, c);
    if Less(a, b) && Less(b, a) { LessTransitive(a, b, a); }
    if Less(a, c) && b != c && !Less(b, c) { LessTransitive(a, c, b); }
  }

  /** Go's unicode.IsSpace. */
  predicate IsSpace(c: char) {
    || c == ' ' || '\U{9}' <= c <= '\U{D}' || c == '\U{85}' || c == '\U{A0}' || c == '\U{1680}'
    || '\U{2000}' <= c <= '\U{200A}' || c == '\U{2028}' || c == '\U{2029}' || c == '\U{202F}'
    || c == '\U{205F}' || c == '\U{3000}'
  }

  /** strings.TrimSpace. */
  function TrimSpace(s: string): string {
    if s == "" then ""
    else if IsSpace(s[0]) then TrimSpace(s[1..])
    else if IsSpace(s[|s| - 1]) then TrimSpace(s[..|s| - 1])
    else s
  }

  predicate Blank(s: string) {
    forall c | c in s :: IsSpace(c)
  }

  /** White space around a text is cut off, and nothing else. */
  lemma {:induction false} TrimAround(a: string, w: string, b: string)
    requires Blank(a) && Blank(b) && (w != "" ==> !IsSpace(w[0]) && !IsSpace(w[|w| - 1]))
    ensures TrimSpace(a + w + b) == w
    decreases |a|, |b|
  {
    var s := a + w + b;
    if a != "" {
      assert s[0] == a[0] && IsSpace(a[0]) && s[1..] == a[1..] + w + b;
      TrimAround(a[1..], w, b);
    } else if w == "" && b != "" {
      assert s == b && s[0] == b[0] && IsSpace(b[0]) && s[1..] == a + w + b[1..];
      TrimAround(a, w, b[1..]);
    } else if b != "" {
      var n := |b| - 1;
      assert s[0] == w[0] && s[|s| - 1] == b[n] && IsSpace(b[n]) && s[..|s| - 1] == a + w + b[..n];
      TrimAround(a, w, b[..n]);
    } else {
      assert s == w;
    }
  }
}
