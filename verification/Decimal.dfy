/** `str(int)` for non-negative integers, splitting and joining of text. */
module Decimal {

  function Digit(d: nat): char
    requires d < 10
  {
    "0123456789"[d]
  }

  function Dec(n: nat): string {
    if n < 10 then [Digit(n)] else Dec(n / 10) + [Digit(n % 10)]
  }

  predicate IsDigit(c: char) { '0' <= c <= '9' }

  predicate AllDigits(s: string) { forall c :: c in s ==> IsDigit(c) }

  function Val(s: string): nat
    requires AllDigits(s)
  {
    if s == "" then 0
    else
      assert IsDigit(s[|s| - 1]);
      Val(s[..|s| - 1]) * 10 + (s[|s| - 1] as int - '0' as int)
  }

  /** Reading back a printed number gives the number: nothing is lost, so printing is injective. */
  lemma {:induction false} DecRoundTrip(n: nat)
    ensures Dec(n) != "" && AllDigits(Dec(n))
    ensures Val(Dec(n)) == n
    decreases n
  {
    if n >= 10 {
      DecRoundTrip(n / 10);
      var s := Dec(n);
      assert s[..|s| - 1] == Dec(n / 10);
    } else {
      assert Dec(n)[..0] == "";
    }
  }

  /** `str(int)` of any integer. */
  function Signed(v: int): string {
    if v < 0 then "-" + Dec(-v) else Dec(v)
  }

  lemma SignedShowsSign(v: int)
    ensures Signed(v) != "" && (Signed(v)[0] == '-' <==> v < 0)
  {
    if v >= 0 {
      DecRoundTrip(v);
      assert Signed(v)[0] in Dec(v);
    }
  }

  lemma SignedIsInjective(v: int, w: int)
    requires Signed(v) == Signed(w)
    ensures v == w
  {
    SignedShowsSign(v);
    SignedShowsSign(w);
    if v < 0 {
      DecRoundTrip(-v);
      DecRoundTrip(-w);
      assert Signed(v)[1..] == Dec(-v) && Signed(w)[1..] == Dec(-w);
    } else {
      DecRoundTrip(v);
      DecRoundTrip(w);
    }
  }

  function Join(parts: seq<string>, sep: char): string {
    if parts == [] then ""
    else if |parts| == 1 then parts[0]
    else parts[0] + [sep] + Join(parts[1..], sep)
  }

  /** The text before the first separator, and what follows it, if there is one. */
  function FirstIndex(s: string, c: char): (i: nat)
    ensures i <= |s|
    ensures c !in s[..i]
    ensures i < |s| ==> s[i] == c
  {
    if s == "" || s[0] == c then 0
    else
      var i := 1 + FirstIndex(s[1..], c);
      assert s[..i] == [s[0]] + s[1..][..i - 1];
      i
  }

  function Split(s: string, sep: char): (r: seq<string>)
    decreases |s|
  {
    var i := FirstIndex(s, sep);
    if i == |s| then [s] else [s[..i]] + Split(s[i + 1..], sep)
  }

  lemma {:induction false} FirstIndexOfPrefix(a: string, c: char, b: string)
    requires c !in a
    ensures FirstIndex(a + [c] + b, c) == |a|
    decreases a
  {
    var s := a + [c] + b;
    if a != "" {
      assert s[1..] == a[1..] + [c] + b;
      FirstIndexOfPrefix(a[1..], c, b);
    }
  }

  lemma {:induction false} FirstIndexAbsent(s: string, c: char)
    requires c !in s
    ensures FirstIndex(s, c) == |s|
    decreases s
  {
    if s != "" { FirstIndexAbsent(s[1..], c); }
  }

  /** Splitting undoes joining when no part contains the separator. */
  lemma {:induction false} SplitJoin(parts: seq<string>, sep: char)
    requires parts != []
    requires forall p :: p in parts ==> sep !in p
    ensures Split(Join(parts, sep), sep) == parts
    decreases parts
  {
    if |parts| == 1 {
      FirstIndexAbsent(parts[0], sep);
    } else {
      var rest := Join(parts[1..], sep);
      FirstIndexOfPrefix(parts[0], sep, rest);
      var s := parts[0] + [sep] + rest;
      assert s[..|parts[0]|] == parts[0] && s[|parts[0]| + 1..] == rest;
      SplitJoin(parts[1..], sep);
    }
  }
}
