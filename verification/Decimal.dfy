// Decimal numbers of hash strings (encoding.c): the printer, the overflow-checked parser, and the length function.
module Decimal {
  import opened Base64Chars
  import opened Base64
  import opened Common

  /** `sprintf("%lu")` */
  function Dec(n: nat): (d: Text)
    ensures |d| >= 1 && forall i | 0 <= i < |d| :: 48 <= d[i] <= 57
  {
    if n < 10 then [48 + n] else Dec(n / 10) + [48 + n % 10]
  }

  predicate IsDigit(c: Char) {
    48 <= c <= 57
  }

  predicate AllDigits(d: Text) {
    forall i | 0 <= i < |d| :: IsDigit(d[i])
  }

  function DecValue(d: Text): nat
    requires AllDigits(d)
  {
    if d == [] then 0 else DecValue(d[..|d| - 1]) * 10 + (d[|d| - 1] - 48)
  }

  /** Length of the run of digits at a position. */
  function DigitRun(s: Text, pos: nat): (n: nat)
    ensures pos <= |s| ==> pos + n <= |s| && AllDigits(s[pos..pos + n])
    ensures pos + n < |s| ==> !IsDigit(s[pos + n])
    decreases |s| - pos
  {
    if pos < |s| && IsDigit(s[pos]) then
      var n := 1 + DigitRun(s, pos + 1);
      assert s[pos..pos + n] == [s[pos]] + s[pos + 1..pos + n];
      n
    else 0
  }

  /** What `decode_decimal` accepts: a non-empty run without extra zeros whose value fits. */
  function ParseDec(s: Text, pos: nat, max: nat): Option<(nat, nat)>
    requires pos <= |s|
  {
    var n := DigitRun(s, pos);
    var v := DecValue(s[pos..pos + n]);
    if n == 0 || (s[pos] == 48 && n != 1) || v > max then None else Some((v, pos + n))
  }

  lemma {:induction false} ValueGrows(d: Text, k: nat)
    requires AllDigits(d) && k <= |d|
    ensures DecValue(d[..k]) <= DecValue(d)
  {
    if k < |d| {
      var init := d[..|d| - 1];
      ValueGrows(init, k);
      assert init[..k] == d[..k];
    } else {
      assert d[..k] == d;
    }
  }

  lemma DigitStep(s: Text, pos: nat, p: nat)
    requires pos <= p < |s| && p < pos + DigitRun(s, pos)
    ensures IsDigit(s[p])
    ensures AllDigits(s[pos..p]) && AllDigits(s[pos..p + 1])
            && DecValue(s[pos..p + 1]) == DecValue(s[pos..p]) * 10 + (s[p] - 48)
    ensures DecValue(s[pos..p + 1]) <= DecValue(s[pos..pos + DigitRun(s, pos)])
  {
    var run := s[pos..pos + DigitRun(s, pos)];
    assert run[p - pos] == s[p];
    assert s[pos..p + 1] == run[..p + 1 - pos];
    assert s[pos..p + 1][..p - pos] == s[pos..p];
    ValueGrows(run, p + 1 - pos);
  }

  /** `decode_decimal`, for a host whose `unsigned long` goes up to `ulongMax`. */
  method DecodeDecimal(s: Text, pos: nat, ulongMax: nat) returns (r: Option<(nat, nat)>)
    requires pos <= |s| && ulongMax >= UINT32_MAX
    ensures r == ParseDec(s, pos, ulongMax)
  {
    ghost var n := DigitRun(s, pos);
    var acc, p := 0, pos;
    assert s[pos..p] == [];
    while true
      invariant pos <= p <= pos + n
      invariant AllDigits(s[pos..p]) && acc == DecValue(s[pos..p]) <= ulongMax
      decreases pos + n - p
    {
      var c: int := CharAt(s, p);
      if c < 48 || c > 57 {
        break;
      }
      DigitStep(s, pos, p);
      c := c - 48;
      if acc > ulongMax / 10 {
        return None;
      }
      acc := acc * 10;
      if c > ulongMax - acc {
        return None;
      }
      acc := acc + c;
      p := p + 1;
    }
    if p < pos + n { DigitStep(s, pos, p); }
    if p == pos || (CharAt(s, pos) == 48 && p != pos + 1) {
      return None;
    }
    return Some((acc, p));
  }

  /** `numlen` counts the printed digits. */
  method NumLen(num: nat) returns (len: nat)
    ensures len == |Dec(num)|
  {
    var n := num;
    len := 1;
    while n >= 10
      invariant len + |Dec(n)| == 1 + |Dec(num)|
    {
      len := len + 1;
      n := n / 10;
    }
  }

  // ----- printing and parsing are inverse -----

  lemma {:induction false} ValueOfDec(n: nat)
    ensures AllDigits(Dec(n)) && DecValue(Dec(n)) == n
    ensures Dec(n)[0] == 48 ==> n == 0 && |Dec(n)| == 1
  {
    var d := Dec(n);
    if n < 10 {
      assert d[..0] == [];
    } else {
      ValueOfDec(n / 10);
      assert d[..|d| - 1] == Dec(n / 10);
    }
  }

  /** A run of digits without extra zeros is what its value prints to. */
  lemma {:induction false} DecOfValue(d: Text)
    requires AllDigits(d) && |d| >= 1 && (d[0] == 48 ==> |d| == 1)
    ensures Dec(DecValue(d)) == d
    ensures d[0] != 48 ==> DecValue(d) >= 1
  {
    var init, last := d[..|d| - 1], d[|d| - 1] - 48;
    if |d| == 1 {
      assert init == [];
      assert Dec(last) == [48 + last];
      assert d == [d[0]];
    } else {
      DecOfValue(init);
      var v := DecValue(init);
      assert (v * 10 + last) / 10 == v && (v * 10 + last) % 10 == last;
      assert d == init + [d[|d| - 1]];
    }
  }

  lemma {:induction false} RunOfDigits(s: Text, pos: nat, d: Text, rest: Text)
    requires pos <= |s| && s[pos..] == d + rest && AllDigits(d) && (rest != [] ==> !IsDigit(rest[0]))
    ensures DigitRun(s, pos) == |d|
    decreases |d|
  {
    if d == [] {
      if pos < |s| { assert s[pos] == rest[0]; }
    } else {
      assert s[pos] == d[0];
      assert s[pos + 1..] == s[pos..][1..] == d[1..] + rest;
      RunOfDigits(s, pos + 1, d[1..], rest);
    }
  }

  /** Main result: a printed number followed by anything but a digit parses to itself if it fits. */
  lemma ParseOfDec(s: Text, pos: nat, n: nat, rest: Text, max: nat)
    requires pos <= |s| && s[pos..] == Dec(n) + rest && (rest != [] ==> !IsDigit(rest[0]))
    ensures ParseDec(s, pos, max) == if n <= max then Some((n, pos + |Dec(n)|)) else None
    ensures s[pos + |Dec(n)|..] == rest
  {
    ValueOfDec(n);
    RunOfDigits(s, pos, Dec(n), rest);
    assert s[pos] == Dec(n)[0];
    assert s[pos..pos + |Dec(n)|] == Dec(n);
    assert s[pos + |Dec(n)|..] == s[pos..][|Dec(n)|..];
  }

  /** Main result: an accepted number is the printed form of its value. */
  lemma DecOfParse(s: Text, pos: nat, max: nat)
    requires pos <= |s| && ParseDec(s, pos, max).Some?
    ensures var (v, end) := ParseDec(s, pos, max).value;
            pos <= end <= |s| && s[pos..] == Dec(v) + s[end..] && v <= max
  {
    var n := DigitRun(s, pos);
    DecOfValue(s[pos..pos + n]);
  }
}
