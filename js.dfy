// The few JavaScript runtime behaviours the pages rely on, stated as Dafny
// functions: optional values with `||` fallback, `String.prototype.trim`,
// `String(n)` for integers and `Array.prototype.join('')`.

module Js {

  /** A value that may be `undefined`/`null` (None) or present (Some). */
  datatype Option<+T> = None | Some(value: T)

  /** `a || fallback` where `a` is an optional string: an absent or empty
      string is falsy, so the fallback is used. */
  function OrElse(a: Option<string>, fallback: string): (r: string)
    ensures a.Some? && a.value != "" ==> r == a.value
    ensures a.None? || a.value == "" ==> r == fallback
  {
    if a.Some? && a.value != "" then a.value else fallback
  }

  /** WhiteSpace and LineTerminator code points, which `trim` removes. */
  predicate IsWhiteSpace(c: char)
  {
    c == '\t' || c == '\n' || c == '\U{B}' || c == '\U{C}' || c == '\r' || c == ' '
    || c == '\U{A0}' || c == '\U{1680}' || ('\U{2000}' <= c <= '\U{200A}')
    || c == '\U{2028}' || c == '\U{2029}' || c == '\U{202F}' || c == '\U{205F}'
    || c == '\U{3000}' || c == '\U{FEFF}'
  }

  predicate AllWhiteSpace(s: string)
  {
    forall k :: 0 <= k < |s| ==> IsWhiteSpace(s[k])
  }

  /** Drops leading white space. */
  function TrimStart(s: string): (r: string)
    ensures |r| <= |s| && r == s[|s| - |r|..]
    ensures r == [] || !IsWhiteSpace(r[0])
    ensures AllWhiteSpace(s[..|s| - |r|])
  {
    if s != [] && IsWhiteSpace(s[0]) then TrimStart(s[1..]) else s
  }

  /** Drops trailing white space. */
  function TrimEnd(s: string): (r: string)
    ensures |r| <= |s| && r == s[..|r|]
    ensures r == [] || !IsWhiteSpace(r[|r| - 1])
    ensures AllWhiteSpace(s[|r|..])
  {
    if s != [] && IsWhiteSpace(s[|s| - 1]) then TrimEnd(s[..|s| - 1]) else s
  }

  /** `s.trim()`: what is left starts and ends with a character other than
      white space, and is no longer than `s`. */
  function Trim(s: string): (r: string)
    ensures |r| <= |s|
    ensures r == [] || (!IsWhiteSpace(r[0]) && !IsWhiteSpace(r[|r| - 1]))
  {
    TrimEnd(TrimStart(s))
  }

  /** `s.trim()` is the empty (falsy) string exactly when `s` is all white space. */
  lemma TrimEmptyIffBlank(s: string)
    ensures Trim(s) == "" <==> AllWhiteSpace(s)
  {
    var t := TrimStart(s);
    if Trim(s) == "" {
      assert AllWhiteSpace(t) by { assert t[0..] == t; }
      assert s[..|s| - |t|] == s;
    }
  }

  /** A decimal digit as a character. */
  function DigitChar(d: nat): (c: char)
    requires d < 10
    ensures '0' <= c <= '9' && c as int - '0' as int == d
  {
    (('0' as int) + d) as char
  }

  /** Decimal representation of a natural number, without leading zeros. */
  function NatToString(n: nat): (r: string)
    ensures |r| >= 1 && (|r| > 1 ==> r[0] != '0')
    ensures forall k :: 0 <= k < |r| ==> '0' <= r[k] <= '9'
  {
    if n < 10 then [DigitChar(n)] else NatToString(n / 10) + [DigitChar(n % 10)]
  }

  /** `String(i)` for an integer `i`. */
  function IntToString(i: int): (r: string)
    ensures |r| >= 1 && (r[0] == '-' <==> i < 0)
  {
    if i < 0 then "-" + NatToString(-i) else NatToString(i)
  }

  /** The value of a string of decimal digits; the inverse of NatToString. */
  function DecimalValue(s: string): nat
    requires forall k :: 0 <= k < |s| ==> '0' <= s[k] <= '9'
  {
    if s == [] then 0 else 10 * DecimalValue(s[..|s| - 1]) + (s[|s| - 1] as int - '0' as int)
  }

  lemma {:induction false} NatToStringRoundTrip(n: nat)
    ensures DecimalValue(NatToString(n)) == n
  {
    if n >= 10 {
      var r := NatToString(n);
      assert r[..|r| - 1] == NatToString(n / 10);
      NatToStringRoundTrip(n / 10);
    }
  }

  /** Distinct integers have distinct `String` forms. */
  lemma IntToStringInjective(a: int, b: int)
    ensures IntToString(a) == IntToString(b) <==> a == b
  {
    if IntToString(a) == IntToString(b) {
      if a < 0 {
        assert NatToString(-a) == IntToString(a)[1..];
        NatToStringRoundTrip(-a);
        NatToStringRoundTrip(-b);
      } else {
        NatToStringRoundTrip(a);
        NatToStringRoundTrip(b);
      }
    }
  }

  /** `parts.join('')` */
  function Concat(parts: seq<string>): string
  {
    if parts == [] then "" else parts[0] + Concat(parts[1..])
  }

  lemma {:induction false} ConcatAppend(a: seq<string>, b: seq<string>)
    ensures Concat(a + b) == Concat(a) + Concat(b)
  {
    if a == [] {
      assert a + b == b;
    } else {
      assert (a + b)[0] == a[0];
      assert (a + b)[1..] == a[1..] + b;
      ConcatAppend(a[1..], b);
    }
  }

  /** The `i`-th part sits in the joined string between the parts before it and those after it. */
  lemma ConcatSplit(parts: seq<string>, i: nat)
    requires i < |parts|
    ensures Concat(parts) == Concat(parts[..i]) + parts[i] + Concat(parts[i + 1..])
  {
    calc {
      Concat(parts);
      { assert parts == parts[..i] + parts[i..]; ConcatAppend(parts[..i], parts[i..]); }
      Concat(parts[..i]) + Concat(parts[i..]);
      { assert parts[i..][1..] == parts[i + 1..]; }
      Concat(parts[..i]) + (parts[i] + Concat(parts[i + 1..]));
    }
  }

  /** `piece` stands in `s` from index `k` on. */
  predicate OccursAt(piece: string, s: string, k: int)
  {
    0 <= k && k + |piece| <= |s| && s[k..k + |piece|] == piece
  }

  /** `piece` stands somewhere in `s`. */
  ghost predicate Occurs(piece: string, s: string)
  {
    exists k :: OccursAt(piece, s, k)
  }

  lemma OccursBetween(a: string, b: string, c: string)
    ensures OccursAt(b, a + b + c, |a|)
  {
    assert (a + b + c)[|a|..|a| + |b|] == b;
  }

  lemma OccursLeft(a: string, b: string)
    ensures Occurs(a, a + b)
  {
    assert (a + b)[0..|a|] == a;
    assert OccursAt(a, a + b, 0);
  }

  lemma OccursRight(a: string, b: string)
    ensures Occurs(b, a + b)
  {
    assert (a + b)[|a|..|a| + |b|] == b;
    assert OccursAt(b, a + b, |a|);
  }

  /** A piece of a piece of `s` is a piece of `s`. */
  lemma OccursTransitive(p: string, q: string, s: string)
    requires Occurs(p, q) && Occurs(q, s)
    ensures Occurs(p, s)
  {
    var i :| OccursAt(p, q, i);
    var j :| OccursAt(q, s, j);
    forall m | 0 <= m < |p|
      ensures s[j + i + m] == p[m]
    {
      assert q[i + m] == p[m];
      assert s[j + i + m] == s[j..j + |q|][i + m];
    }
    assert s[j + i..j + i + |p|] == p;
    assert OccursAt(p, s, j + i);
  }

  /** Each part stands in the joined string. */
  lemma PartOccurs(parts: seq<string>, i: nat)
    requires i < |parts|
    ensures Occurs(parts[i], Concat(parts))
  {
    ConcatSplit(parts, i);
    OccursBetween(Concat(parts[..i]), parts[i], Concat(parts[i + 1..]));
  }
}
