/** Motr object identifiers: printing, parsing (hax/hax/types.py) and the 32-bit base-key mask
    applied to them by hax/hax/util.py. */
module Fids {

  datatype Option<+T> = None | Some(value: T)

  /** Python integers are unbounded and may be negative. */
  datatype Fid = Fid(container: int, key: int)

  // ---------------------------------------------------------------- printing

  const HEX_DIGITS := "0123456789abcdef"

  function Hex(n: nat): (s: string)
    ensures s != [] && forall c :: c in s ==> c in HEX_DIGITS
  {
    if n < 16 then [HEX_DIGITS[n]] else Hex(n / 16) + [HEX_DIGITS[n % 16]]
  }

  /** The `x` format of a Python integer, sign first. */
  function HexInt(n: int): string {
    if n < 0 then "-" + Hex(-n) else Hex(n)
  }

  /** `Fid.__repr__`. */
  function Print(f: Fid): string {
    "0x" + HexInt(f.container) + ":0x" + HexInt(f.key)
  }

  // ---------------------------------------------------------------- parsing

  function DigitValue(c: char): Option<nat> {
    if '0' <= c <= '9' then Some((c as int) - ('0' as int))
    else if 'a' <= c <= 'f' then Some((c as int) - ('a' as int) + 10)
    else if 'A' <= c <= 'F' then Some((c as int) - ('A' as int) + 10)
    else None
  }

  /** One or more digits, single underscores allowed between them. */
  function ParseDigits(s: string): Option<nat>
    decreases |s|
  {
    if s == "" then None
    else
      var front := s[..|s|-1];
      match DigitValue(s[|s|-1])
      case None => None
      case Some(d) =>
        if front == "" then Some(d)
        else
          var higher := if front[|front|-1] == '_' then front[..|front|-1] else front;
          match ParseDigits(higher)
          case None => None
          case Some(v) => Some(16 * v + d)
  }

  function ParseUnsigned(s: string): Option<nat> {
    if |s| >= 2 && s[0] == '0' && (s[1] == 'x' || s[1] == 'X') then
      if |s| >= 3 && s[2] == '_' then ParseDigits(s[3..]) else ParseDigits(s[2..])
    else
      ParseDigits(s)
  }

  predicate IsSpace(c: char) {
    c == ' ' || 9 <= c as int <= 13
  }

  function Strip(s: string): string
    decreases |s|
  {
    if s == "" then s
    else if IsSpace(s[0]) then Strip(s[1..])
    else if IsSpace(s[|s|-1]) then Strip(s[..|s|-1])
    else s
  }

  /** `int(s, 16)`; None stands for ValueError. */
  function ParseInt16(s: string): Option<int> {
    var t := Strip(s);
    if t == "" then None
    else if t[0] == '-' || t[0] == '+' then
      match ParseUnsigned(t[1..])
      case None => None
      case Some(v) =>
        var n: int := if t[0] == '-' then 0 - v else v;
        Some(n)
    else
      match ParseUnsigned(t)
      case None => None
      case Some(v) => Some(v)
  }

  /** Position of the first colon, |s| when there is none. */
  function FirstColon(s: string): (i: nat)
    ensures i <= |s| && ':' !in s[..i]
    ensures i < |s| ==> s[i] == ':'
  {
    if s == "" || s[0] == ':' then 0 else 1 + FirstColon(s[1..])
  }

  /** `Fid.parse`; None stands for ValueError. */
  function Parse(s: string): Option<Fid> {
    var i := FirstColon(s);
    if i == |s| then None
    else
      match (ParseInt16(s[..i]), ParseInt16(s[i+1..]))
      case (Some(c), Some(k)) => Some(Fid(c, k))
      case _ => None
  }

  // ---------------------------------------------------------------- round trip

  lemma DigitIsPlain(c: char)
    requires c in HEX_DIGITS
    ensures c != '_' && c != '-' && c != ':' && !IsSpace(c)
  {
  }

  lemma DigitRead(d: nat)
    requires d < 16
    ensures DigitValue(HEX_DIGITS[d]) == Some(d)
  {
  }

  /** One more digit at the end of a number that does not end in an underscore. */
  lemma {:induction false} ParseMore(s: string, c: char, v: nat, d: nat)
    requires s != "" && s[|s|-1] != '_' && DigitValue(c) == Some(d) && ParseDigits(s) == Some(v)
    ensures ParseDigits(s + [c]) == Some(16 * v + d)
  {
    var t := s + [c];
    assert t[..|t|-1] == s && t[|t|-1] == c;
  }

  lemma {:induction false} RoundTripMore(q: nat, r: nat)
    requires r < 16 && ParseDigits(Hex(q)) == Some(q)
    ensures ParseDigits(Hex(q) + [HEX_DIGITS[r]]) == Some(16 * q + r)
  {
    var higher := Hex(q);
    DigitRead(r);
    DigitIsPlain(higher[|higher|-1]);
    ParseMore(higher, HEX_DIGITS[r], q, r);
  }

  lemma {:induction false} DigitsRoundTrip(n: nat)
    ensures ParseDigits(Hex(n)) == Some(n)
  {
    if n < 16 {
      DigitRead(n);
    } else {
      DigitsRoundTrip(n / 16);
      RoundTripMore(n / 16, n % 16);
    }
  }

  /** What starts with 0 and ends in a digit is not stripped. */
  lemma PrefixedStrip(s: string)
    requires |s| >= 3 && s[0] == '0' && s[|s|-1] in HEX_DIGITS
    ensures Strip(s) == s
  {
    DigitIsPlain(s[|s|-1]);
  }

  lemma PrefixedHex(n: nat)
    ensures ParseInt16("0x" + Hex(n)) == Some(n)
  {
    var h := Hex(n);
    var s := "0x" + h;
    assert s[|s|-1] == h[|h|-1];
    PrefixedStrip(s);
    assert s[2..] == h && s[2] == h[0];
    DigitIsPlain(h[0]);
    DigitsRoundTrip(n);
  }

  /** A minus sign after the 0x prefix is what the printer emits and the parser refuses. */
  lemma PrefixedMinus(n: nat)
    ensures ParseInt16("0x-" + Hex(n)) == None
  {
    var h := Hex(n);
    var s := "0x-" + h;
    assert s[|s|-1] == h[|h|-1];
    PrefixedStrip(s);
    assert s[2..] == ['-'] + h;
    MinusBlocksDigits(h);
  }

  lemma {:induction false} MinusBlocksDigits(h: string)
    ensures ParseDigits(['-'] + h) == None
    decreases |h|
  {
    var s := ['-'] + h;
    if h != "" {
      var front := s[..|s|-1];
      assert front == ['-'] + h[..|h|-1];
      MinusBlocksDigits(h[..|h|-1]);
      if |h| > 1 {
        assert front[..|front|-1] == ['-'] + h[..|h|-2];
        MinusBlocksDigits(h[..|h|-2]);
      }
    }
  }

  lemma NoColon(n: int)
    ensures ':' !in "0x" + HexInt(n)
  {
    if n < 0 {
      assert ':' !in Hex(-n);
    } else {
      assert ':' !in Hex(n);
    }
  }

  lemma PrintedHalf(n: int)
    ensures ParseInt16("0x" + HexInt(n)) == if n >= 0 then Some(n) else None
  {
    if n >= 0 {
      PrefixedHex(n);
    } else {
      var h := Hex(-n);
      assert "0x" + ("-" + h) == "0x-" + h;
      PrefixedMinus(-n);
    }
  }

  lemma {:induction false} ColonAfter(a: string, b: string)
    requires ':' !in a
    ensures FirstColon(a + ":" + b) == |a|
  {
    if a != "" {
      assert (a + ":" + b)[1..] == a[1..] + ":" + b;
      ColonAfter(a[1..], b);
    }
  }

  /** Parsing undoes printing exactly on the fids with no negative component. */
  lemma FidRoundTrip(f: Fid)
    ensures Parse(Print(f)) == Some(f) <==> f.container >= 0 && f.key >= 0
    ensures f.container < 0 || f.key < 0 ==> Parse(Print(f)) == None
  {
    var a, b := "0x" + HexInt(f.container), "0x" + HexInt(f.key);
    PrintedHalf(f.container);
    PrintedHalf(f.key);
    NoColon(f.container);
    assert Print(f) == a + ":" + b;
    ColonAfter(a, b);
    assert (a + ":" + b)[..|a|] == a;
    assert (a + ":" + b)[|a|+1..] == b;
  }

  lemma HexIntInjective(a: int, b: int)
    requires HexInt(a) == HexInt(b)
    ensures a == b
  {
    var s, t := HexInt(a), HexInt(b);
    DigitIsPlain(Hex(if a < 0 then -a else a)[0]);
    DigitIsPlain(Hex(if b < 0 then -b else b)[0]);
    assert (s[0] == '-' <==> a < 0) && (t[0] == '-' <==> b < 0);
    DigitsRoundTrip(if a < 0 then -a else a);
    DigitsRoundTrip(if b < 0 then -b else b);
    assert a < 0 ==> s[1..] == Hex(-a) && t[1..] == Hex(-b);
  }

  lemma PrintParts(f: Fid)
    ensures var a, b := "0x" + HexInt(f.container), "0x" + HexInt(f.key);
            && FirstColon(Print(f)) == |a| && |a| < |Print(f)| && Print(f)[..|a|] == a && Print(f)[|a|+1..] == b
  {
    var a, b := "0x" + HexInt(f.container), "0x" + HexInt(f.key);
    NoColon(f.container);
    assert Print(f) == a + ":" + b;
    ColonAfter(a, b);
  }

  lemma PrefixDropped(s: string)
    ensures ("0x" + s)[2..] == s
  {
  }

  /** Distinct fids print differently, so a printed fid is a safe KV key. */
  lemma PrintInjective(f: Fid, g: Fid)
    ensures Print(f) == Print(g) <==> f == g
  {
    if Print(f) == Print(g) {
      PrintParts(f);
      PrintParts(g);
      PrefixDropped(HexInt(f.container));
      PrefixDropped(HexInt(g.container));
      PrefixDropped(HexInt(f.key));
      PrefixDropped(HexInt(g.key));
      HexIntInjective(f.container, g.container);
      HexIntInjective(f.key, g.key);
    }
  }

  function LowerCase(s: string): (r: string)
    ensures |r| == |s|
  {
    seq(|s|, i requires 0 <= i < |s| => if 'A' <= s[i] <= 'F' then (s[i] as int + 32) as char else s[i])
  }

  lemma LowerDigit(c: char)
    ensures 'A' <= c <= 'F' ==> DigitValue((c as int + 32) as char) == DigitValue(c) && (c as int + 32) as char != '_' && c != '_'
  {
  }

  /** What `ParseDigits` does with the last digit. */
  function WithDigit(higher: Option<nat>, d: Option<nat>): Option<nat> {
    if higher.None? || d.None? then None else Some(16 * higher.value + d.value)
  }

  lemma ParseLast(s: string)
    requires |s| >= 2
    ensures var n := |s| - 1;
            ParseDigits(s) == WithDigit(ParseDigits(if s[n-1] == '_' then s[..n-1] else s[..n]), DigitValue(s[n]))
  {
    var n := |s| - 1;
    assert s[..n][..n-1] == s[..n-1];
  }

  lemma LowerPrefix(s: string, n: nat)
    requires n <= |s|
    ensures LowerCase(s)[..n] == LowerCase(s[..n])
  {
  }

  /** Digits are read in either case. */
  lemma {:induction false} CaseIgnored(s: string)
    ensures ParseDigits(LowerCase(s)) == ParseDigits(s)
    decreases |s|
  {
    if |s| >= 2 {
      var n, t := |s| - 1, LowerCase(s);
      LowerDigit(s[n]);
      LowerDigit(s[n-1]);
      LowerPrefix(s, n);
      LowerPrefix(s, n - 1);
      CaseIgnored(s[..n]);
      CaseIgnored(s[..n-1]);
      ParseLast(s);
      ParseLast(t);
    } else if |s| == 1 {
      LowerDigit(s[0]);
    }
  }
}
