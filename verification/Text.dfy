/** Decimal and hexadecimal numerals as the watcher's format verbs print them,
    and the two ways of cutting a text at a separator that identifiers rely on. */
module Text {

  function Dec(n: nat): (s: string)
    ensures |s| > 0
    ensures forall c <- s :: '0' <= c <= '9'
  {
    if n < 10 then [DecDigit(n)] else Dec(n / 10) + [DecDigit(n % 10)]
  }

  function DecDigit(d: nat): (c: char)
    requires d < 10
    ensures '0' <= c <= '9'
  {
    '0' + d as char
  }

  /** Upper-case hexadecimal without leading zeros (the verb %X). */
  function Hex(n: nat): (s: string)
    ensures |s| > 0
    ensures forall c <- s :: '0' <= c <= '9' || 'A' <= c <= 'F'
  {
    if n < 16 then [HexDigit(n)] else Hex(n / 16) + [HexDigit(n % 16)]
  }

  function HexDigit(d: nat): (c: char)
    requires d < 16
    ensures '0' <= c <= '9' || 'A' <= c <= 'F'
  {
    if d < 10 then '0' + d as char else 'A' + (d - 10) as char
  }

  lemma {:induction false} DecInjective(a: nat, b: nat)
    requires Dec(a) == Dec(b)
    ensures a == b
  {
    var s, t := Dec(a), Dec(b);
    assert s[|s| - 1] == DecDigit(a % 10) && t[|t| - 1] == DecDigit(b % 10);
    assert a % 10 == b % 10;
    if a < 10 || b < 10 {
    } else {
      assert s[..|s| - 1] == Dec(a / 10) && t[..|t| - 1] == Dec(b / 10);
      DecInjective(a / 10, b / 10);
    }
  }

  lemma {:induction false} HexInjective(a: nat, b: nat)
    requires Hex(a) == Hex(b)
    ensures a == b
  {
    var s, t := Hex(a), Hex(b);
    assert s[|s| - 1] == HexDigit(a % 16) && t[|t| - 1] == HexDigit(b % 16);
    assert a % 16 == b % 16;
    if a < 16 || b < 16 {
    } else {
      assert s[..|s| - 1] == Hex(a / 16) && t[..|t| - 1] == Hex(b / 16);
      HexInjective(a / 16, b / 16);
    }
  }

  /** Two texts cut at the last occurrence of the same separator. */
  lemma CutAtLast(a: string, b: string, a': string, b': string, c: char)
    requires c !in b && c !in b'
    requires a + [c] + b == a' + [c] + b'
    ensures a == a' && b == b'
  {
    var s := a + [c] + b;
    var s' := a' + [c] + b';
    assert s[|a|] == c && s'[|a'|] == c;
    assert forall i :: |a| < i < |s| ==> s[i] == b[i - |a| - 1] && s[i] in b;
    assert forall i :: |a'| < i < |s'| ==> s'[i] == b'[i - |a'| - 1] && s'[i] in b';
    assert |a| == |a'|;
    assert s[..|a|] == a && s'[..|a'|] == a';
    assert s[|a| + 1..] == b && s'[|a'| + 1..] == b';
  }

  /** Two texts cut at the first occurrence of the same separator. */
  lemma CutAtFirst(a: string, b: string, a': string, b': string, c: char)
    requires c !in a && c !in a'
    requires a + [c] + b == a' + [c] + b'
    ensures a == a' && b == b'
  {
    var s := a + [c] + b;
    var s' := a' + [c] + b';
    assert s[|a|] == c && s'[|a'|] == c;
    assert forall i :: 0 <= i < |a| ==> s[i] == a[i] && s[i] in a;
    assert forall i :: 0 <= i < |a'| ==> s'[i] == a'[i] && s'[i] in a';
    assert |a| == |a'|;
    assert s[..|a|] == a && s'[..|a'|] == a';
    assert s[|a| + 1..] == b && s'[|a'| + 1..] == b';
  }
}
