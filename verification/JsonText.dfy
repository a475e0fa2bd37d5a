/** JSON text: the escaping the watcher writes, the unescaping of section 7 of
    RFC 8259, and the grammar of RFC 8259 as concrete syntax trees. */
module JsonText {
  import opened Streams

  // ---------------------------------------------------------------------------
  // Strings

  function LowerHex(d: nat): (c: char)
    requires d < 16
  {
    if d < 10 then '0' + d as char else 'a' + (d - 10) as char
  }

  /** Four hexadecimal digits (the verb %04x, for code points below 0x10000). */
  function Hex4(n: nat): (s: string)
    requires n < 0x10000
    ensures |s| == 4
  {
    [LowerHex(n / 4096), LowerHex(n / 256 % 16), LowerHex(n / 16 % 16), LowerHex(n % 16)]
  }

  function EscapeChar(c: char): string {
    if c == '\\' then "\\\\"
    else if c == '\"' then "\\\""
    else if c == '\n' then "\\n"
    else if c == '\r' then "\\r"
    else if c == '\t' then "\\t"
    else if c as int == 0x08 then "\\b"
    else if c as int == 0x0c then "\\f"
    else if c as int < 0x20 || c as int == 0x7f then "\\u" + Hex4(c as int)
    else [c]
  }

  function Escape(s: string): string {
    if s == [] then [] else Escape(s[..|s| - 1]) + EscapeChar(s[|s| - 1])
  }

  method EscapeString(s: string) returns (r: string)
    ensures r == Escape(s)
  {
    r := "";
    for i := 0 to |s|
      invariant r == Escape(s[..i])
    {
      var c := s[i];
      assert s[..i + 1][..i] == s[..i];
      if c == '\\' {
        r := r + "\\\\";
      } else if c == '\"' {
        r := r + "\\\"";
      } else if c == '\n' {
        r := r + "\\n";
      } else if c == '\r' {
        r := r + "\\r";
      } else if c == '\t' {
        r := r + "\\t";
      } else if c as int == 0x08 {
        r := r + "\\b";
      } else if c as int == 0x0c {
        r := r + "\\f";
      } else if c as int < 0x20 || c as int == 0x7f {
        r := r + "\\u" + Hex4(c as int);
      } else {
        r := r + [c];
      }
    }
    assert s[..|s|] == s;
  }

  /** A character that may stand in a string as it is. */
  predicate IsPlain(c: char) {
    c as int >= 0x20 && c as int != 0x7f && c != '\"' && c != '\\'
  }

  lemma EscapedChar(c: char)
    ensures IsPlain(c) ==> EscapeChar(c) == [c]
    ensures forall x <- EscapeChar(c) :: x as int >= 0x20 && x as int != 0x7f
  {
  }

  /** The characters with an escape of two letters, and one without. */
  lemma ShortEscapes()
    ensures EscapeChar('\n') == "\\n" && EscapeChar('\r') == "\\r" && EscapeChar('\t') == "\\t"
    ensures EscapeChar(0x08 as char) == "\\b" && EscapeChar(0x0c as char) == "\\f"
    ensures EscapeChar('\"') == "\\\"" && EscapeChar('\\') == "\\\\"
    ensures EscapeChar(0x1f as char) == "\\u001f"
  {
  }

  /** No control character is left, and plain text is not touched. */
  lemma {:induction false} EscapesOnlyWhatItMust(s: string)
    ensures (forall c <- s :: IsPlain(c)) ==> Escape(s) == s
    ensures forall x <- Escape(s) :: x as int >= 0x20 && x as int != 0x7f
    decreases |s|
  {
    hide EscapeChar, IsPlain;
    if s == [] {
    } else {
      var front, last := s[..|s| - 1], s[|s| - 1];
      EscapesOnlyWhatItMust(front);
      EscapedChar(last);
      assert last in s && s == front + [last];
    }
  }

  /** One hexadecimal digit of either case. */
  function HexValue(c: char): Option<nat> {
    if '0' <= c <= '9' then Some(c as int - '0' as int)
    else if 'a' <= c <= 'f' then Some(c as int - 'a' as int + 10)
    else if 'A' <= c <= 'F' then Some(c as int - 'A' as int + 10)
    else None
  }

  function HexUnit(s: string): (u: Option<nat>)
    requires |s| >= 4
    ensures u.Some? ==> u.value < 0x10000
  {
    var a, b, c, d := HexValue(s[0]), HexValue(s[1]), HexValue(s[2]), HexValue(s[3]);
    if a.Some? && b.Some? && c.Some? && d.Some?
    then Some(((a.value * 16 + b.value) * 16 + c.value) * 16 + d.value)
    else None
  }

  /** A \u escape: a code point of its own, or half of a surrogate pair. The
      result is the character and how much text it took. */
  function UnescapeUnit(s: string): (r: Option<(char, nat)>)
    requires |s| >= 2
    ensures r.Some? ==> 2 <= r.value.1 <= |s|
  {
    if |s| < 6 || HexUnit(s[2..]).None? then None
    else
      var u := HexUnit(s[2..]).value;
      if u < 0xD800 || u >= 0xE000 then Some((u as char, 6))
      else if u < 0xDC00 && |s| >= 12 && s[6] == '\\' && s[7] == 'u' && HexUnit(s[8..]).Some? then
        var low := HexUnit(s[8..]).value;
        if 0xDC00 <= low < 0xE000 then Some(((0x10000 + (u - 0xD800) * 0x400 + (low - 0xDC00)) as char, 12)) else None
      else None
  }

  /** The first character a string body stands for, and its length in the text. */
  function UnescapeOne(s: string): (r: Option<(char, nat)>)
    requires s != []
    ensures r.Some? ==> 1 <= r.value.1 <= |s|
  {
    if s[0] == '\"' || s[0] as int < 0x20 then None
    else if s[0] != '\\' then Some((s[0], 1))
    else if |s| == 1 then None
    else
      match s[1]
      case '\"' => Some(('\"', 2))
      case '\\' => Some(('\\', 2))
      case '/' => Some(('/', 2))
      case 'b' => Some((0x08 as char, 2))
      case 'f' => Some((0x0c as char, 2))
      case 'n' => Some(('\n', 2))
      case 'r' => Some(('\r', 2))
      case 't' => Some(('\t', 2))
      case 'u' => UnescapeUnit(s)
      case _ => None
  }

  /** What a string body stands for, if it is one. */
  function Unescape(s: string): Option<string>
    decreases |s|
  {
    if s == [] then Some("")
    else
      var first := UnescapeOne(s);
      if first.None? then None
      else
        var rest := Unescape(s[first.value.1..]);
        if rest.None? then None else Some([first.value.0] + rest.value)
  }

  lemma HexValueOfLower(d: nat)
    requires d < 16
    ensures HexValue(LowerHex(d)) == Some(d)
  {
  }

  lemma Hex4Digits(n: nat)
    requires n < 0x10000
    ensures ((n / 4096 * 16 + n / 256 % 16) * 16 + n / 16 % 16) * 16 + n % 16 == n
  {
    assert n / 256 == n / 4096 * 16 + n / 256 % 16;
    assert n / 16 == n / 256 * 16 + n / 16 % 16;
  }

  lemma HexUnitOfHex4(n: nat, rest: string)
    requires n < 0x10000
    ensures HexUnit(Hex4(n) + rest) == Some(n)
  {
    HexValueOfLower(n / 4096);
    HexValueOfLower(n / 256 % 16);
    HexValueOfLower(n / 16 % 16);
    HexValueOfLower(n % 16);
    Hex4Digits(n);
    hide HexValue, LowerHex;
    var s := Hex4(n) + rest;
    assert s[0] == Hex4(n)[0] && s[1] == Hex4(n)[1] && s[2] == Hex4(n)[2] && s[3] == Hex4(n)[3];
  }

  lemma UnescapeEscaped(c: char, rest: string)
    ensures EscapeChar(c) + rest != []
    ensures UnescapeOne(EscapeChar(c) + rest) == Some((c, |EscapeChar(c)|))
  {
    var s := EscapeChar(c) + rest;
    if c as int < 0x10000 && EscapeChar(c) == "\\u" + Hex4(c as int) {
      assert s[2..] == Hex4(c as int) + rest;
      HexUnitOfHex4(c as int, rest);
    }
  }

  lemma UnescapeEscapedFirst(c: char, rest: string)
    requires Unescape(rest).Some?
    ensures Unescape(EscapeChar(c) + rest) == Some([c] + Unescape(rest).value)
  {
    hide UnescapeOne, EscapeChar;
    var tail := EscapeChar(c) + rest;
    UnescapeEscaped(c, rest);
    assert tail[|EscapeChar(c)|..] == rest;
  }

  lemma {:induction false} UnescapeFront(s: string, rest: string)
    requires Unescape(rest).Some?
    ensures Unescape(Escape(s) + rest) == Some(s + Unescape(rest).value)
    decreases |s|
  {
    hide Unescape, EscapeChar;
    if s == [] {
      assert Escape(s) + rest == rest;
      assert s + Unescape(rest).value == Unescape(rest).value;
    } else {
      var front, c := s[..|s| - 1], s[|s| - 1];
      var tail := EscapeChar(c) + rest;
      UnescapeEscapedFirst(c, rest);
      UnescapeFront(front, tail);
      assert Escape(s) + rest == Escape(front) + tail;
      assert front + ([c] + Unescape(rest).value) == s + Unescape(rest).value;
    }
  }

  /** Escaping loses nothing: section 7 of RFC 8259 reads every text back. */
  lemma EscapeRoundTrip(s: string)
    ensures Unescape(Escape(s)) == Some(s)
  {
    UnescapeFront(s, "");
    assert Escape(s) + "" == Escape(s);
    assert s + "" == s;
  }

  // ---------------------------------------------------------------------------
  // The grammar

  /** `before` and `after` are the white space around the value. */
  datatype Json =
    | Null
    | Bool(value: bool)
    | Number(text: string)
    | Str(body: string)
    | Arr(inside: string, items: seq<Item>)
    | Obj(inside: string, members: seq<Member>)

  datatype Item = Item(before: string, value: Json, after: string)

  datatype Member = Member(beforeName: string, name: string, afterName: string, value: Item)

  predicate IsSpace(s: string) {
    forall c <- s :: c == ' ' || c == '\t' || c == '\n' || c == '\r'
  }

  predicate IsDigits(s: string) {
    |s| > 0 && forall c <- s :: '0' <= c <= '9'
  }

  /** A number: sign, integer part without leading zeros, fraction, exponent. */
  ghost predicate IsNumber(s: string) {
    exists sign: string, whole: string, fraction: string, exponent: string ::
      && s == sign + whole + fraction + exponent
      && sign in {"", "-"}
      && IsDigits(whole) && (whole == "0" || whole[0] != '0')
      && IsFraction(fraction) && IsExponent(exponent)
  }

  predicate IsFraction(s: string) {
    s == "" || (s[0] == '.' && IsDigits(s[1..]))
  }

  predicate IsExponent(s: string) {
    s == "" || ((s[0] == 'e' || s[0] == 'E') && |s| > 1 &&
      (IsDigits(s[1..]) || ((s[1] == '+' || s[1] == '-') && IsDigits(s[2..]))))
  }

  ghost predicate Valid(t: Json)
    decreases t, 0
  {
    match t
    case Number(text) => IsNumber(text)
    case Str(body) => Unescape(body).Some?
    case Arr(inside, items) => IsSpace(inside) && forall i :: 0 <= i < |items| ==> ValidItem(items[i])
    case Obj(inside, members) => IsSpace(inside) && forall i :: 0 <= i < |members| ==> ValidMember(members[i])
    case _ => true
  }

  ghost predicate ValidItem(item: Item)
    decreases item, 1
  {
    IsSpace(item.before) && IsSpace(item.after) && Valid(item.value)
  }

  ghost predicate ValidMember(m: Member)
    decreases m, 2
  {
    IsSpace(m.beforeName) && Unescape(m.name).Some? && IsSpace(m.afterName) && ValidItem(m.value)
  }

  /** The text a tree stands for. */
  function Print(t: Json): string
    decreases t, 0
  {
    match t
    case Null => "null"
    case Bool(b) => if b then "true" else "false"
    case Number(text) => text
    case Str(body) => "\"" + body + "\""
    case Arr(inside, items) => "[" + (if items == [] then inside else PrintItems(items)) + "]"
    case Obj(inside, members) => "{" + (if members == [] then inside else PrintMembers(members)) + "}"
  }

  function PrintItem(item: Item): string
    decreases item, 1
  {
    item.before + Print(item.value) + item.after
  }

  function PrintItems(items: seq<Item>): string
    decreases items, 2
  {
    if items == [] then "" else if |items| == 1 then PrintItem(items[0]) else PrintItem(items[0]) + "," + PrintItems(items[1..])
  }

  function PrintMember(m: Member): string
    decreases m, 2
  {
    m.beforeName + "\"" + m.name + "\"" + m.afterName + ":" + PrintItem(m.value)
  }

  function PrintMembers(members: seq<Member>): string
    decreases members, 3
  {
    if members == [] then ""
    else if |members| == 1 then PrintMember(members[0])
    else PrintMember(members[0]) + "," + PrintMembers(members[1..])
  }

  /** `item` is a derivation of the text: the text is a JSON document. */
  ghost predicate Derives(item: Item, s: string) {
    ValidItem(item) && PrintItem(item) == s
  }

  ghost predicate IsJson(s: string) {
    exists item :: Derives(item, s)
  }

  // Texts the grammar has to have

  lemma ExampleNumbers()
    ensures IsNumber("0") && IsNumber("-2.5E+3") && IsNumber("10e7") && !IsNumber("")
  {
    assert "0" == "" + "0" + "" + "" && "10e7" == "" + "10" + "" + "e7" && IsDigits("e7"[1..]);
    assert "-2.5E+3" == "-" + "2" + ".5" + "E+3" && IsDigits(".5"[1..]) && IsDigits("E+3"[2..]);
  }

  /** Two hexadecimal digits in capitals, and a pair of surrogates. */
  lemma ExampleStrings()
    ensures UnescapeUnit("\\u00AF") == Some((0xAF as char, 6))
    ensures UnescapeUnit("\\ud800\\udc00") == Some((0x10000 as char, 12)) && UnescapeUnit("\\ud800").None?
    ensures UnescapeUnit("\\ue000") == Some((0xE000 as char, 6))
  {
    assert "\\u00AF"[2..] == "00AF" && "\\ue000"[2..] == "e000";
    var pair := "\\ud800\\udc00";
    assert pair[2..] == "d800\\udc00" && pair[8..] == "dc00" && "\\ud800"[2..] == "d800";
  }

  /** A list of two documents is a document, and so are an empty list and an empty
      object with any white space inside. */
  lemma Lists(x: string, y: string, inside: string)
    requires IsJson(x) && IsJson(y) && IsSpace(inside)
    ensures IsJson("[" + (x + "," + y) + "]") && IsJson("[" + inside + "]") && IsJson("{" + inside + "}")
  {
    hide Unescape, IsNumber;
    var a :| Derives(a, x);
    var b :| Derives(b, y);
    assert [a, b][1..] == [b];
    assert PrintItems([a, b]) == x + "," + y;
    Alone(Arr("", [a, b]));
    Alone(Arr(inside, []));
    Alone(Obj(inside, []));
  }

  lemma Alone(t: Json)
    requires Valid(t)
    ensures IsJson(Print(t))
  {
    hide Valid, Print;
    assert PrintItem(Item("", t, "")) == Print(t);
    assert Derives(Item("", t, ""), Print(t));
  }
}
