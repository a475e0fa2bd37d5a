/** A row image as the watcher renders it, what the text means as JSON, and
    exactly when it is JSON at all. */
module PgRow {
  import opened Streams
  import opened JsonText

  /** One column's value: Unknown stands for a marker the protocol does not have. */
  datatype Value =
    | NullValue
    | Numeric(text: string)
    | Boolean(b: bool)
    | Document(text: string)
    | Quoted(text: string)
    | Unknown

  datatype Field = Field(name: string, value: Value)

  const UNKNOWN := "unknown"

  predicate IsWord(s: string) {
    forall i :: 0 <= i < |s| ==> 'a' <= s[i] <= 'z'
  }

  function ValueText(v: Value): string {
    match v
    case NullValue => "null"
    case Numeric(text) => text
    case Boolean(b) => if b then "true" else "false"
    case Document(text) => text
    case Quoted(text) => "\"" + Escape(text) + "\""
    case Unknown => "\"" + UNKNOWN + "\""
  }

  function FieldText(f: Field): string {
    "\"" + Escape(f.name) + "\":" + ValueText(f.value)
  }

  function FieldsText(fields: seq<Field>): string {
    if fields == [] then ""
    else if |fields| == 1 then FieldText(fields[0])
    else FieldsText(fields[..|fields| - 1]) + ", " + FieldText(fields[|fields| - 1])
  }

  lemma FieldsTextEmpty()
    ensures FieldsText([]) == ""
  {
  }

  lemma FieldsTextLast(fields: seq<Field>, f: Field)
    ensures FieldsText(fields + [f]) == (if fields == [] then "" else FieldsText(fields) + ", ") + FieldText(f)
  {
    hide FieldText;
    var longer := fields + [f];
    assert longer[..|fields|] == fields && longer[|fields|] == f;
    assert "" + FieldText(f) == FieldText(f);
  }

  function RowText(fields: seq<Field>): string {
    "{" + FieldsText(fields) + "}"
  }

  // ---------------------------------------------------------------------------
  // What the text means

  /** A number is JSON, and so is a document. */
  ghost predicate Sound(v: Value) {
    match v
    case Numeric(text) => IsNumber(text)
    case Document(text) => IsJson(text)
    case _ => true
  }

  /** The JSON value stands for the column value. */
  ghost predicate Means(item: Item, v: Value) {
    match v
    case NullValue => item.value == Null
    case Numeric(text) => item.value == Number(text)
    case Boolean(b) => item.value == Bool(b)
    case Document(text) => Derives(item, text)
    case Quoted(text) => item.value.Str? && Unescape(item.value.body) == Some(text)
    case Unknown => item.value.Str? && Unescape(item.value.body) == Some(UNKNOWN)
  }

  /** The object lists the fields: same names and values, in the same order. */
  ghost predicate Lists(members: seq<Member>, fields: seq<Field>) {
    && |members| == |fields|
    && forall k :: 0 <= k < |fields| ==> MemberIs(members[k], fields[k])
  }

  ghost predicate MemberIs(m: Member, f: Field) {
    ValidMember(m) && Unescape(m.name) == Some(f.name) && Means(m.value, f.value)
  }

  lemma LeafDerives(t: Json) returns (item: Item)
    requires JsonText.Valid(t)
    ensures item == Item("", t, "") && Derives(item, Print(t))
  {
    hide Print, JsonText.Valid;
    item := Item("", t, "");
    assert PrintItem(item) == Print(t);
  }

  lemma ValueDerives(v: Value) returns (item: Item)
    requires Sound(v)
    ensures Derives(item, ValueText(v)) && Means(item, v)
  {
    hide Escape, Unescape, IsNumber, ValidItem, PrintItem;
    match v {
      case NullValue => item := LeafDerives(Null);
      case Numeric(text) => item := LeafDerives(Number(text));
      case Boolean(b) => item := LeafDerives(Bool(b));
      case Document(text) => item :| Derives(item, text);
      case Quoted(text) =>
        EscapeRoundTrip(text);
        item := LeafDerives(Str(Escape(text)));
      case Unknown =>
        PlainEscape(UNKNOWN);
        EscapeRoundTrip(UNKNOWN);
        item := LeafDerives(Str(UNKNOWN));
    }
  }

  lemma PlainChar(c: char)
    requires 'a' <= c <= 'z'
    ensures EscapeChar(c) == [c]
  {
  }

  /** Letters are their own escape. */
  lemma {:induction false} PlainEscape(s: string)
    requires IsWord(s)
    ensures Escape(s) == s
    decreases |s|
  {
    if s == [] {
    } else {
      var front, c := s[..|s| - 1], s[|s| - 1];
      hide EscapeChar;
      PlainChar(c);
      PlainEscape(front);
      assert s == front + [c];
    }
  }

  lemma FieldDerives(f: Field, before: string) returns (m: Member)
    requires Sound(f.value) && IsSpace(before)
    ensures MemberIs(m, f) && PrintMember(m) == before + FieldText(f)
  {
    hide Escape, Unescape, ValueText, Means, Sound, PrintItem, ValidItem;
    var item := ValueDerives(f.value);
    EscapeRoundTrip(f.name);
    m := Member(before, Escape(f.name), "", item);
    assert PrintMember(m) == before + FieldText(f);
  }

  lemma {:induction false} PrintMembersLast(members: seq<Member>, m: Member)
    requires members != []
    ensures PrintMembers(members + [m]) == PrintMembers(members) + "," + PrintMember(m)
    decreases |members|
  {
    var longer := members + [m];
    assert longer[0] == members[0] && longer[1..] == members[1..] + [m];
    if |members| == 1 {
      assert longer[1..] == [m];
    } else {
      PrintMembersLast(members[1..], m);
    }
  }

  lemma {:induction false} FieldsDerive(fields: seq<Field>) returns (members: seq<Member>)
    requires forall f <- fields :: Sound(f.value)
    ensures Lists(members, fields) && PrintMembers(members) == FieldsText(fields)
    decreases |fields|
  {
    hide FieldText, PrintMember, MemberIs, Sound;
    if fields == [] {
      members := [];
    } else if |fields| == 1 {
      var m := FieldDerives(fields[0], "");
      members := [m];
      assert "" + FieldText(fields[0]) == FieldText(fields[0]);
    } else {
      var front, f := fields[..|fields| - 1], fields[|fields| - 1];
      var before := FieldsDerive(front);
      var m := FieldDerives(f, " ");
      PrintMembersLast(before, m);
      members := before + [m];
      assert "," + (" " + FieldText(f)) == ", " + FieldText(f);
      assert FieldsText(front) + "," + (" " + FieldText(f)) == FieldsText(front) + ", " + FieldText(f);
    }
  }

  lemma ObjectText(members: seq<Member>)
    requires forall i :: 0 <= i < |members| ==> ValidMember(members[i])
    ensures JsonText.Valid(Obj("", members)) && Print(Obj("", members)) == "{" + PrintMembers(members) + "}"
  {
    assert members == [] ==> PrintMembers(members) == "";
    hide PrintMembers, ValidMember;
    assert IsSpace("");
  }

  /** Every row image of sound values is a JSON object that lists exactly its
      fields, each with its name and value. */
  lemma RowIsTheObject(fields: seq<Field>) returns (members: seq<Member>)
    requires forall f <- fields :: Sound(f.value)
    ensures Lists(members, fields)
    ensures Derives(Item("", Obj("", members), ""), RowText(fields))
    ensures IsJson(RowText(fields))
  {
    hide FieldsText, PrintMembers, Means, Sound, Derives, ValidMember;
    members := FieldsDerive(fields);
    assert forall i :: 0 <= i < |members| ==> MemberIs(members[i], fields[i]);
    ObjectText(members);
    var _ := LeafDerives(Obj("", members));
  }

  // ---------------------------------------------------------------------------
  // When the text is not JSON

  /** Where a scan stands: outside strings, inside one, or after a backslash.
      Lost: a letter N or I was met outside strings. */
  datatype Mode = Outside | Inside | Escaped | Lost

  function Step(m: Mode, c: char): Mode {
    match m
    case Outside => if c == '\"' then Inside else if c == 'N' || c == 'I' then Lost else Outside
    case Inside => if c == '\"' then Outside else if c == '\\' then Escaped else Inside
    case Escaped => Inside
    case Lost => Lost
  }

  function Scan(m: Mode, s: string): Mode
    decreases |s|
  {
    if s == [] then m else Scan(Step(m, s[0]), s[1..])
  }

  lemma {:induction false} ScanConcat(m: Mode, s: string, t: string)
    ensures Scan(m, s + t) == Scan(Scan(m, s), t)
    decreases |s|
  {
    if s == [] {
      assert s + t == t;
    } else {
      assert (s + t)[1..] == s[1..] + t;
      ScanConcat(Step(m, s[0]), s[1..], t);
    }
  }

  lemma {:induction false} ScanLost(s: string)
    ensures Scan(Lost, s) == Lost
    decreases |s|
  {
    if s == [] {
    } else {
      ScanLost(s[1..]);
    }
  }

  /** Characters a number or white space is made of. */
  predicate IsPlain(c: char) {
    '0' <= c <= '9' || c in "+-.eE \t\n\r"
  }

  lemma {:induction false} ScanPlain(s: string)
    requires forall c <- s :: IsPlain(c)
    ensures Scan(Outside, s) == Outside
    decreases |s|
  {
    if s == [] {
    } else {
      assert s[0] in s;
      assert forall c <- s[1..] :: c in s;
      ScanPlain(s[1..]);
    }
  }

  lemma FractionIsPlain(s: string)
    requires IsFraction(s)
    ensures forall c <- s :: IsPlain(c)
  {
    if s != "" {
      assert s == [s[0]] + s[1..];
    }
  }

  lemma ExponentIsPlain(s: string)
    requires IsExponent(s)
    ensures forall c <- s :: IsPlain(c)
  {
    if s != "" {
      if IsDigits(s[1..]) {
        assert s == [s[0]] + s[1..];
      } else {
        assert s == [s[0], s[1]] + s[2..];
      }
    }
  }

  lemma NumberIsPlain(s: string)
    requires IsNumber(s)
    ensures forall c <- s :: IsPlain(c)
  {
    var sign, whole, fraction, exponent :| s == sign + whole + fraction + exponent
      && sign in {"", "-"} && IsDigits(whole) && IsFraction(fraction) && IsExponent(exponent);
    FractionIsPlain(fraction);
    ExponentIsPlain(exponent);
    hide IsFraction, IsExponent;
  }

  /** A hexadecimal digit neither ends a string nor starts an escape. */
  lemma ScanHexUnit(s: string, k: nat)
    requires k + 4 <= |s| && HexUnit(s[k..]).Some?
    ensures Scan(Inside, s[k..]) == Scan(Inside, s[k + 4..])
  {
    var t := s[k..];
    assert t[1..] == s[k + 1..] && s[k + 1..][1..] == s[k + 2..] && s[k + 2..][1..] == s[k + 3..] && s[k + 3..][1..] == s[k + 4..];
    assert t[0] == s[k] && t[1] == s[k + 1] && t[2] == s[k + 2] && t[3] == s[k + 3];
    assert Scan(Inside, s[k..]) == Scan(Inside, s[k + 1..]);
    assert Scan(Inside, s[k + 1..]) == Scan(Inside, s[k + 2..]);
    assert Scan(Inside, s[k + 2..]) == Scan(Inside, s[k + 3..]);
  }

  /** A backslash and the character after it stay inside the string. */
  lemma ScanEscape(s: string, k: nat)
    requires k + 2 <= |s| && s[k] == '\\'
    ensures Scan(Inside, s[k..]) == Scan(Inside, s[k + 2..])
  {
    assert s[k..][1..] == s[k + 1..] && s[k + 1..][1..] == s[k + 2..];
    assert Scan(Inside, s[k..]) == Scan(Escaped, s[k + 1..]);
  }

  lemma ScanOne(s: string)
    requires s != [] && UnescapeOne(s).Some?
    ensures Scan(Inside, s) == Scan(Inside, s[UnescapeOne(s).value.1..])
  {
    hide HexUnit;
    assert s == s[0..];
    if s[0] == '\\' {
      ScanEscape(s, 0);
      if s[1] == 'u' {
        ScanHexUnit(s, 2);
        if UnescapeUnit(s).value.1 == 12 {
          ScanEscape(s, 6);
          ScanHexUnit(s, 8);
        }
      }
    }
  }

  lemma {:induction false} ScanBody(s: string)
    requires Unescape(s).Some?
    ensures Scan(Inside, s) == Inside
    decreases |s|
  {
    if s == [] {
    } else {
      ScanOne(s);
      ScanBody(s[UnescapeOne(s).value.1..]);
    }
  }

  lemma ScanString(body: string)
    requires Unescape(body).Some?
    ensures Scan(Outside, "\"" + body + "\"") == Outside
  {
    ScanBody(body);
    ScanConcat(Outside, "\"" + body, "\"");
    ScanConcat(Outside, "\"", body);
  }

  lemma {:induction false} ScanTree(t: Json)
    requires Valid(t)
    ensures Scan(Outside, Print(t)) == Outside
    decreases t, 0
  {
    match t {
      case Null => assert Scan(Outside, "null") == Outside by { ScanLiterals(); }
      case Bool(b) => ScanLiterals();
      case Number(text) =>
        NumberIsPlain(text);
        ScanPlain(text);
      case Str(body) => ScanString(body);
      case Arr(inside, items) =>
        if items == [] { ScanPlain(inside); } else { ScanItems(items); }
        ScanBetween("[", if items == [] then inside else PrintItems(items), "]");
      case Obj(inside, members) =>
        if members == [] { ScanPlain(inside); } else { ScanMembers(members); }
        ScanBetween("{", if members == [] then inside else PrintMembers(members), "}");
    }
  }

  lemma ScanLiterals()
    ensures Scan(Outside, "null") == Scan(Outside, "true") == Scan(Outside, "false") == Outside
  {
    ScanConcat(Outside, "nu", "ll");
    ScanConcat(Outside, "tr", "ue");
    ScanConcat(Outside, "fal", "se");
    assert "nu" + "ll" == "null" && "tr" + "ue" == "true" && "fal" + "se" == "false";
    ScanWord("nu");
    ScanWord("ll");
    ScanWord("tr");
    ScanWord("ue");
    ScanWord("fal");
    ScanWord("se");
  }

  lemma {:induction false} ScanWord(s: string)
    requires IsWord(s)
    ensures Scan(Outside, s) == Outside
    decreases |s|
  {
    if s == [] {
    } else {
      ScanWord(s[1..]);
    }
  }

  lemma ScanBetween(before: string, s: string, after: string)
    requires |before| == |after| == 1 && Step(Outside, before[0]) == Outside && Step(Outside, after[0]) == Outside
    requires Scan(Outside, s) == Outside
    ensures Scan(Outside, before + s + after) == Outside
  {
    ScanConcat(Outside, before + s, after);
    ScanConcat(Outside, before, s);
  }

  lemma ScanJoin(s: string, separator: string, t: string)
    requires |separator| == 1 && Step(Outside, separator[0]) == Outside
    requires Scan(Outside, s) == Outside && Scan(Outside, t) == Outside
    ensures Scan(Outside, s + separator + t) == Outside
  {
    ScanConcat(Outside, s + separator, t);
    ScanConcat(Outside, s, separator);
  }

  lemma {:induction false} ScanItem(item: Item)
    requires ValidItem(item)
    ensures Scan(Outside, PrintItem(item)) == Outside
    decreases item, 1
  {
    ScanPlain(item.before);
    ScanPlain(item.after);
    ScanTree(item.value);
    ScanConcat(Outside, item.before + Print(item.value), item.after);
    ScanConcat(Outside, item.before, Print(item.value));
  }

  lemma {:induction false} ScanItems(items: seq<Item>)
    requires items != [] && forall i :: 0 <= i < |items| ==> ValidItem(items[i])
    ensures Scan(Outside, PrintItems(items)) == Outside
    decreases items, 2
  {
    ScanItem(items[0]);
    if |items| == 1 {
    } else {
      ScanItems(items[1..]);
      ScanJoin(PrintItem(items[0]), ",", PrintItems(items[1..]));
    }
  }

  lemma {:induction false} ScanMember(m: Member)
    requires ValidMember(m)
    ensures Scan(Outside, PrintMember(m)) == Outside
    decreases m, 2
  {
    ScanPlain(m.beforeName);
    ScanPlain(m.afterName);
    ScanString(m.name);
    ScanItem(m.value);
    ScanName(m.beforeName, "\"" + m.name + "\"", m.afterName, PrintItem(m.value));
    hide PrintItem;
    assert PrintMember(m) == m.beforeName + ("\"" + m.name + "\"") + m.afterName + ":" + PrintItem(m.value);
  }

  lemma ScanName(before: string, name: string, after: string, value: string)
    requires Scan(Outside, before) == Scan(Outside, name) == Scan(Outside, after) == Scan(Outside, value) == Outside
    ensures Scan(Outside, before + name + after + ":" + value) == Outside
  {
    ScanConcat(Outside, before, name);
    ScanConcat(Outside, before + name, after);
    ScanJoin(before + name + after, ":", value);
  }

  lemma {:induction false} ScanMembers(members: seq<Member>)
    requires members != [] && forall i :: 0 <= i < |members| ==> ValidMember(members[i])
    ensures Scan(Outside, PrintMembers(members)) == Outside
    decreases members, 3
  {
    ScanMember(members[0]);
    if |members| == 1 {
    } else {
      ScanMembers(members[1..]);
      ScanJoin(PrintMember(members[0]), ",", PrintMembers(members[1..]));
    }
  }

  /** No JSON document has an N or an I outside its strings. */
  lemma JsonScans(s: string)
    requires IsJson(s)
    ensures Scan(Outside, s) == Outside
  {
    var item :| Derives(item, s);
    ScanItem(item);
  }

  /** The texts PostgreSQL prints for the values no JSON number has. */
  predicate IsSpecial(text: string) {
    text == "NaN" || text == "Infinity" || text == "-Infinity"
  }

  lemma SpecialIsLost(text: string)
    requires IsSpecial(text)
    ensures Scan(Outside, text) == Lost
  {
    if text == "-Infinity" {
      assert text[1..][0] == 'I';
      ScanLost(text[1..][1..]);
    } else {
      ScanLost(text[1..]);
    }
  }

  /** The value's text cannot occur in any JSON document. */
  predicate Spoils(v: Value) {
    Scan(Outside, ValueText(v)) == Lost
  }

  lemma SoundScans(v: Value)
    requires Sound(v)
    ensures Scan(Outside, ValueText(v)) == Outside
  {
    var item := ValueDerives(v);
    JsonScans(ValueText(v));
  }

  lemma ScanField(f: Field)
    ensures Scan(Outside, FieldText(f)) == Scan(Outside, ValueText(f.value))
  {
    hide Escape, Unescape, ValueText;
    EscapeRoundTrip(f.name);
    ScanString(Escape(f.name));
    var name := "\"" + Escape(f.name) + "\"";
    ScanConcat(Outside, name, ":");
    ScanConcat(Outside, name + ":", ValueText(f.value));
    assert FieldText(f) == name + ":" + ValueText(f.value);
  }

  lemma ScanNext(text: string, f: Field)
    requires Scan(Outside, text) == Outside || Scan(Outside, text) == Lost
    ensures Scan(Outside, text + ", " + FieldText(f)) == if Scan(Outside, text) == Lost then Lost else Scan(Outside, ValueText(f.value))
  {
    hide FieldText, ValueText;
    ScanField(f);
    ScanConcat(Outside, text + ", ", FieldText(f));
    ScanConcat(Outside, text, ", ");
    assert Scan(Outside, ", ") == Scan(Outside, ", "[1..]);
    ScanPlain(" ");
    ScanLost(", ");
    ScanLost(FieldText(f));
  }

  lemma {:induction false} ScanFields(fields: seq<Field>)
    requires forall f <- fields :: Sound(f.value) || Spoils(f.value)
    ensures Scan(Outside, FieldsText(fields)) == if exists f <- fields :: Spoils(f.value) then Lost else Outside
    decreases |fields|
  {
    hide FieldText, ValueText, Sound;
    if fields == [] {
    } else {
      var front, last := fields[..|fields| - 1], fields[|fields| - 1];
      assert last in fields;
      assert forall f <- fields :: f in front || f == last;
      ScanFields(front);
      if !Spoils(last.value) { SoundScans(last.value); }
      hide Scan;
      if |fields| > 1 {
        ScanNext(FieldsText(front), last);
      } else {
        ScanField(last);
      }
    }
  }

  /** A spoiling value spoils the row. */
  lemma SpoiledRow(fields: seq<Field>)
    requires forall f <- fields :: Sound(f.value) || Spoils(f.value)
    requires exists f <- fields :: Spoils(f.value)
    ensures Scan(Outside, RowText(fields)) == Lost && !IsJson(RowText(fields))
  {
    ScanFields(fields);
    ScanConcat(Outside, "{", FieldsText(fields));
    ScanConcat(Outside, "{" + FieldsText(fields), "}");
    ScanLost("}");
    if IsJson(RowText(fields)) { JsonScans(RowText(fields)); }
  }

  /** A value PostgreSQL can send: numbers are JSON numbers or the special
      texts, and documents were checked to be JSON. */
  ghost predicate Sendable(v: Value) {
    match v
    case Numeric(text) => IsNumber(text) || IsSpecial(text)
    case Document(text) => IsJson(text)
    case _ => true
  }

  predicate HasSpecial(fields: seq<Field>) {
    exists f <- fields :: f.value.Numeric? && IsSpecial(f.value.text)
  }

  /** A row image is JSON exactly when none of its numbers is NaN or infinite. */
  lemma RowIsJsonIff(fields: seq<Field>)
    requires forall f <- fields :: Sendable(f.value)
    ensures IsJson(RowText(fields)) <==> !HasSpecial(fields)
    ensures HasSpecial(fields) ==> Scan(Outside, RowText(fields)) == Lost
  {
    forall f <- fields ensures Sound(f.value) || Spoils(f.value) {
      if f.value.Numeric? && IsSpecial(f.value.text) { SpecialIsLost(f.value.text); }
    }
    if HasSpecial(fields) {
      var f :| f in fields && f.value.Numeric? && IsSpecial(f.value.text);
      SpecialIsLost(f.value.text);
      SpoiledRow(fields);
    } else {
      var _ := RowIsTheObject(fields);
    }
  }

  /** For one, a row with a single column holding NaN. */
  lemma NaNRowIsNotJson()
    ensures !IsJson(RowText([Field("ratio", Numeric("NaN"))]))
  {
    var fields := [Field("ratio", Numeric("NaN"))];
    assert HasSpecial(fields) by { assert fields[0] in fields; }
    RowIsJsonIff(fields);
  }
}
