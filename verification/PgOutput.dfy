/** The decoder of logical replication messages: what it does with any bytes
    whatever, and what it reads from the messages PostgreSQL sends. */
module PgOutput {
  import opened Streams
  import opened PgWire
  import opened PgRow
  import opened Text
  import JsonText
  import Cdc

  datatype Relation = Relation(schema: string, name: string, columns: seq<string>, oids: seq<nat>, key: seq<string>)

  /** `decode` reads bytes as text and `isJson` is the library's check of a
      document; an empty filter lets every table pass. */
  datatype Settings = Settings(decode: seq<Byte> -> string, isJson: string -> bool, captureDdl: bool,
                               filter: set<string>, hasHandler: bool)

  /** An event as decoded; sourceTime is 0 when the message has none. */
  datatype Event = Event(typ: Cdc.EventType, schema: string, table: string, data: string, key: seq<string>, sourceTime: nat)

  datatype State = State(relations: map<nat, Relation>, finalLsn: nat, endLsn: nat)

  const NUMERIC_OIDS := {20, 21, 23, 26, 700, 701, 1700}
  const BOOL_OID := 16
  const JSON_OIDS := {114, 3802}
  const DDL_LOG_TABLE := "_cdc_ddl_log"
  const SLOT_OWNERS_TABLE := "excalibase_cdc_slot_owners"
  const EPOCH_MILLIS := 946684800000

  predicate PassesFilter(env: Settings, table: string) {
    table != SLOT_OWNERS_TABLE && (env.filter == {} || table in env.filter)
  }

  function NameAt(rel: Relation, i: nat): string {
    if i < |rel.columns| then rel.columns[i] else "col_" + Dec(i)
  }

  function TypeAt(rel: Relation, i: nat): nat {
    if i < |rel.oids| then rel.oids[i] else 0
  }

  function TextValue(env: Settings, oid: nat, text: string): Value {
    if oid in NUMERIC_OIDS then Numeric(text)
    else if oid == BOOL_OID then Boolean(text == "t")
    else if oid in JSON_OIDS && env.isJson(text) then Document(text)
    else Quoted(text)
  }

  // ---------------------------------------------------------------------------
  // What the decoder makes of any bytes

  function Skipped(c: Cursor, marker: nat): (r: Cursor)
    requires c.Valid()
    ensures r.Valid() && r.data == c.data && c.pos <= r.pos
  {
    if marker == 't' as int then
      var (n, after) := Uint(c, 4);
      Bytes(after, n).1
    else c
  }

  function ReadValue(env: Settings, oid: nat, c: Cursor, marker: nat): (r: (Value, Cursor))
    requires c.Valid()
    ensures r.1.Valid() && r.1.data == c.data && c.pos <= r.1.pos
  {
    if marker == 'n' as int then (NullValue, c)
    else if marker == 't' as int then
      var (n, c1) := Uint(c, 4);
      var (bytes, c2) := Bytes(c1, n);
      (TextValue(env, oid, env.decode(bytes)), c2)
    else (Unknown, c)
  }

  function ReadColumn(env: Settings, rel: Relation, keyOnly: bool, i: nat, c: Cursor): (r: (Option<Field>, Cursor))
    requires c.Valid()
    ensures r.1.Valid() && r.1.data == c.data && c.pos <= r.1.pos
  {
    var (marker, c1) := Uint(c, 1);
    var name := NameAt(rel, i);
    if marker == 'u' as int || (keyOnly && name !in rel.key) then (None, Skipped(c1, marker))
    else
      var (value, c2) := ReadValue(env, TypeAt(rel, i), c1, marker);
      (Some(Field(name, value)), c2)
  }

  function Append(fields: seq<Field>, field: Option<Field>): seq<Field> {
    if field.None? then fields else fields + [field.value]
  }

  /** The fields of the first n columns. */
  function ReadColumns(env: Settings, rel: Relation, keyOnly: bool, n: nat, c: Cursor): (r: (seq<Field>, Cursor))
    requires c.Valid()
    ensures r.1.Valid() && r.1.data == c.data && c.pos <= r.1.pos
    decreases n
  {
    if n == 0 then ([], c)
    else
      var (fields, c1) := ReadColumns(env, rel, keyOnly, n - 1, c);
      var (field, c2) := ReadColumn(env, rel, keyOnly, n - 1, c1);
      (Append(fields, field), c2)
  }

  function ReadTuple(env: Settings, rel: Relation, keyOnly: bool, c: Cursor): (r: (string, Cursor))
    requires c.Valid()
    ensures r.1.Valid() && r.1.data == c.data && c.pos <= r.1.pos
  {
    if c.Remaining() < 2 then ("{}", c)
    else
      var (n, c1) := Uint(c, 2);
      var (fields, c2) := ReadColumns(env, rel, keyOnly, n, c1);
      (RowText(fields), c2)
  }

  function ReadInsert(env: Settings, st: State, c: Cursor): (r: (Option<Event>, Cursor))
    requires c.Valid()
    ensures r.1.Valid() && r.1.data == c.data && c.pos <= r.1.pos
  {
    var (id, c1) := Uint(c, 4);
    if id !in st.relations then (None, c1)
    else
      var rel := st.relations[id];
      var isDdl := env.captureDdl && rel.name == DDL_LOG_TABLE;
      if !isDdl && !PassesFilter(env, rel.name) then (None, c1)
      else
        var (_, c2) := Uint(c1, 1);
        var (text, c3) := ReadTuple(env, rel, false, c2);
        if isDdl then (Some(Event(Cdc.DDL, rel.schema, "", text, [], 0)), c3)
        else (Some(Event(Cdc.Insert, rel.schema, rel.name, text, rel.key, 0)), c3)
  }

  /** The image before the change, if the message has one; another byte is put
      back, which after a failed read steps back one byte too many. */
  function ReadOld(env: Settings, rel: Relation, c: Cursor): (r: (Option<string>, Cursor))
    requires c.Valid() && c.pos > 0
    ensures r.1.Valid() && r.1.data == c.data
  {
    if c.Remaining() == 0 then (None, c)
    else
      var (marker, c1) := Uint(c, 1);
      if marker == 'K' as int || marker == 'O' as int then
        var (text, c2) := ReadTuple(env, rel, marker == 'K' as int, c1);
        (Some(text), c2)
      else (None, c1.(pos := c1.pos - 1))
  }

  function ReadNew(env: Settings, rel: Relation, c: Cursor): (r: (Option<string>, Cursor))
    requires c.Valid()
    ensures r.1.Valid() && r.1.data == c.data
  {
    if c.Remaining() == 0 then (None, c)
    else
      var (marker, c1) := Uint(c, 1);
      if marker == 'N' as int then
        var (text, c2) := ReadTuple(env, rel, false, c1);
        (Some(text), c2)
      else (None, c1)
  }

  function ImagesText(before: Option<string>, after: Option<string>): string {
    var first := "{" + if before.Some? then "\"old\":" + before.value else "";
    var second := if after.None? then "" else (if before.Some? then ", " else "") + "\"new\":" + after.value;
    first + second + "}"
  }

  function ReadUpdate(env: Settings, st: State, c: Cursor): (r: (Option<Event>, Cursor))
    requires c.Valid() && c.pos > 0
    ensures r.1.Valid() && r.1.data == c.data
  {
    var (id, c1) := Uint(c, 4);
    if id !in st.relations || !PassesFilter(env, st.relations[id].name) then (None, c1)
    else
      var rel := st.relations[id];
      var (before, c2) := ReadOld(env, rel, c1);
      var (after, c3) := ReadNew(env, rel, c2);
      (Some(Event(Cdc.Update, rel.schema, rel.name, ImagesText(before, after), rel.key, 0)), c3)
  }

  function ReadDelete(env: Settings, st: State, c: Cursor): (r: (Option<Event>, Cursor))
    requires c.Valid()
    ensures r.1.Valid() && r.1.data == c.data
  {
    var (id, c1) := Uint(c, 4);
    if id !in st.relations || !PassesFilter(env, st.relations[id].name) then (None, c1)
    else
      var rel := st.relations[id];
      if c1.Remaining() == 0 then (Some(Event(Cdc.Delete, rel.schema, rel.name, "{}", [], 0)), c1)
      else
        var (marker, c2) := Uint(c1, 1);
        var (text, c3) := ReadTuple(env, rel, marker == 'K' as int, c2);
        (Some(Event(Cdc.Delete, rel.schema, rel.name, text, rel.key, 0)), c3)
  }

  /** The events for the first n relations of a TRUNCATE. */
  function ReadTruncated(env: Settings, st: State, options: nat, n: nat, c: Cursor): (r: (seq<Event>, Cursor))
    requires c.Valid()
    ensures r.1.Valid() && r.1.data == c.data
    decreases n
  {
    if n == 0 then ([], c)
    else
      var (events, c1) := ReadTruncated(env, st, options, n - 1, c);
      var (id, c2) := Uint(c1, 4);
      if id !in st.relations || !PassesFilter(env, st.relations[id].name) then (events, c2)
      else (events + [TruncateEvent(st.relations[id], options)], c2)
  }

  /** Every event but the first goes to the handler, if there is one. */
  function Later(env: Settings, events: seq<Event>): seq<Event> {
    if events == [] || !env.hasHandler then [] else events[1..]
  }

  function TruncateEvent(rel: Relation, options: nat): Event {
    Event(Cdc.Truncate, rel.schema, rel.name, "{\"options\":" + Dec(options) + "}", [], 0)
  }

  /** Columns of a relation message: names, types, and which are in the key. */
  function ReadRelationColumns(env: Settings, rel: Relation, n: nat, c: Cursor): (r: (Relation, Cursor))
    requires c.Valid()
    ensures r.1.Valid() && r.1.data == c.data
    decreases n
  {
    if n == 0 then (rel, c)
    else
      var (before, c0) := ReadRelationColumns(env, rel, n - 1, c);
      var (flags, c1) := Uint(c0, 1);
      var (name, c2) := CString(c1);
      var (oid, c3) := Uint(c2, 4);
      var (_, c4) := Uint(c3, 4);
      (AddColumn(before, flags, env.decode(name), oid), c4)
  }

  function AddColumn(rel: Relation, flags: nat, name: string, oid: nat): Relation {
    rel.(columns := rel.columns + [name], oids := rel.oids + [oid],
         key := if flags % 2 == 1 then rel.key + [name] else rel.key)
  }

  function ReadRelation(env: Settings, c: Cursor): (r: (nat, Relation, Cursor))
    requires c.Valid()
    ensures r.2.Valid() && r.2.data == c.data
  {
    var (id, c1) := Uint(c, 4);
    var (schema, c2) := CString(c1);
    var (name, c3) := CString(c2);
    var (_, c4) := Uint(c3, 1);
    var (n, c5) := Uint(c4, 2);
    var (rel, c6) := ReadRelationColumns(env, Relation(env.decode(schema), env.decode(name), [], [], []), n, c5);
    (id, rel, c6)
  }

  function Millis(micros: nat): nat {
    EPOCH_MILLIS + micros / 1000
  }

  function ReadBegin(st: State, c: Cursor): (r: (State, Event, Cursor))
    requires c.Valid()
    ensures r.2.Valid() && r.2.data == c.data
  {
    if c.Remaining() >= 20 then
      var (lsn, c1) := Uint(c, 8);
      var (micros, c2) := Uint(c1, 8);
      var (_, c3) := Uint(c2, 4);
      (st.(finalLsn := lsn), Event(Cdc.Begin, "", "", "", [], Millis(micros)), c3)
    else (st, Event(Cdc.Begin, "", "", "", [], 0), c)
  }

  function ReadCommit(st: State, c: Cursor): (r: (State, Event, Cursor))
    requires c.Valid()
    ensures r.2.Valid() && r.2.data == c.data
  {
    if c.Remaining() >= 25 then
      var (_, c1) := Uint(c, 1);
      var (_, c2) := Uint(c1, 8);
      var (end, c3) := Uint(c2, 8);
      var (micros, c4) := Uint(c3, 8);
      (st.(endLsn := end), Event(Cdc.Commit, "", "", "", [], Millis(micros)), c4)
    else (st.(endLsn := 0), Event(Cdc.Commit, "", "", "", [], 0), c)
  }

  /** The new state, the event returned, those passed to the handler on the
      way, and where the cursor ended. */
  datatype Outcome = Outcome(state: State, event: Option<Event>, handled: seq<Event>, cursor: Cursor)

  function Read(env: Settings, st: State, data: seq<Byte>): (out: Outcome)
    ensures out.cursor.data == data && out.cursor.Valid()
  {
    if data == [] then Outcome(st, None, [], Cursor(data, 0, false))
    else
      var c := Cursor(data, 1, false);
      if data[0] == 'B' as int then
        var (after, e, end) := ReadBegin(st, c);
        Outcome(after, Some(e), [], end)
      else if data[0] == 'C' as int then
        var (after, e, end) := ReadCommit(st, c);
        Outcome(after, Some(e), [], end)
      else if data[0] == 'R' as int then
        var (id, rel, end) := ReadRelation(env, c);
        Outcome(st.(relations := st.relations[id := rel]), None, [], end)
      else if data[0] == 'I' as int then
        var (e, end) := ReadInsert(env, st, c);
        Outcome(st, e, [], end)
      else if data[0] == 'U' as int then
        var (e, end) := ReadUpdate(env, st, c);
        Outcome(st, e, [], end)
      else if data[0] == 'D' as int then
        var (e, end) := ReadDelete(env, st, c);
        Outcome(st, e, [], end)
      else if data[0] == 'T' as int then
        var (n, c1) := Uint(c, 4);
        var (options, c2) := Uint(c1, 1);
        var (events, end) := ReadTruncated(env, st, options, n, c2);
        if events == [] then Outcome(st, None, [], end)
        else Outcome(st, Some(events[0]), Later(env, events), end)
      else Outcome(st, None, [], c)
  }

  // ---------------------------------------------------------------------------
  // The decoder

  class Parser {
    const env: Settings
    var relations: map<nat, Relation>
    var finalLsn: nat
    var endLsn: nat
    /** Everything passed to the event handler so far. */
    var handled: seq<Event>

    function Model(): State
      reads this
    {
      State(relations, finalLsn, endLsn)
    }

    constructor (env: Settings)
      ensures this.env == env && Model() == State(map[], 0, 0) && handled == []
    {
      this.env, relations, finalLsn, endLsn, handled := env, map[], 0, 0, [];
    }

    method ParseTupleData(buf: Reader, rel: Relation, keyOnly: bool) returns (text: string)
      requires buf.Valid()
      modifies buf
      ensures buf.Valid() && (text, buf.View()) == ReadTuple(env, rel, keyOnly, old(buf.View()))
    {
      hide ReadColumn, Uint, FieldsText, Append;
      if buf.View().Remaining() < 2 {
        return "{}";
      }
      var numCols := buf.ReadUint(2);
      ghost var start := buf.View();
      var members, written := "", 0;
      ghost var fields: seq<Field> := [];
      FieldsTextEmpty();
      for i := 0 to numCols
        invariant buf.Valid()
        invariant (fields, buf.View()) == ReadColumns(env, rel, keyOnly, i, start)
        invariant written == |fields| && members == FieldsText(fields)
      {
        members, written, fields := ParseColumn(buf, rel, keyOnly, i, members, written, fields);
      }
      text := "{" + members + "}";
    }

    /** The loop body: one column, written after those before it. */
    method ParseColumn(buf: Reader, rel: Relation, keyOnly: bool, i: nat, text: string, count: nat, ghost before: seq<Field>)
      returns (longer: string, written: nat, ghost fields: seq<Field>)
      requires buf.Valid() && count == |before| && text == FieldsText(before)
      modifies buf
      ensures buf.Valid()
      ensures var (field, after) := ReadColumn(env, rel, keyOnly, i, old(buf.View()));
        fields == Append(before, field) && buf.View() == after
      ensures written == |fields| && longer == FieldsText(fields)
    {
      hide Uint, ReadValue, Skipped, FieldsText, ValueText, JsonText.Escape;
      FieldsTextEmpty();
      longer, written, fields := text, count, before;
      var marker := buf.ReadUint(1);
      var name := "col_" + Dec(i);
      if i < |rel.columns| {
        name := rel.columns[i];
      }
      if marker == 'u' as int || (keyOnly && name !in rel.key) {
        SkipTupleValue(buf, marker);
        return;
      }
      var oid := 0;
      if i < |rel.oids| {
        oid := rel.oids[i];
      }
      if written > 0 {
        longer := longer + ", ";
      }
      written := written + 1;
      var escaped := JsonText.EscapeString(name);
      longer := longer + ("\"" + escaped + "\":");
      ghost var value;
      longer, value := WriteTupleValue(longer, buf, marker, oid);
      assert longer == (if before == [] then "" else text + ", ") + FieldText(Field(name, value));
      FieldsTextLast(before, Field(name, value));
      fields := before + [Field(name, value)];
    }

    method SkipTupleValue(buf: Reader, marker: nat)
      requires buf.Valid()
      modifies buf
      ensures buf.Valid() && buf.View() == Skipped(old(buf.View()), marker)
    {
      if marker == 't' as int {
        var n := buf.ReadUint(4);
        var _ := buf.ReadBytes(n);
      }
    }

    method WriteTupleValue(text: string, buf: Reader, marker: nat, oid: nat) returns (longer: string, ghost value: Value)
      requires buf.Valid()
      modifies buf
      ensures buf.Valid() && (value, buf.View()) == ReadValue(env, oid, old(buf.View()), marker)
      ensures longer == text + ValueText(value)
    {
      if marker == 'n' as int {
        longer, value := text + "null", NullValue;
      } else if marker == 't' as int {
        longer, value := WriteTextValue(text, buf, oid);
      } else {
        longer, value := text + "\"unknown\"", Unknown;
      }
    }

    method WriteTextValue(text: string, buf: Reader, oid: nat) returns (longer: string, ghost value: Value)
      requires buf.Valid()
      modifies buf
      ensures buf.Valid() && (value, buf.View()) == ReadValue(env, oid, old(buf.View()), 't' as int)
      ensures longer == text + ValueText(value)
    {
      var length := buf.ReadUint(4);
      var bytes := buf.ReadBytes(length);
      var s := env.decode(bytes);
      value := TextValue(env, oid, s);
      if oid in NUMERIC_OIDS {
        longer := text + s;
      } else if oid == BOOL_OID {
        longer := text + if s == "t" then "true" else "false";
      } else if oid in JSON_OIDS && env.isJson(s) {
        longer := text + s;
      } else {
        var escaped := JsonText.EscapeString(s);
        longer := text + ("\"" + escaped + "\"");
      }
    }

    method ParseInsert(buf: Reader) returns (e: Option<Event>)
      requires buf.Valid()
      modifies buf
      ensures buf.Valid() && (e, buf.View()) == ReadInsert(env, Model(), old(buf.View()))
    {
      var id := buf.ReadUint(4);
      if id !in relations {
        return None;
      }
      var rel := relations[id];
      if env.captureDdl && rel.name == DDL_LOG_TABLE {
        var _ := buf.ReadUint(1);
        var data := ParseTupleData(buf, rel, false);
        return Some(Event(Cdc.DDL, rel.schema, "", data, [], 0));
      }
      if !PassesFilter(env, rel.name) {
        return None;
      }
      var _ := buf.ReadUint(1);
      var data := ParseTupleData(buf, rel, false);
      e := Some(Event(Cdc.Insert, rel.schema, rel.name, data, rel.key, 0));
    }

    method ParseUpdate(buf: Reader) returns (e: Option<Event>)
      requires buf.Valid() && buf.pos > 0
      modifies buf
      ensures buf.Valid() && (e, buf.View()) == ReadUpdate(env, Model(), old(buf.View()))
    {
      hide Uint, ReadTuple, ReadOld, ReadNew;
      var id := buf.ReadUint(4);
      if id !in relations {
        return None;
      }
      var rel := relations[id];
      if !PassesFilter(env, rel.name) {
        return None;
      }
      var text := "{";
      var before := ParseOld(buf, rel);
      if before.Some? {
        text := text + ("\"old\":" + before.value);
      }
      var after := ParseNew(buf, rel);
      if after.Some? {
        text := text + ((if |text| > 1 then ", " else "") + "\"new\":" + after.value);
      }
      text := text + "}";
      assert text == ImagesText(before, after);
      e := Some(Event(Cdc.Update, rel.schema, rel.name, text, rel.key, 0));
    }

    method ParseOld(buf: Reader, rel: Relation) returns (image: Option<string>)
      requires buf.Valid() && buf.pos > 0
      modifies buf
      ensures buf.Valid() && (image, buf.View()) == ReadOld(env, rel, old(buf.View()))
    {
      hide ReadTuple;
      if buf.View().Remaining() > 0 {
        var marker := buf.ReadUint(1);
        if marker == 'K' as int || marker == 'O' as int {
          var data := ParseTupleData(buf, rel, marker == 'K' as int);
          return Some(data);
        }
        buf.PutBack();
      }
      image := None;
    }

    method ParseNew(buf: Reader, rel: Relation) returns (image: Option<string>)
      requires buf.Valid()
      modifies buf
      ensures buf.Valid() && (image, buf.View()) == ReadNew(env, rel, old(buf.View()))
    {
      hide ReadTuple;
      if buf.View().Remaining() > 0 {
        var marker := buf.ReadUint(1);
        if marker == 'N' as int {
          var data := ParseTupleData(buf, rel, false);
          return Some(data);
        }
      }
      image := None;
    }

    method ParseDelete(buf: Reader) returns (e: Option<Event>)
      requires buf.Valid()
      modifies buf
      ensures buf.Valid() && (e, buf.View()) == ReadDelete(env, Model(), old(buf.View()))
    {
      var id := buf.ReadUint(4);
      if id !in relations {
        return None;
      }
      var rel := relations[id];
      if !PassesFilter(env, rel.name) {
        return None;
      }
      if buf.View().Remaining() > 0 {
        var marker := buf.ReadUint(1);
        var data := ParseTupleData(buf, rel, marker == 'K' as int);
        return Some(Event(Cdc.Delete, rel.schema, rel.name, data, rel.key, 0));
      }
      e := Some(Event(Cdc.Delete, rel.schema, rel.name, "{}", [], 0));
    }

    method ParseTruncate(buf: Reader) returns (first: Option<Event>)
      requires buf.Valid()
      modifies buf, this`handled
      ensures buf.Valid()
      ensures var (n, c1) := Uint(old(buf.View()), 4);
        var (options, c2) := Uint(c1, 1);
        var (events, end) := ReadTruncated(env, Model(), options, n, c2);
        && buf.View() == end
        && first == (if events == [] then None else Some(events[0]))
        && handled == old(handled) + Later(env, events)
    {
      hide Uint, TruncateEvent, PassesFilter;
      var n := buf.ReadUint(4);
      var options := buf.ReadUint(1);
      first := None;
      ghost var events: seq<Event> := [];
      ghost var start := buf.View();
      for i := 0 to n
        invariant buf.Valid()
        invariant (events, buf.View()) == ReadTruncated(env, Model(), options, i, start)
        invariant first == if events == [] then None else Some(events[0])
        invariant handled == old(handled) + Later(env, events)
      {
        var id := buf.ReadUint(4);
        if id !in relations {
          continue;
        }
        var rel := relations[id];
        if !PassesFilter(env, rel.name) {
          continue;
        }
        var e := TruncateEvent(rel, options);
        if first == None {
          first := Some(e);
        } else if env.hasHandler {
          handled := handled + [e];
        }
        assert Later(env, events + [e]) == Later(env, events) + if events != [] && env.hasHandler then [e] else [];
        events := events + [e];
      }
    }

    method ParseRelation(buf: Reader)
      requires buf.Valid()
      modifies buf, this`relations
      ensures buf.Valid()
      ensures var (id, rel, end) := ReadRelation(env, old(buf.View()));
        buf.View() == end && relations == old(relations)[id := rel]
    {
      hide Uint, CString, AddColumn;
      var id := buf.ReadUint(4);
      var schema := buf.ReadCString();
      var name := buf.ReadCString();
      var _ := buf.ReadUint(1);
      var n := buf.ReadUint(2);
      var bare := Relation(env.decode(schema), env.decode(name), [], [], []);
      var rel := bare;
      ghost var start := buf.View();
      for i := 0 to n
        invariant buf.Valid() && relations == old(relations)
        invariant (rel, buf.View()) == ReadRelationColumns(env, bare, i, start)
      {
        var flags := buf.ReadUint(1);
        var column := buf.ReadCString();
        var oid := buf.ReadUint(4);
        var _ := buf.ReadUint(4);
        rel := AddColumn(rel, flags, env.decode(column), oid);
      }
      assert (id, rel, buf.View()) == ReadRelation(env, old(buf.View()));
      relations := relations[id := rel];
    }

    method ParseBegin(buf: Reader) returns (e: Event)
      requires buf.Valid()
      modifies buf, this`finalLsn
      ensures buf.Valid() && (Model(), e, buf.View()) == ReadBegin(old(Model()), old(buf.View()))
    {
      if buf.View().Remaining() >= 20 {
        finalLsn := buf.ReadUint(8);
        var micros := buf.ReadUint(8);
        var _ := buf.ReadUint(4);
        return Event(Cdc.Begin, "", "", "", [], Millis(micros));
      }
      e := Event(Cdc.Begin, "", "", "", [], 0);
    }

    method ParseCommit(buf: Reader) returns (e: Event)
      requires buf.Valid()
      modifies buf, this`endLsn
      ensures buf.Valid() && (Model(), e, buf.View()) == ReadCommit(old(Model()), old(buf.View()))
    {
      if buf.View().Remaining() >= 25 {
        var _ := buf.ReadUint(1);
        var _ := buf.ReadUint(8);
        endLsn := buf.ReadUint(8);
        var micros := buf.ReadUint(8);
        return Event(Cdc.Commit, "", "", "", [], Millis(micros));
      }
      endLsn := 0;
      e := Event(Cdc.Commit, "", "", "", [], 0);
    }

    /** Any bytes at all, in any state: parsing ends, and the cursor never
        leaves the data. */
    method Parse(data: seq<Byte>) returns (e: Option<Event>, buf: Reader?)
      modifies this
      ensures var out := Read(env, old(Model()), data);
        && Model() == out.state && e == out.event && handled == old(handled) + out.handled
        && (buf == null <==> data == [])
        && (buf != null ==> buf.View() == out.cursor)
      ensures buf != null ==> buf.data == data && 0 <= buf.pos <= |data|
    {
      if |data| == 0 {
        return None, null;
      }
      buf := new Reader(data, 1);
      if data[0] == 'B' as int {
        var b := ParseBegin(buf);
        e := Some(b);
      } else if data[0] == 'C' as int {
        var c := ParseCommit(buf);
        e := Some(c);
      } else if data[0] == 'R' as int {
        ParseRelation(buf);
        e := None;
      } else if data[0] == 'I' as int {
        e := ParseInsert(buf);
      } else if data[0] == 'U' as int {
        e := ParseUpdate(buf);
      } else if data[0] == 'D' as int {
        e := ParseDelete(buf);
      } else if data[0] == 'T' as int {
        e := ParseTruncate(buf);
      } else {
        e := None;
      }
    }
  }
}
