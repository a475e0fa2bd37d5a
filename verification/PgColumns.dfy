/** What comes out of the decoder, told from the messages alone: which columns a
    row shows, under which names and with which values, which tables pass, and
    what each kind of event holds. */
module PgColumns {
  import opened Streams
  import opened PgWire
  import opened PgRow
  import opened PgOutput
  import opened PgMessages
  import opened Text
  import Cdc

  type Message = PgMessages.Message

  // ---------------------------------------------------------------------------
  // Values

  /** What a column's value has to be, by the type's number in the catalog: text
      as it is for numbers (int8, int2, int4, oid, float4, float8, numeric), a
      truth value for bool, the document for json and jsonb if it is one, and
      quoted text for the rest. */
  ghost predicate Stands(env: Settings, oid: nat, col: Sent, v: Value) {
    match col
    case SentUnchanged => false
    case SentNull => v == NullValue
    case SentText(bytes) =>
      var text := env.decode(bytes);
      if oid == 20 || oid == 21 || oid == 23 || oid == 26 || oid == 700 || oid == 701 || oid == 1700 then v == Numeric(text)
      else if oid == 16 then v == Boolean(text == "t")
      else if (oid == 114 || oid == 3802) && env.isJson(text) then v == Document(text)
      else v == Quoted(text)
  }

  lemma ValueStands(env: Settings, oid: nat, col: Sent)
    requires !col.SentUnchanged?
    ensures Stands(env, oid, col, SentValue(env, oid, col))
  {
  }

  // ---------------------------------------------------------------------------
  // Columns of a relation

  /** A column shows unless the message leaves it out as unchanged, or the image
      is of the key only and the column is not in it. */
  ghost predicate Shows(rel: Relation, keyOnly: bool, cols: seq<Sent>, k: nat)
    requires k < |cols| == |rel.columns|
  {
    !cols[k].SentUnchanged? && (keyOnly ==> rel.columns[k] in rel.key)
  }

  /** How many of the first n columns show. */
  ghost function Shown(rel: Relation, keyOnly: bool, cols: seq<Sent>, n: nat): nat
    requires n <= |cols| == |rel.columns|
  {
    if n == 0 then 0 else Shown(rel, keyOnly, cols, n - 1) + if Shows(rel, keyOnly, cols, n - 1) then 1 else 0
  }

  /** The fields are the columns that show, in order, each under its own name and
      with its own value, and nothing else. */
  ghost predicate AreColumns(env: Settings, rel: Relation, keyOnly: bool, cols: seq<Sent>, n: nat, fields: seq<Field>)
    requires n <= |cols| == |rel.columns| == |rel.oids|
  {
    && |fields| == Shown(rel, keyOnly, cols, n)
    && forall k :: 0 <= k < n && Shows(rel, keyOnly, cols, k) ==> IsColumn(env, rel, keyOnly, cols, fields, k)
  }

  ghost predicate IsColumn(env: Settings, rel: Relation, keyOnly: bool, cols: seq<Sent>, fields: seq<Field>, k: nat)
    requires k < |cols| == |rel.columns| == |rel.oids|
  {
    var at := Shown(rel, keyOnly, cols, k);
    at < |fields| && fields[at].name == rel.columns[k] && Stands(env, rel.oids[k], cols[k], fields[at].value)
  }

  lemma {:induction false} CarriedAreColumns(env: Settings, rel: Relation, keyOnly: bool, cols: seq<Sent>, n: nat)
    requires n <= |cols| == |rel.columns| == |rel.oids|
    ensures AreColumns(env, rel, keyOnly, cols, n, Carried(env, rel, keyOnly, cols[..n]))
  {
    hide Stands;
    if n == 0 {
    } else {
      CarriedAreColumns(env, rel, keyOnly, cols, n - 1);
      var here, fields := cols[..n], Carried(env, rel, keyOnly, cols[..n]);
      assert here[..n - 1] == cols[..n - 1] && here[n - 1] == cols[n - 1];
      if Shows(rel, keyOnly, cols, n - 1) {
        ValueStands(env, rel.oids[n - 1], cols[n - 1]);
      }
      forall k | 0 <= k < n && Shows(rel, keyOnly, cols, k) ensures IsColumn(env, rel, keyOnly, cols, fields, k) {
        if k < n - 1 {
          assert IsColumn(env, rel, keyOnly, cols, Carried(env, rel, keyOnly, cols[..n - 1]), k);
        }
      }
    }
  }

  lemma {:induction false} AllShown(rel: Relation, cols: seq<Sent>, n: nat)
    requires n <= |cols| == |rel.columns| && forall k :: 0 <= k < |cols| ==> !cols[k].SentUnchanged?
    ensures Shown(rel, false, cols, n) == n
  {
    if n == 0 {
    } else {
      AllShown(rel, cols, n - 1);
    }
  }

  /** A full image without unchanged columns shows every column: field k has the
      name of column k, and its value. */
  lemma FullImageShowsAll(env: Settings, rel: Relation, cols: seq<Sent>, k: nat)
    requires k < |cols| == |rel.columns| == |rel.oids| && forall i :: 0 <= i < |cols| ==> !cols[i].SentUnchanged?
    ensures var fields := Carried(env, rel, false, cols);
      |fields| == |cols| && fields[k].name == rel.columns[k] && Stands(env, rel.oids[k], cols[k], fields[k].value)
  {
    hide Stands, Carried;
    CarriedAreColumns(env, rel, false, cols, |cols|);
    assert cols[..|cols|] == cols;
    AllShown(rel, cols, |cols|);
    AllShown(rel, cols, k);
    assert Shows(rel, false, cols, k);
  }

  /** A column the relation does not describe is named by its number, and its text
      is quoted. */
  lemma UndescribedColumn(env: Settings, rel: Relation, cols: seq<Sent>)
    requires |rel.columns| == |rel.oids| < |cols| && !cols[|cols| - 1].SentUnchanged?
    ensures var fields, last := Carried(env, rel, false, cols), cols[|cols| - 1];
      && |fields| > 0 && fields[|fields| - 1].name == "col_" + Dec(|cols| - 1)
      && fields[|fields| - 1].value == if last.SentNull? then NullValue else Quoted(env.decode(last.bytes))
  {
    hide Dec;
  }

  // ---------------------------------------------------------------------------
  // Relations as described

  /** How many of the first n columns are flagged as part of the key. */
  ghost function Flagged(defs: seq<ColumnDef>, n: nat): nat
    requires n <= |defs|
  {
    if n == 0 then 0 else Flagged(defs, n - 1) + if defs[n - 1].flags % 2 == 1 then 1 else 0
  }

  /** The key is the names of the flagged columns, in order. */
  lemma {:induction false} KeyIsFlagged(env: Settings, defs: seq<ColumnDef>)
    ensures |KeyNames(env, defs)| == Flagged(defs, |defs|)
    ensures forall k :: 0 <= k < |defs| && defs[k].flags % 2 == 1 ==>
      Flagged(defs, k) < |KeyNames(env, defs)| && KeyNames(env, defs)[Flagged(defs, k)] == env.decode(defs[k].name)
    decreases |defs|
  {
    if defs == [] {
    } else {
      var n := |defs| - 1;
      var front := defs[..n];
      KeyIsFlagged(env, front);
      forall k | 0 <= k <= n ensures Flagged(defs, k) == Flagged(front, k) {
        SameFlags(defs, front, k);
      }
      forall k | 0 <= k < n && defs[k].flags % 2 == 1
        ensures Flagged(defs, k) < |KeyNames(env, defs)| && KeyNames(env, defs)[Flagged(defs, k)] == env.decode(defs[k].name)
      {
        assert front[k] == defs[k];
      }
    }
  }

  lemma {:induction false} SameFlags(defs: seq<ColumnDef>, front: seq<ColumnDef>, k: nat)
    requires k <= |front| <= |defs| && front == defs[..|front|]
    ensures Flagged(defs, k) == Flagged(front, k)
  {
    if k == 0 {
    } else {
      SameFlags(defs, front, k - 1);
    }
  }

  /** A relation as its message describes it. */
  ghost predicate IsDescribed(env: Settings, m: Message, rel: Relation)
    requires m.RelationMessage?
  {
    && rel.schema == env.decode(m.schema) && rel.name == env.decode(m.name)
    && |rel.columns| == |rel.oids| == |m.columns|
    && (forall k :: 0 <= k < |m.columns| ==> rel.columns[k] == env.decode(m.columns[k].name) && rel.oids[k] == m.columns[k].oid)
    && |rel.key| == Flagged(m.columns, |m.columns|)
    && (forall k :: 0 <= k < |m.columns| && m.columns[k].flags % 2 == 1 ==>
         Flagged(m.columns, k) < |rel.key| && rel.key[Flagged(m.columns, k)] == env.decode(m.columns[k].name))
  }

  lemma DescribedFits(env: Settings, m: Message)
    requires m.RelationMessage?
    ensures IsDescribed(env, m, Described(env, m))
  {
    KeyIsFlagged(env, m.columns);
    hide KeyNames, Flagged;
  }

  /** After a relation message the parser knows the relation as described, from
      its bytes, and every other relation as before. */
  lemma RelationIsKnown(env: Settings, st: State, m: Message)
    requires m.RelationMessage? && WellFormed(m)
    ensures var known := Read(env, st, Encode(m)).state.relations;
      && m.id in known && IsDescribed(env, m, known[m.id])
      && forall id :: id != m.id ==> (id in known <==> id in st.relations) && (id in known ==> known[id] == st.relations[id])
  {
    DescribedFits(env, m);
    RelationReads(env, st, m);
    hide Read, Encode, WellFormed, IsDescribed, Described;
  }

  // ---------------------------------------------------------------------------
  // Events

  const OWNERS := "excalibase_cdc_slot_owners"
  const DDL_LOG := "_cdc_ddl_log"

  /** The table is one the watcher was asked for: any, when none is named, but
      never its own bookkeeping. */
  ghost predicate IsWatched(env: Settings, table: string) {
    table != OWNERS && (env.filter != {} ==> table in env.filter)
  }

  /** The row a message's image comes to. */
  ghost predicate IsRow(env: Settings, rel: Relation, keyOnly: bool, cols: seq<Sent>, text: string)
    requires |cols| == |rel.columns| == |rel.oids|
  {
    exists fields :: AreColumns(env, rel, keyOnly, cols, |cols|, fields) && text == RowText(fields)
  }

  lemma CarriedIsRow(env: Settings, rel: Relation, keyOnly: bool, cols: seq<Sent>)
    requires |cols| == |rel.columns| == |rel.oids|
    ensures IsRow(env, rel, keyOnly, cols, RowText(Carried(env, rel, keyOnly, cols)))
  {
    hide AreColumns, RowText, Carried;
    CarriedAreColumns(env, rel, keyOnly, cols, |cols|);
    assert cols[..|cols|] == cols;
  }

  /** The data of an update: an object with the image before the change, if one is
      sent, as "old", and the row after it as "new". */
  ghost predicate IsUpdate(env: Settings, rel: Relation, before: Option<Image>, cols: seq<Sent>, text: string)
    requires |cols| == |rel.columns| == |rel.oids| && (before.Some? ==> |before.value.cols| == |cols|)
  {
    exists earlier: string, after: string ::
      && IsRow(env, rel, false, cols, after)
      && (before.Some? ==> IsRow(env, rel, before.value.KeyImage?, before.value.cols, earlier))
      && text == RowText((if before.Some? then [Field("old", Document(earlier))] else []) + [Field("new", Document(after))])
  }

  /** Every image of the message has the relation's columns. */
  predicate SameWidth(rel: Relation, m: Message) {
    && |rel.columns| == |rel.oids|
    && (m.InsertMessage? ==> |m.cols| == |rel.columns|)
    && (m.UpdateMessage? ==> |m.cols| == |rel.columns| && (m.before.Some? ==> |m.before.value.cols| == |rel.columns|))
    && (m.DeleteMessage? ==> |m.image.cols| == |rel.columns|)
  }

  /** What an insert, update or delete comes to, told from the message and the
      relation alone. */
  ghost predicate Describes(env: Settings, rel: Relation, m: Message, e: Option<Event>)
    requires (m.InsertMessage? || m.UpdateMessage? || m.DeleteMessage?) && SameWidth(rel, m)
  {
    if m.InsertMessage? && env.captureDdl && rel.name == DDL_LOG then
      e.Some? && e.value.typ == Cdc.DDL && e.value.schema == rel.schema && e.value.table == "" && e.value.key == []
      && IsRow(env, rel, false, m.cols, e.value.data)
    else if !IsWatched(env, rel.name) then e.None?
    else
      && e.Some? && e.value.schema == rel.schema && e.value.table == rel.name && e.value.key == rel.key
      && match m
         case InsertMessage(_, cols) => e.value.typ == Cdc.Insert && IsRow(env, rel, false, cols, e.value.data)
         case UpdateMessage(_, before, cols) => e.value.typ == Cdc.Update && IsUpdate(env, rel, before, cols, e.value.data)
         case DeleteMessage(_, image) => e.value.typ == Cdc.Delete && IsRow(env, rel, image.KeyImage?, image.cols, e.value.data)
  }

  lemma UpdateDescribed(env: Settings, rel: Relation, before: Option<Image>, cols: seq<Sent>)
    requires |cols| == |rel.columns| == |rel.oids| && (before.Some? ==> |before.value.cols| == |cols|)
    ensures var earlier := if before.Some? then Some(ImageRow(env, rel, before.value)) else None;
      IsUpdate(env, rel, before, cols, ImagesText(earlier, Some(RowText(Carried(env, rel, false, cols)))))
  {
    var after := RowText(Carried(env, rel, false, cols));
    var earlier := if before.Some? then ImageRow(env, rel, before.value) else "";
    CarriedIsRow(env, rel, false, cols);
    if before.Some? {
      CarriedIsRow(env, rel, before.value.KeyImage?, before.value.cols);
    }
    ImagesAreARow(if before.Some? then Some(earlier) else None, after);
    hide IsRow, RowText, ImagesText, Carried;
    assert before.Some? ==> IsRow(env, rel, before.value.KeyImage?, before.value.cols, earlier);
  }

  lemma ChangeDescribed(env: Settings, st: State, m: Message)
    requires (m.InsertMessage? || m.UpdateMessage? || m.DeleteMessage?) && m.id in st.relations && SameWidth(st.relations[m.id], m)
    ensures Describes(env, st.relations[m.id], m, Change(env, st, m))
  {
    var rel := st.relations[m.id];
    match m {
      case InsertMessage(_, cols) => CarriedIsRow(env, rel, false, cols);
      case UpdateMessage(_, before, cols) => UpdateDescribed(env, rel, before, cols);
      case DeleteMessage(_, image) => CarriedIsRow(env, rel, image.KeyImage?, image.cols);
    }
    hide IsRow, IsUpdate, RowText, ImagesText, Carried;
  }

  /** A relation message and then a change to that relation, both read from their
      bytes by a parser in any state: the event is of the right kind, names the
      relation, its key and its schema, and shows exactly the columns the change
      carries, each by the definition in the relation message. A change of an
      unknown relation gives no event. */
  lemma ChangeMeans(env: Settings, st: State, relation: Message, m: Message)
    requires relation.RelationMessage? && WellFormed(relation) && (m.InsertMessage? || m.UpdateMessage? || m.DeleteMessage?) && WellFormed(m)
    ensures var known := Read(env, st, Encode(relation)).state;
      var e := Read(env, known, Encode(m)).event;
      && (m.id == relation.id ==>
           && m.id in known.relations && IsDescribed(env, relation, known.relations[m.id])
           && (SameWidth(known.relations[m.id], m) ==> Describes(env, known.relations[m.id], m, e)))
      && (m.id !in known.relations ==> e.None?)
  {
    RelationIsKnown(env, st, relation);
    var known := Read(env, st, Encode(relation)).state;
    ChangeReads(env, known, m);
    if m.id == relation.id && SameWidth(known.relations[m.id], m) {
      ChangeDescribed(env, known, m);
    }
    hide Read, Encode, WellFormed, IsDescribed, Describes, SameWidth;
  }

  // Messages cut short, and others

  /** A BEGIN or COMMIT cut short is an event without a time; the transaction keeps
      its old position, and the commit has none to confirm. */
  lemma ShortMarks(env: Settings, st: State, data: seq<Byte>)
    requires data != []
    ensures data[0] == 'B' as int && |data| <= 20 ==>
      Read(env, st, data) == Outcome(st, Some(Event(Cdc.Begin, "", "", "", [], 0)), [], Cursor(data, 1, false))
    ensures data[0] == 'C' as int && |data| <= 25 ==>
      Read(env, st, data) == Outcome(st.(endLsn := 0), Some(Event(Cdc.Commit, "", "", "", [], 0)), [], Cursor(data, 1, false))
  {
  }

  /** Nothing comes of no data, or of a message of another kind. */
  lemma OtherMessages(env: Settings, st: State, data: seq<Byte>)
    requires data != [] ==> data[0] !in ['B' as int, 'C' as int, 'R' as int, 'I' as int, 'U' as int, 'D' as int, 'T' as int]
    ensures var out := Read(env, st, data); out.state == st && out.event.None? && out.handled == []
  {
  }

  /** A change cut short after its relation shows no columns, and a deletion then
      has no key either. */
  lemma ShortChanges(env: Settings, st: State, tag: Byte, id: nat)
    requires id in st.relations && id < Pow256(4) && IsWatched(env, st.relations[id].name) && st.relations[id].name != DDL_LOG
    ensures var e := Read(env, st, [tag] + EncodeUint(id, 4)).event;
      var rel := st.relations[id];
      && (tag == 'I' as int ==> e == Some(Event(Cdc.Insert, rel.schema, rel.name, "{}", rel.key, 0)))
      && (tag == 'U' as int ==> e == Some(Event(Cdc.Update, rel.schema, rel.name, "{}", rel.key, 0)))
      && (tag == 'D' as int ==> e == Some(Event(Cdc.Delete, rel.schema, rel.name, "{}", [], 0)))
  {
    var data := [tag] + EncodeUint(id, 4);
    var c := Cursor(data, 1, false);
    assert data[1..5] == EncodeUint(id, 4);
    ReadsUint(c, id, 4);
    assert c.Advance(4).Remaining() == 0;
    assert ImagesText(None, None) == "{}";
    hide EncodeUint, Pow256, DecodeUint;
  }

  /** An update followed by a byte that announces no image shows none. */
  lemma NoImage(env: Settings, st: State, id: nat, other: Byte)
    requires id in st.relations && id < Pow256(4) && IsWatched(env, st.relations[id].name)
    requires other !in ['K' as int, 'O' as int, 'N' as int]
    ensures var rel := st.relations[id];
      Read(env, st, ['U' as int] + (EncodeUint(id, 4) + [other])).event == Some(Event(Cdc.Update, rel.schema, rel.name, "{}", rel.key, 0))
  {
    var data: seq<Byte> := ['U' as int] + (EncodeUint(id, 4) + [other]);
    var c := Cursor(data, 1, false);
    assert data[1..6] == EncodeUint(id, 4) + [other];
    AtSplit(c, EncodeUint(id, 4), [other]);
    ReadsUint(c, id, 4);
    ReadsByte(c.Advance(4), other);
    assert ImagesText(None, None) == "{}";
    hide EncodeUint, Pow256, DecodeUint, ImagesText;
  }

  /** A column whose marker the protocol does not have shows as the text
      "unknown". */
  lemma UnknownMarker(env: Settings, rel: Relation, i: nat, marker: Byte)
    requires marker !in ['n' as int, 'u' as int, 't' as int] && i < |rel.columns|
    ensures ReadColumn(env, rel, false, i, Cursor([marker], 0, false)).0 == Some(Field(rel.columns[i], Unknown))
  {
    ReadsByte(Cursor([marker], 0, false), marker);
  }

  /** A TRUNCATE gives one event for each relation it names that is known and
      watched, in order: the relation's own, with the options as its data. */
  ghost predicate TruncatesAll(env: Settings, st: State, options: nat, ids: seq<nat>, events: seq<Event>) {
    if ids == [] then events == []
    else
      var id := ids[|ids| - 1];
      if id in st.relations && IsWatched(env, st.relations[id].name) then
        && events != [] && IsTruncate(st.relations[id], options, events[|events| - 1])
        && TruncatesAll(env, st, options, ids[..|ids| - 1], events[..|events| - 1])
      else TruncatesAll(env, st, options, ids[..|ids| - 1], events)
  }

  ghost predicate IsTruncate(rel: Relation, options: nat, e: Event) {
    && e.typ == Cdc.Truncate && e.schema == rel.schema && e.table == rel.name && e.key == []
    && e.data == RowText([Field("options", Numeric(Dec(options)))])
  }

  lemma TruncateIs(rel: Relation, options: nat)
    ensures IsTruncate(rel, options, TruncateEvent(rel, options))
  {
    hide FieldText, RowText, Dec;
    var f := Field("options", Numeric(Dec(options)));
    NamedText("options", Dec(options));
    assert "\"" + "options" + "\":" == "\"options\":";
    TwoFields(f, f);
    assert TruncateEvent(rel, options).data == "{" + FieldText(f) + "}";
  }

  lemma {:induction false} TruncationsMean(env: Settings, st: State, options: nat, ids: seq<nat>)
    ensures TruncatesAll(env, st, options, ids, Truncations(env, st, options, ids))
    decreases |ids|
  {
    hide TruncateEvent, IsTruncate;
    if ids == [] {
    } else {
      var front, id := ids[..|ids| - 1], ids[|ids| - 1];
      TruncationsMean(env, st, options, front);
      var before, events := Truncations(env, st, options, front), Truncations(env, st, options, ids);
      if id in st.relations && IsWatched(env, st.relations[id].name) {
        TruncateIs(st.relations[id], options);
        assert events[..|events| - 1] == before;
      } else {
        assert before + [] == before;
      }
    }
  }

  /** A TRUNCATE message, read from its bytes: with a handler set the events come
      out as the relations are named, but the first last. */
  lemma TruncateMeans(env: Settings, st: State, m: Message) returns (events: seq<Event>)
    requires m.TruncateMessage? && WellFormed(m)
    ensures TruncatesAll(env, st, m.options, m.ids, events)
    ensures env.hasHandler ==> Emissions(Read(env, st, Encode(m))) == if events == [] then [] else events[1..] + [events[0]]
    ensures !env.hasHandler ==> Emissions(Read(env, st, Encode(m))) == if events == [] then [] else [events[0]]
  {
    events := Truncations(env, st, m.options, m.ids);
    TruncationsMean(env, st, m.options, m.ids);
    TruncateReads(env, st, m);
    hide Read, Encode, WellFormed, Truncations, TruncatesAll;
  }
}
