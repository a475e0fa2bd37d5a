/** The messages PostgreSQL sends (section 55.9 of the PostgreSQL 16 manual),
    and the proof that the decoder reads from each exactly what it carries. */
module PgMessages {
  import opened Streams
  import opened PgWire
  import opened PgRow
  import opened PgOutput
  import opened Text
  import JsonText
  import Cdc

  /** One column of a row image as sent. */
  datatype Sent = SentNull | SentUnchanged | SentText(bytes: seq<Byte>)

  function EncodeColumn(col: Sent): seq<Byte> {
    match col
    case SentNull => ['n' as int]
    case SentUnchanged => ['u' as int]
    case SentText(bytes) => ['t' as int] + (EncodeUint(|bytes|, 4) + bytes)
  }

  function EncodeColumns(cols: seq<Sent>): seq<Byte> {
    if cols == [] then [] else EncodeColumns(cols[..|cols| - 1]) + EncodeColumn(cols[|cols| - 1])
  }

  function EncodeTuple(cols: seq<Sent>): seq<Byte> {
    EncodeUint(|cols|, 2) + EncodeColumns(cols)
  }

  /** Lengths and counts fit their fields on the wire. */
  predicate Fits(cols: seq<Sent>) {
    && |cols| < Pow256(2)
    && forall col <- cols :: ColumnFits(col)
  }

  predicate ColumnFits(col: Sent) {
    col.SentText? ==> |col.bytes| < Pow256(4)
  }

  // ---------------------------------------------------------------------------
  // What an image carries

  function SentValue(env: Settings, oid: nat, col: Sent): Value
    requires !col.SentUnchanged?
  {
    if col.SentNull? then NullValue else TextValue(env, oid, env.decode(col.bytes))
  }

  /** An unchanged column has no value in the message, and a key image has none
      for a column outside the key; a real NULL is a value. */
  function CarriedField(env: Settings, rel: Relation, keyOnly: bool, i: nat, col: Sent): Option<Field> {
    if col.SentUnchanged? || (keyOnly && NameAt(rel, i) !in rel.key) then None
    else Some(Field(NameAt(rel, i), SentValue(env, TypeAt(rel, i), col)))
  }

  function Carried(env: Settings, rel: Relation, keyOnly: bool, cols: seq<Sent>): seq<Field> {
    if cols == [] then []
    else
      var last := |cols| - 1;
      Append(Carried(env, rel, keyOnly, cols[..last]), CarriedField(env, rel, keyOnly, last, cols[last]))
  }

  lemma ColumnReads(env: Settings, rel: Relation, keyOnly: bool, i: nat, col: Sent, c: Cursor)
    requires c.At(EncodeColumn(col)) && ColumnFits(col)
    ensures c.Valid()
    ensures ReadColumn(env, rel, keyOnly, i, c) == (CarriedField(env, rel, keyOnly, i, col), c.Advance(|EncodeColumn(col)|))
  {
    hide Uint, EncodeUint, TextValue;
    match col {
      case SentNull => ReadsByte(c, 'n' as int);
      case SentUnchanged => ReadsByte(c, 'u' as int);
      case SentText(bytes) =>
        AtSplit(c, ['t' as int], EncodeUint(|bytes|, 4) + bytes);
        ReadsByte(c, 't' as int);
        var c1 := c.Advance(1);
        AtSplit(c1, EncodeUint(|bytes|, 4), bytes);
        ReadsUint(c1, |bytes|, 4);
        assert Bytes(c1.Advance(4), |bytes|) == (bytes, c1.Advance(4).Advance(|bytes|));
    }
  }

  lemma {:induction false} ColumnsRead(env: Settings, rel: Relation, keyOnly: bool, cols: seq<Sent>, c: Cursor)
    requires c.At(EncodeColumns(cols)) && forall col <- cols :: ColumnFits(col)
    ensures c.Valid()
    ensures ReadColumns(env, rel, keyOnly, |cols|, c) == (Carried(env, rel, keyOnly, cols), c.Advance(|EncodeColumns(cols)|))
    decreases |cols|
  {
    hide EncodeColumn, CarriedField, ReadColumn, ColumnFits;
    if cols == [] {
    } else {
      var front, last := cols[..|cols| - 1], cols[|cols| - 1];
      assert last in cols;
      AtSplit(c, EncodeColumns(front), EncodeColumn(last));
      ColumnsRead(env, rel, keyOnly, front, c);
      ColumnReads(env, rel, keyOnly, |front|, last, c.Advance(|EncodeColumns(front)|));
    }
  }

  /** A row image reads as exactly the columns it carries, and the cursor ends
      at its end. */
  lemma TupleReads(env: Settings, rel: Relation, keyOnly: bool, cols: seq<Sent>, c: Cursor)
    requires c.At(EncodeTuple(cols)) && Fits(cols)
    ensures c.Valid()
    ensures ReadTuple(env, rel, keyOnly, c) == (RowText(Carried(env, rel, keyOnly, cols)), c.Advance(|EncodeTuple(cols)|))
  {
    hide Uint, EncodeUint, EncodeColumns, ReadColumns, Carried, RowText;
    AtSplit(c, EncodeUint(|cols|, 2), EncodeColumns(cols));
    ReadsUint(c, |cols|, 2);
    ColumnsRead(env, rel, keyOnly, cols, c.Advance(2));
  }

  // ---------------------------------------------------------------------------
  // Messages

  /** The image of the row before the change: its key, or the whole row. */
  datatype Image = KeyImage(cols: seq<Sent>) | FullImage(cols: seq<Sent>)

  datatype ColumnDef = ColumnDef(flags: Byte, name: seq<Byte>, oid: nat, modifier: nat)

  datatype Message =
    | BeginMessage(finalLsn: nat, micros: nat, xid: nat)
    | CommitMessage(flags: Byte, lsn: nat, endLsn: nat, micros: nat)
    | RelationMessage(id: nat, schema: seq<Byte>, name: seq<Byte>, identity: Byte, columns: seq<ColumnDef>)
    | InsertMessage(id: nat, cols: seq<Sent>)
    | UpdateMessage(id: nat, before: Option<Image>, cols: seq<Sent>)
    | DeleteMessage(id: nat, image: Image)
    | TruncateMessage(options: Byte, ids: seq<nat>)

  function EncodeImage(image: Image): seq<Byte> {
    [if image.KeyImage? then 'K' as int else 'O' as int] + EncodeTuple(image.cols)
  }

  function EncodeDef(def: ColumnDef): seq<Byte> {
    [def.flags] + ((def.name + [0]) + (EncodeUint(def.oid, 4) + EncodeUint(def.modifier, 4)))
  }

  function EncodeDefs(defs: seq<ColumnDef>): seq<Byte> {
    if defs == [] then [] else EncodeDefs(defs[..|defs| - 1]) + EncodeDef(defs[|defs| - 1])
  }

  function EncodeLayout(columns: seq<ColumnDef>): seq<Byte> {
    EncodeUint(|columns|, 2) + EncodeDefs(columns)
  }

  function EncodeRelation(schema: seq<Byte>, name: seq<Byte>, identity: Byte, columns: seq<ColumnDef>): seq<Byte> {
    var layout := [identity] + EncodeLayout(columns);
    (schema + [0]) + ((name + [0]) + layout)
  }

  function EncodeNew(cols: seq<Sent>): seq<Byte> {
    ['N' as int] + EncodeTuple(cols)
  }

  function EncodeBefore(before: Option<Image>): seq<Byte> {
    if before.Some? then EncodeImage(before.value) else []
  }

  function EncodeIds(ids: seq<nat>): seq<Byte> {
    if ids == [] then [] else EncodeIds(ids[..|ids| - 1]) + EncodeUint(ids[|ids| - 1], 4)
  }

  /** A message after its tag. */
  function EncodeBody(m: Message): seq<Byte> {
    match m
    case BeginMessage(lsn, micros, xid) => EncodeUint(lsn, 8) + (EncodeUint(micros, 8) + EncodeUint(xid, 4))
    case CommitMessage(flags, lsn, end, micros) =>
      [flags] + (EncodeUint(lsn, 8) + (EncodeUint(end, 8) + EncodeUint(micros, 8)))
    case RelationMessage(id, schema, name, identity, columns) => EncodeUint(id, 4) + EncodeRelation(schema, name, identity, columns)
    case InsertMessage(id, cols) => EncodeUint(id, 4) + EncodeNew(cols)
    case UpdateMessage(id, before, cols) => EncodeUint(id, 4) + (EncodeBefore(before) + EncodeNew(cols))
    case DeleteMessage(id, image) => EncodeUint(id, 4) + EncodeImage(image)
    case TruncateMessage(options, ids) => EncodeUint(|ids|, 4) + ([options] + EncodeIds(ids))
  }

  function Tag(m: Message): Byte {
    match m
    case BeginMessage(_, _, _) => 'B' as int
    case CommitMessage(_, _, _, _) => 'C' as int
    case RelationMessage(_, _, _, _, _) => 'R' as int
    case InsertMessage(_, _) => 'I' as int
    case UpdateMessage(_, _, _) => 'U' as int
    case DeleteMessage(_, _) => 'D' as int
    case TruncateMessage(_, _) => 'T' as int
  }

  function Encode(m: Message): seq<Byte> {
    [Tag(m)] + EncodeBody(m)
  }

  predicate DefFits(def: ColumnDef) {
    0 !in def.name && def.oid < Pow256(4) && def.modifier < Pow256(4)
  }

  predicate WellFormed(m: Message) {
    match m
    case BeginMessage(lsn, micros, xid) => lsn < Pow256(8) && micros < Pow256(8) && xid < Pow256(4)
    case CommitMessage(flags, lsn, end, micros) => lsn < Pow256(8) && end < Pow256(8) && micros < Pow256(8)
    case RelationMessage(id, schema, name, identity, columns) =>
      && id < Pow256(4) && 0 !in schema && 0 !in name && |columns| < Pow256(2)
      && forall def <- columns :: DefFits(def)
    case InsertMessage(id, cols) => id < Pow256(4) && Fits(cols)
    case UpdateMessage(id, before, cols) => id < Pow256(4) && Fits(cols) && (before.Some? ==> Fits(before.value.cols))
    case DeleteMessage(id, image) => id < Pow256(4) && Fits(image.cols)
    case TruncateMessage(_, ids) => |ids| < Pow256(4) && forall id <- ids :: id < Pow256(4)
  }

  function ImageRow(env: Settings, rel: Relation, image: Image): string {
    RowText(Carried(env, rel, image.KeyImage?, image.cols))
  }

  /** The relation a relation message describes. */
  function Described(env: Settings, m: Message): Relation
    requires m.RelationMessage?
  {
    Relation(env.decode(m.schema), env.decode(m.name),
             seq(|m.columns|, i requires 0 <= i < |m.columns| => env.decode(m.columns[i].name)),
             seq(|m.columns|, i requires 0 <= i < |m.columns| => m.columns[i].oid),
             KeyNames(env, m.columns))
  }

  function KeyNames(env: Settings, defs: seq<ColumnDef>): seq<string> {
    if defs == [] then []
    else
      var last := defs[|defs| - 1];
      KeyNames(env, defs[..|defs| - 1]) + if last.flags % 2 == 1 then [env.decode(last.name)] else []
  }

  /** The row change a message describes, or None when it is not decoded. */
  function Change(env: Settings, st: State, m: Message): Option<Event>
    requires m.InsertMessage? || m.UpdateMessage? || m.DeleteMessage?
  {
    if m.id !in st.relations then None
    else
      var rel := st.relations[m.id];
      if m.InsertMessage? && env.captureDdl && rel.name == DDL_LOG_TABLE then
        Some(Event(Cdc.DDL, rel.schema, "", RowText(Carried(env, rel, false, m.cols)), [], 0))
      else if !PassesFilter(env, rel.name) then None
      else
        match m
        case InsertMessage(_, cols) =>
          Some(Event(Cdc.Insert, rel.schema, rel.name, RowText(Carried(env, rel, false, cols)), rel.key, 0))
        case UpdateMessage(_, before, cols) =>
          var earlier := if before.Some? then Some(ImageRow(env, rel, before.value)) else None;
          Some(Event(Cdc.Update, rel.schema, rel.name, ImagesText(earlier, Some(RowText(Carried(env, rel, false, cols)))), rel.key, 0))
        case DeleteMessage(_, image) =>
          Some(Event(Cdc.Delete, rel.schema, rel.name, ImageRow(env, rel, image), rel.key, 0))
  }

  // ---------------------------------------------------------------------------
  // Reading them

  /** After its tag a message lies ahead of the cursor, to the end of the data. */
  lemma Start(m: Message) returns (c: Cursor)
    ensures c == Cursor(Encode(m), 1, false) && c.At(EncodeBody(m)) && c.pos + |EncodeBody(m)| == |Encode(m)|
  {
    hide EncodeBody;
    c := Cursor(Encode(m), 1, false);
    assert Encode(m)[1..1 + |EncodeBody(m)|] == EncodeBody(m);
  }

  lemma ImageReads(env: Settings, rel: Relation, image: Image, c: Cursor)
    requires c.At(EncodeImage(image)) && Fits(image.cols) && c.pos > 0
    ensures c.Valid()
    ensures ReadOld(env, rel, c) == (Some(ImageRow(env, rel, image)), c.Advance(|EncodeImage(image)|))
  {
    hide Uint, EncodeTuple, ReadTuple, RowText, Carried, Fits;
    var marker: Byte := if image.KeyImage? then 'K' as int else 'O' as int;
    AtSplit(c, [marker], EncodeTuple(image.cols));
    ReadsByte(c, marker);
    TupleReads(env, rel, image.KeyImage?, image.cols, c.Advance(1));
  }

  lemma NewReads(env: Settings, rel: Relation, cols: seq<Sent>, c: Cursor)
    requires c.At(EncodeNew(cols)) && Fits(cols)
    ensures c.Valid()
    ensures ReadNew(env, rel, c) == (Some(RowText(Carried(env, rel, false, cols))), c.Advance(1 + |EncodeTuple(cols)|))
  {
    hide Uint, EncodeTuple, ReadTuple, RowText, Carried, Fits;
    AtSplit(c, ['N' as int], EncodeTuple(cols));
    ReadsByte(c, 'N' as int);
    TupleReads(env, rel, false, cols, c.Advance(1));
  }

  /** Without an earlier image the byte that was read is put back. */
  lemma NoOldReads(env: Settings, rel: Relation, cols: seq<Sent>, c: Cursor)
    requires c.At(EncodeNew(cols)) && c.pos > 0
    ensures c.Valid() && ReadOld(env, rel, c) == (None, c)
  {
    hide Uint, EncodeTuple;
    AtSplit(c, ['N' as int], EncodeTuple(cols));
    ReadsByte(c, 'N' as int);
  }

  lemma InsertReads(env: Settings, st: State, m: Message)
    requires m.InsertMessage? && WellFormed(m)
    ensures var out := Read(env, st, Encode(m));
      && out.state == st && out.handled == [] && out.event == Change(env, st, m)
      && (out.event.Some? ==> out.cursor == Cursor(Encode(m), |Encode(m)|, false))
  {
    hide Uint, EncodeUint, EncodeTuple, ReadTuple, RowText, Carried, Fits;
    var tail := EncodeNew(m.cols);
    var c := Start(m);
    AtSplit(c, EncodeUint(m.id, 4), tail);
    ReadsUint(c, m.id, 4);
    var c1 := c.Advance(4);
    AtSplit(c1, ['N' as int], EncodeTuple(m.cols));
    ReadsByte(c1, 'N' as int);
    if m.id in st.relations {
      TupleReads(env, st.relations[m.id], false, m.cols, c1.Advance(1));
    }
  }

  lemma UpdateImagesRead(env: Settings, rel: Relation, before: Option<Image>, cols: seq<Sent>, c: Cursor)
    requires c.At(EncodeBefore(before) + EncodeNew(cols)) && c.pos > 0
    requires Fits(cols) && (before.Some? ==> Fits(before.value.cols))
    ensures c.Valid()
    ensures var (earlier, c1) := ReadOld(env, rel, c);
      && earlier == (if before.Some? then Some(ImageRow(env, rel, before.value)) else None)
      && ReadNew(env, rel, c1) == (Some(RowText(Carried(env, rel, false, cols))), c1.Advance(1 + |EncodeTuple(cols)|))
      && c1 == c.Advance(|EncodeBefore(before)|)
  {
    hide Uint, EncodeTuple, EncodeImage, ImageRow, ReadOld, ReadNew, RowText, Carried, Fits;
    var tail := EncodeNew(cols);
    if before.Some? {
      AtSplit(c, EncodeImage(before.value), tail);
      ImageReads(env, rel, before.value, c);
      NewReads(env, rel, cols, c.Advance(|EncodeImage(before.value)|));
    } else {
      assert [] + tail == tail;
      NoOldReads(env, rel, cols, c);
      NewReads(env, rel, cols, c);
    }
  }

  lemma UpdateReads(env: Settings, st: State, m: Message)
    requires m.UpdateMessage? && WellFormed(m)
    ensures var out := Read(env, st, Encode(m));
      && out.state == st && out.handled == [] && out.event == Change(env, st, m)
      && (out.event.Some? ==> out.cursor == Cursor(Encode(m), |Encode(m)|, false))
  {
    hide Uint, EncodeUint, EncodeTuple, EncodeImage, ImageRow, ReadOld, ReadNew, RowText, Carried, Fits, ImagesText;
    var tail := EncodeBefore(m.before) + EncodeNew(m.cols);
    var c := Start(m);
    AtSplit(c, EncodeUint(m.id, 4), tail);
    ReadsUint(c, m.id, 4);
    if m.id in st.relations {
      UpdateImagesRead(env, st.relations[m.id], m.before, m.cols, c.Advance(4));
    }
  }

  lemma DeleteReads(env: Settings, st: State, m: Message)
    requires m.DeleteMessage? && WellFormed(m)
    ensures var out := Read(env, st, Encode(m));
      && out.state == st && out.handled == [] && out.event == Change(env, st, m)
      && (out.event.Some? ==> out.cursor == Cursor(Encode(m), |Encode(m)|, false))
  {
    hide Uint, EncodeUint, EncodeTuple, ReadTuple, RowText, Carried, Fits;
    var tail := EncodeImage(m.image);
    var marker: Byte := if m.image.KeyImage? then 'K' as int else 'O' as int;
    var c := Start(m);
    AtSplit(c, EncodeUint(m.id, 4), tail);
    ReadsUint(c, m.id, 4);
    var c1 := c.Advance(4);
    AtSplit(c1, [marker], EncodeTuple(m.image.cols));
    ReadsByte(c1, marker);
    if m.id in st.relations {
      TupleReads(env, st.relations[m.id], m.image.KeyImage?, m.image.cols, c1.Advance(1));
    }
  }

  /** Every well-formed insert, update and delete reads as the change it
      describes, and the cursor ends exactly at the end of the message. */
  lemma ChangeReads(env: Settings, st: State, m: Message)
    requires (m.InsertMessage? || m.UpdateMessage? || m.DeleteMessage?) && WellFormed(m)
    ensures var out := Read(env, st, Encode(m));
      && out.state == st && out.handled == [] && out.event == Change(env, st, m)
      && (out.event.Some? ==> out.cursor == Cursor(Encode(m), |Encode(m)|, false))
  {
    hide Read, Change, Encode, WellFormed;
    if m.InsertMessage? {
      InsertReads(env, st, m);
    } else if m.UpdateMessage? {
      UpdateReads(env, st, m);
    } else {
      DeleteReads(env, st, m);
    }
  }

  lemma BeginReads(env: Settings, st: State, m: Message)
    requires m.BeginMessage? && WellFormed(m)
    ensures Read(env, st, Encode(m)) == Outcome(st.(finalLsn := m.finalLsn), Some(Event(Cdc.Begin, "", "", "", [], 946684800000 + m.micros / 1000)), [], Cursor(Encode(m), |Encode(m)|, false))
  {
    hide Uint, EncodeUint;
    var tail := EncodeUint(m.micros, 8) + EncodeUint(m.xid, 4);
    var c := Start(m);
    AtSplit(c, EncodeUint(m.finalLsn, 8), tail);
    ReadsUint(c, m.finalLsn, 8);
    AtSplit(c.Advance(8), EncodeUint(m.micros, 8), EncodeUint(m.xid, 4));
    ReadsUint(c.Advance(8), m.micros, 8);
    ReadsUint(c.Advance(8).Advance(8), m.xid, 4);
  }

  lemma CommitReads(env: Settings, st: State, m: Message)
    requires m.CommitMessage? && WellFormed(m)
    ensures Read(env, st, Encode(m)) == Outcome(st.(endLsn := m.endLsn), Some(Event(Cdc.Commit, "", "", "", [], 946684800000 + m.micros / 1000)), [], Cursor(Encode(m), |Encode(m)|, false))
  {
    hide Uint, EncodeUint;
    var tail := EncodeUint(m.endLsn, 8) + EncodeUint(m.micros, 8);
    var c := Start(m);
    AtSplit(c, [m.flags], EncodeUint(m.lsn, 8) + tail);
    ReadsByte(c, m.flags);
    var c1 := c.Advance(1);
    AtSplit(c1, EncodeUint(m.lsn, 8), tail);
    ReadsUint(c1, m.lsn, 8);
    AtSplit(c1.Advance(8), EncodeUint(m.endLsn, 8), EncodeUint(m.micros, 8));
    ReadsUint(c1.Advance(8), m.endLsn, 8);
    ReadsUint(c1.Advance(8).Advance(8), m.micros, 8);
  }

  // ---------------------------------------------------------------------------
  // Relations

  lemma DefReads(def: ColumnDef, c: Cursor)
    requires c.At(EncodeDef(def)) && DefFits(def)
    ensures c.Valid() && Uint(c, 1) == (def.flags, c.Advance(1))
    ensures var c1 := c.Advance(1);
      var c2 := c1.Advance(|def.name| + 1);
      && c1.Valid() && CString(c1) == (def.name, c2)
      && c2.Valid() && Uint(c2, 4) == (def.oid, c2.Advance(4))
      && c2.Advance(4).Valid() && Uint(c2.Advance(4), 4) == (def.modifier, c.Advance(|EncodeDef(def)|))
  {
    hide Uint, CString, EncodeUint;
    var numbers := EncodeUint(def.oid, 4) + EncodeUint(def.modifier, 4);
    AtSplit(c, [def.flags], (def.name + [0]) + numbers);
    ReadsByte(c, def.flags);
    var c1 := c.Advance(1);
    AtSplit(c1, def.name + [0], numbers);
    ReadsCString(c1, def.name);
    var c2 := c1.Advance(|def.name| + 1);
    AtSplit(c2, EncodeUint(def.oid, 4), EncodeUint(def.modifier, 4));
    ReadsUint(c2, def.oid, 4);
    ReadsUint(c2.Advance(4), def.modifier, 4);
  }

  function AddDef(env: Settings, rel: Relation, def: ColumnDef): Relation {
    AddColumn(rel, def.flags, env.decode(def.name), def.oid)
  }

  function AddDefs(env: Settings, rel: Relation, defs: seq<ColumnDef>): Relation {
    if defs == [] then rel else AddDef(env, AddDefs(env, rel, defs[..|defs| - 1]), defs[|defs| - 1])
  }

  lemma {:induction false} DefsRead(env: Settings, rel: Relation, defs: seq<ColumnDef>, c: Cursor)
    requires c.At(EncodeDefs(defs)) && forall def <- defs :: DefFits(def)
    ensures c.Valid()
    ensures ReadRelationColumns(env, rel, |defs|, c) == (AddDefs(env, rel, defs), c.Advance(|EncodeDefs(defs)|))
    decreases |defs|
  {
    hide Uint, CString, EncodeDef, DefFits, AddColumn;
    if defs == [] {
    } else {
      var front, last := defs[..|defs| - 1], defs[|defs| - 1];
      assert last in defs;
      AtSplit(c, EncodeDefs(front), EncodeDef(last));
      DefsRead(env, rel, front, c);
      DefReads(last, c.Advance(|EncodeDefs(front)|));
    }
  }

  lemma {:induction false} DefsDescribe(env: Settings, schema: string, name: string, defs: seq<ColumnDef>)
    ensures var rel := AddDefs(env, Relation(schema, name, [], [], []), defs);
      && rel.schema == schema && rel.name == name && rel.key == KeyNames(env, defs)
      && |rel.columns| == |rel.oids| == |defs|
      && forall i :: 0 <= i < |defs| ==> rel.columns[i] == env.decode(defs[i].name) && rel.oids[i] == defs[i].oid
    decreases |defs|
  {
    if defs == [] {
    } else {
      DefsDescribe(env, schema, name, defs[..|defs| - 1]);
    }
  }

  /** Columns read after a relation's names are the ones it describes. */
  lemma LayoutReads(env: Settings, schema: string, name: string, columns: seq<ColumnDef>, c: Cursor)
    requires c.At(EncodeLayout(columns)) && |columns| < Pow256(2) && forall def <- columns :: DefFits(def)
    ensures c.Valid() && Uint(c, 2) == (|columns|, c.Advance(2)) && c.Advance(2).Valid()
    ensures ReadRelationColumns(env, Relation(schema, name, [], [], []), |columns|, c.Advance(2))
         == (AddDefs(env, Relation(schema, name, [], [], []), columns), c.Advance(|EncodeLayout(columns)|))
  {
    hide Uint, EncodeUint, EncodeDefs, ReadRelationColumns, DefFits, AddDefs, Pow256;
    AtSplit(c, EncodeUint(|columns|, 2), EncodeDefs(columns));
    ReadsUint(c, |columns|, 2);
    DefsRead(env, Relation(schema, name, [], [], []), columns, c.Advance(2));
  }

  lemma RelationBodyReads(env: Settings, m: Message, c: Cursor)
    requires m.RelationMessage? && WellFormed(m) && c.At(EncodeBody(m))
    ensures c.Valid()
    ensures ReadRelation(env, c) == (m.id, AddDefs(env, Relation(env.decode(m.schema), env.decode(m.name), [], [], []), m.columns), c.Advance(|EncodeBody(m)|))
  {
    hide Uint, CString, EncodeUint, EncodeLayout, ReadRelationColumns, DefFits, AddDefs, Pow256;
    var layout := EncodeLayout(m.columns);
    var names := (m.name + [0]) + ([m.identity] + layout);
    AtSplit(c, EncodeUint(m.id, 4), (m.schema + [0]) + names);
    ReadsUint(c, m.id, 4);
    var c1 := c.Advance(4);
    AtSplit(c1, m.schema + [0], names);
    ReadsCString(c1, m.schema);
    var c2 := c1.Advance(|m.schema| + 1);
    AtSplit(c2, m.name + [0], [m.identity] + layout);
    ReadsCString(c2, m.name);
    var c3 := c2.Advance(|m.name| + 1);
    AtSplit(c3, [m.identity], layout);
    ReadsByte(c3, m.identity);
    LayoutReads(env, env.decode(m.schema), env.decode(m.name), m.columns, c3.Advance(1));
  }

  lemma DescribedIs(env: Settings, m: Message)
    requires m.RelationMessage?
    ensures AddDefs(env, Relation(env.decode(m.schema), env.decode(m.name), [], [], []), m.columns) == Described(env, m)
  {
    DefsDescribe(env, env.decode(m.schema), env.decode(m.name), m.columns);
    hide AddDefs, KeyNames;
  }

  /** A relation message reads as the relation it describes: its columns and
      types in order, and the columns flagged as key. */
  lemma RelationReads(env: Settings, st: State, m: Message)
    requires m.RelationMessage? && WellFormed(m)
    ensures Read(env, st, Encode(m)) == Outcome(st.(relations := st.relations[m.id := Described(env, m)]), None, [], Cursor(Encode(m), |Encode(m)|, false))
  {
    hide ReadRelation, EncodeBody, WellFormed, AddDefs, Described;
    var c := Start(m);
    RelationBodyReads(env, m, c);
    DescribedIs(env, m);
  }

  // ---------------------------------------------------------------------------
  // TRUNCATE

  /** One event for each relation that is known and passes the filter, in the
      order the message names them. */
  function Truncations(env: Settings, st: State, options: nat, ids: seq<nat>): seq<Event> {
    if ids == [] then []
    else
      var id := ids[|ids| - 1];
      Truncations(env, st, options, ids[..|ids| - 1]) +
      if id in st.relations && PassesFilter(env, st.relations[id].name) then [TruncateEvent(st.relations[id], options)] else []
  }

  lemma {:induction false} IdsRead(env: Settings, st: State, options: nat, ids: seq<nat>, c: Cursor)
    requires c.At(EncodeIds(ids)) && forall id <- ids :: id < Pow256(4)
    ensures c.Valid()
    ensures ReadTruncated(env, st, options, |ids|, c) == (Truncations(env, st, options, ids), c.Advance(|EncodeIds(ids)|))
    decreases |ids|
  {
    hide Uint, EncodeUint, TruncateEvent, PassesFilter, Pow256;
    if ids == [] {
    } else {
      var front, last := ids[..|ids| - 1], ids[|ids| - 1];
      assert last in ids && forall id <- front :: id in ids;
      var before := Truncations(env, st, options, front);
      assert before + [] == before;
      AtSplit(c, EncodeIds(front), EncodeUint(last, 4));
      IdsRead(env, st, options, front, c);
      ReadsUint(c.Advance(|EncodeIds(front)|), last, 4);
    }
  }

  /** The order in which the listener emits what a message decodes to: those
      passed to the handler on the way, then the one returned. */
  function Emissions(out: Outcome): seq<Event> {
    out.handled + if out.event.Some? then [out.event.value] else []
  }

  /** A TRUNCATE reads as one event for each relation it names that passes; with
      the handler set, the first of them is emitted last. */
  lemma TruncateReads(env: Settings, st: State, m: Message)
    requires m.TruncateMessage? && WellFormed(m)
    ensures var out, events := Read(env, st, Encode(m)), Truncations(env, st, m.options, m.ids);
      && out.state == st && out.cursor == Cursor(Encode(m), |Encode(m)|, false)
      && out.event == (if events == [] then None else Some(events[0]))
      && (env.hasHandler ==> Emissions(out) == if events == [] then [] else events[1..] + [events[0]])
      && (!env.hasHandler ==> out.handled == [])
  {
    hide Uint, EncodeUint, EncodeIds, ReadTruncated, Truncations, Pow256;
    var tail := [m.options] + EncodeIds(m.ids);
    var c := Start(m);
    AtSplit(c, EncodeUint(|m.ids|, 4), tail);
    ReadsUint(c, |m.ids|, 4);
    var c1 := c.Advance(4);
    AtSplit(c1, [m.options], EncodeIds(m.ids));
    ReadsByte(c1, m.options);
    IdsRead(env, st, m.options, m.ids, c1.Advance(1));
  }

  // ---------------------------------------------------------------------------
  // What the bus makes of them

  /** The bus refuses a table event whose data is not JSON. */
  ghost predicate BusAccepts(e: Event) {
    Cdc.IsTableEvent(e.typ) && e.data != "" ==> JsonText.IsJson(e.data)
  }

  /** The library's check accepts only JSON. */
  ghost predicate ChecksJson(env: Settings) {
    forall s :: env.isJson(s) ==> JsonText.IsJson(s)
  }

  /** What PostgreSQL prints for a number is one, or NaN or an infinity. */
  ghost predicate PrintsNumbers(fields: seq<Field>) {
    forall f <- fields :: f.value.Numeric? ==> JsonText.IsNumber(f.value.text) || IsSpecial(f.value.text)
  }

  lemma {:induction false} CarriedIsSendable(env: Settings, rel: Relation, keyOnly: bool, cols: seq<Sent>)
    requires ChecksJson(env) && PrintsNumbers(Carried(env, rel, keyOnly, cols))
    ensures forall f <- Carried(env, rel, keyOnly, cols) :: Sendable(f.value)
    decreases |cols|
  {
    if cols == [] {
    } else {
      var front := cols[..|cols| - 1];
      assert forall f <- Carried(env, rel, keyOnly, front) :: f in Carried(env, rel, keyOnly, cols);
      CarriedIsSendable(env, rel, keyOnly, front);
    }
  }

  /** The images an update or delete carries, and a row an insert does. */
  function Images(env: Settings, rel: Relation, m: Message): seq<seq<Field>>
    requires m.InsertMessage? || m.UpdateMessage? || m.DeleteMessage?
  {
    match m
    case InsertMessage(_, cols) => [Carried(env, rel, false, cols)]
    case UpdateMessage(_, before, cols) =>
      (if before.Some? then [Carried(env, rel, before.value.KeyImage?, before.value.cols)] else []) + [Carried(env, rel, false, cols)]
    case DeleteMessage(_, image) => [Carried(env, rel, image.KeyImage?, image.cols)]
  }

  /** The two images of an update, as a row of documents. */
  function ImageFields(before: Option<string>, after: string): seq<Field> {
    (if before.Some? then [Field("old", Document(before.value))] else []) + [Field("new", Document(after))]
  }

  lemma NamedText(name: string, text: string)
    requires IsWord(name)
    ensures FieldText(Field(name, Document(text))) == "\"" + name + "\":" + text
    ensures FieldText(Field(name, Numeric(text))) == "\"" + name + "\":" + text
  {
    PlainEscape(name);
  }

  lemma TwoFields(first: Field, last: Field)
    ensures RowText([first, last]) == "{" + (FieldText(first) + ", " + FieldText(last)) + "}"
    ensures RowText([last]) == "{" + FieldText(last) + "}"
  {
    hide FieldText;
    FieldsTextLast([first], last);
    assert [first] + [last] == [first, last];
  }

  lemma ImagesAreARow(before: Option<string>, after: string)
    ensures ImagesText(before, Some(after)) == RowText(ImageFields(before, after))
  {
    hide FieldText, RowText;
    var last := Field("new", Document(after));
    NamedText("new", after);
    assert "\"" + "new" + "\":" == "\"new\":";
    if before.Some? {
      var first := Field("old", Document(before.value));
      NamedText("old", before.value);
      assert "\"" + "old" + "\":" == "\"old\":";
      TwoFields(first, last);
      assert ImageFields(before, after) == [first, last];
      assert ImagesText(before, Some(after)) == "{" + (FieldText(first) + ", " + FieldText(last)) + "}";
    } else {
      TwoFields(last, last);
      assert ImageFields(before, after) == [last];
      assert ImagesText(before, Some(after)) == "{" + FieldText(last) + "}";
    }
  }

  lemma UpdateIsJsonIff(before: Option<seq<Field>>, after: seq<Field>)
    requires forall f <- after :: Sendable(f.value)
    requires before.Some? ==> forall f <- before.value :: Sendable(f.value)
    ensures var earlier := if before.Some? then Some(RowText(before.value)) else None;
      JsonText.IsJson(ImagesText(earlier, Some(RowText(after)))) <==> !HasSpecial(after) && !(before.Some? && HasSpecial(before.value))
  {
    hide RowText, HasSpecial, ImagesText, JsonText.IsJson, Sendable;
    var earlier := if before.Some? then Some(RowText(before.value)) else None;
    ImagesAreARow(earlier, RowText(after));
    RowIsJsonIff(after);
    if before.Some? { RowIsJsonIff(before.value); }
    var fields := ImageFields(earlier, RowText(after));
    assert Field("new", Document(RowText(after))) in fields;
    assert before.Some? ==> Field("old", Document(RowText(before.value))) in fields;
    assert forall f <- fields :: Sound(f.value) || Spoils(f.value);
    if HasSpecial(after) || (before.Some? && HasSpecial(before.value)) {
      SpoiledRow(fields);
    } else {
      var _ := RowIsTheObject(fields);
    }
  }

  /** The bus takes a decoded row change exactly when no number in the images it
      carries is NaN or infinite; a change with one is refused. */
  lemma ChangeAcceptedIff(env: Settings, st: State, m: Message)
    requires (m.InsertMessage? || m.UpdateMessage? || m.DeleteMessage?) && ChecksJson(env)
    requires Change(env, st, m).Some? && Change(env, st, m).value.typ != Cdc.DDL
    requires forall row <- Images(env, st.relations[m.id], m) :: PrintsNumbers(row)
    ensures BusAccepts(Change(env, st, m).value) <==> forall row <- Images(env, st.relations[m.id], m) :: !HasSpecial(row)
  {
    hide HasSpecial, JsonText.IsJson, PrintsNumbers, Carried, ChecksJson, Sendable;
    var rel := st.relations[m.id];
    var rows := Images(env, rel, m);
    match m {
      case InsertMessage(_, cols) =>
        assert Carried(env, rel, false, cols) == rows[0];
        CarriedIsSendable(env, rel, false, cols);
        RowIsJsonIff(rows[0]);
      case DeleteMessage(_, image) =>
        assert Carried(env, rel, image.KeyImage?, image.cols) == rows[0];
        CarriedIsSendable(env, rel, image.KeyImage?, image.cols);
        RowIsJsonIff(rows[0]);
      case UpdateMessage(_, before, cols) =>
        var after := Carried(env, rel, false, cols);
        assert rows[|rows| - 1] == after;
        CarriedIsSendable(env, rel, false, cols);
        if before.Some? {
          var earlier := Carried(env, rel, before.value.KeyImage?, before.value.cols);
          assert rows[0] == earlier;
          CarriedIsSendable(env, rel, before.value.KeyImage?, before.value.cols);
          UpdateIsJsonIff(Some(earlier), after);
        } else {
          UpdateIsJsonIff(None, after);
        }
    }
  }

  lemma {:induction false} DecHasNoLeadingZero(n: nat)
    ensures n > 0 ==> Dec(n)[0] != '0'
    ensures n == 0 ==> Dec(n) == "0"
  {
    if n < 10 {
    } else {
      DecHasNoLeadingZero(n / 10);
    }
  }

  lemma DecIsNumber(n: nat)
    ensures JsonText.IsNumber(Dec(n))
  {
    DecHasNoLeadingZero(n);
    assert JsonText.IsDigits(Dec(n));
    assert Dec(n) == "" + Dec(n) + "" + "";
  }

  /** The bus takes every TRUNCATE event. */
  lemma TruncateAccepted(rel: Relation, options: nat)
    ensures BusAccepts(TruncateEvent(rel, options))
  {
    hide FieldText, RowText, Dec, JsonText.IsNumber, JsonText.IsJson;
    var f := Field("options", Numeric(Dec(options)));
    DecIsNumber(options);
    NamedText("options", Dec(options));
    assert "\"" + "options" + "\":" == "\"options\":";
    TwoFields(f, f);
    var _ := RowIsTheObject([f]);
    assert TruncateEvent(rel, options).data == "{" + FieldText(f) + "}";
  }
}
