/** Change events and the shortened forms of one that is too large to publish. */
module Cdc {

  datatype EventType = Begin | Commit | Insert | Update | Delete | DDL | Truncate | Heartbeat

  predicate IsPublishable(t: EventType) {
    t == Insert || t == Update || t == Delete || t == DDL || t == Truncate
  }

  /** What marks the ends of a transaction, or that the watcher is alive. */
  predicate IsMark(t: EventType) {
    t == Begin || t == Commit || t == Heartbeat
  }

  predicate IsTableEvent(t: EventType) {
    t == Insert || t == Update || t == Delete || t == Truncate
  }

  datatype Json = Null | Atom(text: string) | Object(fields: map<string, Json>)

  /** The data field: absent, a parsed document, or text that is no document
      (a statement, say). */
  datatype Data = NoData | Text(text: string) | Doc(json: Json)

  datatype Event = Event(typ: EventType, schema: string, table: string, data: Data,
                         sourceId: string, sequence: nat, truncated: bool, keyColumns: seq<string>)
  {
    function Stripped(): Event {
      this.(data := NoData, truncated := true)
    }

    function Truncated(): Event {
      if IsTableEvent(typ) then Stripped().(data := Doc(Object(KeyOnly(typ, data, keyColumns)))) else Stripped()
    }
  }

  function KeyColumns(row: map<string, Json>, key: seq<string>): map<string, Json> {
    map c | c in row && c in key :: row[c]
  }

  /** The document's fields; a null document reads as an empty row. */
  function Fields(data: Data): map<string, Json> {
    if data.Doc? && data.json.Object? then data.json.fields else map[]
  }

  const IMAGES := ["old", "new"]

  predicate HasImage(row: map<string, Json>, image: string) {
    image in row && row[image].Object?
  }

  function ImageKeys(row: map<string, Json>, key: seq<string>): map<string, Json> {
    map image | image in row && image in IMAGES && HasImage(row, image) :: Object(KeyColumns(row[image].fields, key))
  }

  function KeyOnly(typ: EventType, data: Data, key: seq<string>): map<string, Json> {
    var row := Fields(data);
    if typ != Update then KeyColumns(row, key) else ImageKeys(row, key)
  }

  // The loops that compute them

  method KeepKeyColumns(row: map<string, Json>, key: seq<string>) returns (kept: map<string, Json>)
    ensures kept == KeyColumns(row, key)
  {
    kept := map[];
    var rest := row.Keys;
    while rest != {}
      invariant rest <= row.Keys
      invariant kept == map c | c in row && c in key && c !in rest :: row[c]
      decreases |rest|
    {
      var column :| column in rest;
      if column in key {
        kept := kept[column := row[column]];
      }
      rest := rest - {column};
    }
  }

  method KeepKeyOnly(typ: EventType, data: Data, key: seq<string>) returns (kept: map<string, Json>)
    ensures kept == KeyOnly(typ, data, key)
  {
    var row := Fields(data);
    if typ != Update {
      kept := KeepKeyColumns(row, key);
      return;
    }
    kept := map[];
    for i := 0 to |IMAGES|
      invariant kept == map image | image in row && image in IMAGES[..i] && HasImage(row, image) ::
        Object(KeyColumns(row[image].fields, key))
    {
      var image := IMAGES[i];
      assert IMAGES[..i + 1] == IMAGES[..i] + [image];
      if HasImage(row, image) {
        var values := KeepKeyColumns(row[image].fields, key);
        kept := kept[image := Object(values)];
      }
    }
    assert IMAGES[..|IMAGES|] == IMAGES;
  }

  // ---------------------------------------------------------------------------
  // What the shortened forms keep

  /** The key-only form of a row event is an object. Of a row it keeps exactly the
      key columns, with their values; of an update exactly the images "old" and
      "new" that are objects, each with exactly its key columns; of anything
      that is no object, nothing. */
  lemma TruncatedKeepsExactlyTheKey(e: Event, column: string)
    requires IsTableEvent(e.typ)
    ensures e.Truncated().data.Doc? && e.Truncated().data.json.Object?
    ensures var short := e.Truncated().data.json.fields;
      if !(e.data.Doc? && e.data.json.Object?) then short == map[]
      else
        var row := e.data.json.fields;
        && (e.typ != Update ==>
             && (column in short <==> column in row && column in e.keyColumns)
             && (column in short ==> short[column] == row[column]))
        && (e.typ == Update ==> forall image :: image in short <==> (image == "old" || image == "new") && image in row && row[image].Object?)
        && (e.typ == Update ==> forall image :: image in short ==>
             && short[image].Object?
             && (column in short[image].fields <==> column in row[image].fields && column in e.keyColumns)
             && (column in short[image].fields ==> short[image].fields[column] == row[image].fields[column]))
  {
  }

  /** Row events are the changes of rows and the truncation of a table; the
      other shortened events carry no data. */
  lemma OnlyRowsKeepAKey(e: Event)
    ensures IsTableEvent(e.typ) <==> !IsMark(e.typ) && e.typ != DDL
    ensures IsPublishable(e.typ) <==> !IsMark(e.typ)
    ensures !IsTableEvent(e.typ) ==> e.Truncated().data == NoData
  {
  }

  /** Shortening changes nothing that identifies or places the event, and the
      key-only form of a key-only form is itself. */
  lemma ShorteningKeepsIdentity(e: Event)
    ensures e.Truncated() == e.(data := e.Truncated().data, truncated := true)
    ensures e.Stripped() == e.(data := NoData, truncated := true)
    ensures e.Truncated().Truncated() == e.Truncated()
    ensures e.Truncated().Stripped() == e.Stripped() == e.Stripped().Stripped()
  {
    if IsTableEvent(e.typ) {
      var once := KeyOnly(e.typ, e.data, e.keyColumns);
      var twice := KeyOnly(e.typ, Doc(Object(once)), e.keyColumns);
      if e.typ == Update {
        forall image | image in once ensures image in twice && twice[image] == once[image] {
          var fields := once[image].fields;
          assert KeyColumns(fields, e.keyColumns) == fields;
        }
      }
      assert once == twice;
    }
  }
}
