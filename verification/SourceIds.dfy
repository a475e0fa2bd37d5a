/** Names of source changes and the message ids built from them.

    Both listeners name a change by where it sits at its source, so that a
    re-read of the same change carries the same name. The stream drops repeats
    of a message id, so two different changes sharing one id would lose one of
    them: everything here is about that never happening. */
module SourceIds {
  import opened Text

  const LSN_LIMIT: nat := 0x1_0000_0000_0000_0000

  /** What a source id stands for: the four shapes the listeners print. */
  datatype SourceId =
    | PgChange(commitLsn: nat, index: nat)
    | MySqlRow(file: string, position: nat, row: nat)
    | MySqlTxnRow(file: string, position: nat, row: nat)
    | MySqlDdl(file: string, position: nat)
  {
    predicate Valid() {
      PgChange? ==> commitLsn < LSN_LIMIT
    }
  }

  /** A log sequence number prints as its high and low 32-bit halves. */
  function LsnText(lsn: nat): string {
    Hex(lsn / 0x1_0000_0000) + "/" + Hex(lsn % 0x1_0000_0000)
  }

  function PlaceText(file: string, position: nat): string {
    "mysql:" + file + ":" + Dec(position)
  }

  function Print(id: SourceId): string {
    match id
    case PgChange(lsn, index) => "pg:" + LsnText(lsn) + ":" + Dec(index)
    case MySqlRow(file, position, row) => PlaceText(file, position) + ":" + Dec(row)
    case MySqlTxnRow(file, position, row) => PlaceText(file, position) + ":txn:" + Dec(row)
    case MySqlDdl(file, position) => PlaceText(file, position) + ":ddl"
  }

  function MessageId(prefix: string, sourceId: string): string {
    prefix + "/" + sourceId
  }

  /** The four shapes, written out. */
  lemma PgExample()
    ensures Print(PgChange(0x2_016B_3748, 12)) == "pg:2/16B3748:12"
  {
    SmallNumbers();
    hide Dec, Hex;
    assert LsnText(0x2_016B_3748) == "2/16B3748";
  }

  lemma RowExample()
    ensures Print(MySqlRow("bin.1", 500, 3)) == "mysql:bin.1:500:3"
  {
    SmallNumbers();
    hide Dec, Hex;
    assert PlaceText("bin.1", 500) == "mysql:bin.1:500";
  }

  lemma TxnRowExample()
    ensures Print(MySqlTxnRow("bin.1", 197, 4)) == "mysql:bin.1:197:txn:4"
  {
    SmallNumbers();
    hide Dec, Hex;
    assert PlaceText("bin.1", 197) == "mysql:bin.1:197";
  }

  lemma DdlExample()
    ensures Print(MySqlDdl("bin.1", 360)) == "mysql:bin.1:360:ddl"
  {
    SmallNumbers();
    hide Dec, Hex;
    assert PlaceText("bin.1", 360) == "mysql:bin.1:360";
  }

  lemma SmallNumbers()
    ensures Hex(2) == "2" && Hex(0x16B3748) == "16B3748"
    ensures Dec(3) == "3" && Dec(4) == "4" && Dec(12) == "12" && Dec(197) == "197" && Dec(360) == "360" && Dec(500) == "500"
  {
    HexOf16B3748();
  }

  lemma HexOf16B3748()
    ensures Hex(0x16B3748) == "16B3748"
  {
    assert Hex(0x16B) == "16B";
    assert Hex(0x16B3) == "16B3";
    assert Hex(0x16B37) == "16B37";
    assert Hex(0x16B374) == "16B374";
  }

  lemma LsnTextInjective(a: nat, b: nat, before: string, before': string)
    requires before + LsnText(a) == before' + LsnText(b)
    ensures a % 0x1_0000_0000 == b % 0x1_0000_0000
    ensures before + Hex(a / 0x1_0000_0000) == before' + Hex(b / 0x1_0000_0000)
  {
    var hiA, loA := Hex(a / 0x1_0000_0000), Hex(a % 0x1_0000_0000);
    var hiB, loB := Hex(b / 0x1_0000_0000), Hex(b % 0x1_0000_0000);
    assert before + LsnText(a) == (before + hiA) + ['/'] + loA;
    assert before' + LsnText(b) == (before' + hiB) + ['/'] + loB;
    CutAtLast(before + hiA, loA, before' + hiB, loB, '/');
    HexInjective(a % 0x1_0000_0000, b % 0x1_0000_0000);
  }

  lemma PlaceTextInjective(file: string, position: nat, file': string, position': nat)
    requires PlaceText(file, position) == PlaceText(file', position')
    ensures file == file' && position == position'
  {
    assert PlaceText(file, position) == ("mysql:" + file) + [':'] + Dec(position);
    assert PlaceText(file', position') == ("mysql:" + file') + [':'] + Dec(position');
    CutAtLast("mysql:" + file, Dec(position), "mysql:" + file', Dec(position'), ':');
    DecInjective(position, position');
    assert file == ("mysql:" + file)[6..] && file' == ("mysql:" + file')[6..];
  }

  lemma PgMessageIdText(prefix: string, lsn: nat, index: nat)
    requires lsn < LSN_LIMIT
    ensures MessageId(prefix, Print(PgChange(lsn, index))) == ((prefix + "/pg:") + LsnText(lsn)) + [':'] + Dec(index)
  {
    hide Dec, LsnText;
    assert MessageId(prefix, Print(PgChange(lsn, index))) == ((prefix + "/pg:") + LsnText(lsn)) + [':'] + Dec(index);
  }

  /** What comes before the index names the prefix and the transaction. */
  lemma PgHeadInjective(prefix: string, lsn: nat, prefix': string, lsn': nat)
    requires lsn < LSN_LIMIT && lsn' < LSN_LIMIT
    requires (prefix + "/pg:") + LsnText(lsn) == (prefix' + "/pg:") + LsnText(lsn')
    ensures prefix == prefix' && lsn == lsn'
  {
    var head, head' := prefix + "/pg:", prefix' + "/pg:";
    LsnTextInjective(lsn, lsn', head, head');
    hide LsnText;
    var hi, hi' := Hex(lsn / 0x1_0000_0000), Hex(lsn' / 0x1_0000_0000);
    assert head + hi == (prefix + "/pg") + [':'] + hi && head' + hi' == (prefix' + "/pg") + [':'] + hi';
    CutAtLast(prefix + "/pg", hi, prefix' + "/pg", hi', ':');
    HexInjective(lsn / 0x1_0000_0000, lsn' / 0x1_0000_0000);
    assert prefix == (prefix + "/pg")[..|prefix + "/pg"| - 3];
    assert prefix' == (prefix' + "/pg")[..|prefix' + "/pg"| - 3];
  }

  /** Postgres ids never collide, whatever the subject prefixes contain: the id
      determines the prefix, the transaction and the index within it. */
  lemma PgMessageIdInjective(prefix: string, lsn: nat, index: nat,
                             prefix': string, lsn': nat, index': nat)
    requires lsn < LSN_LIMIT && lsn' < LSN_LIMIT
    requires MessageId(prefix, Print(PgChange(lsn, index)))
          == MessageId(prefix', Print(PgChange(lsn', index')))
    ensures prefix == prefix' && lsn == lsn' && index == index'
  {
    PgMessageIdText(prefix, lsn, index);
    PgMessageIdText(prefix', lsn', index');
    hide MessageId, Print, LsnText, Dec;
    CutAtLast((prefix + "/pg:") + LsnText(lsn), Dec(index), (prefix' + "/pg:") + LsnText(lsn'), Dec(index'), ':');
    DecInjective(index, index');
    PgHeadInjective(prefix, lsn, prefix', lsn');
  }

  /** The last field of each shape: a number, or the word ddl. */
  function Tail(id: SourceId): (s: string)
    ensures ':' !in s
  {
    match id
    case PgChange(_, index) => Dec(index)
    case MySqlRow(_, _, row) => Dec(row)
    case MySqlTxnRow(_, _, row) => Dec(row)
    case MySqlDdl(_, _) => "ddl"
  }

  function Head(id: SourceId): string {
    match id
    case PgChange(lsn, _) => "pg:" + LsnText(lsn)
    case MySqlRow(file, position, _) => PlaceText(file, position)
    case MySqlTxnRow(file, position, _) => PlaceText(file, position) + ":txn"
    case MySqlDdl(file, position) => PlaceText(file, position)
  }

  lemma PrintHeadTail(id: SourceId)
    ensures Print(id) == Head(id) + [':'] + Tail(id)
  {
  }

  lemma NumberIsNotWord(n: nat, word: string)
    requires |word| > 0 && 'a' <= word[0] <= 'z'
    ensures Dec(n) != word
  {
    assert Dec(n)[0] in Dec(n);
  }

  lemma RowHeadIsNotTxnHead(a: SourceId, b: SourceId)
    requires a.MySqlRow? && b.MySqlTxnRow?
    ensures Head(a) != Head(b)
  {
    if Head(a) == Head(b) {
      assert Head(a) == ("mysql:" + a.file) + [':'] + Dec(a.position);
      assert Head(b) == PlaceText(b.file, b.position) + [':'] + "txn";
      NumberIsNotWord(a.position, "txn");
      CutAtLast("mysql:" + a.file, Dec(a.position), PlaceText(b.file, b.position), "txn", ':');
    }
  }

  lemma TxnHeadInjective(a: SourceId, b: SourceId)
    requires a.MySqlTxnRow? && b.MySqlTxnRow? && Head(a) == Head(b)
    ensures a.file == b.file && a.position == b.position
  {
    var p, q := PlaceText(a.file, a.position), PlaceText(b.file, b.position);
    assert p == (p + ":txn")[..|p + ":txn"| - 4] && q == (q + ":txn")[..|q + ":txn"| - 4];
    PlaceTextInjective(a.file, a.position, b.file, b.position);
  }

  lemma PgSourceIdInjective(a: SourceId, b: SourceId)
    requires a.PgChange? && b.PgChange? && a.Valid() && b.Valid() && Print(a) == Print(b)
    ensures a == b
  {
    assert MessageId("", Print(a)) == MessageId("", Print(b));
    PgMessageIdInjective("", a.commitLsn, a.index, "", b.commitLsn, b.index);
  }

  lemma PgAndMySqlDiffer(a: SourceId, b: SourceId)
    requires a.PgChange? && !b.PgChange?
    ensures Print(a) != Print(b)
  {
    assert Print(a)[0] == 'p' && Print(b)[0] == 'm';
  }

  /** One printed id, one source change: across multi-row events, compressed
      transactions, DDL and both databases, for any binlog file names. */
  lemma SourceIdInjective(a: SourceId, b: SourceId)
    requires a.Valid() && b.Valid()
    requires Print(a) == Print(b)
    ensures a == b
  {
    if a.PgChange? && b.PgChange? {
      PgSourceIdInjective(a, b);
    } else if a.PgChange? {
      PgAndMySqlDiffer(a, b);
    } else if b.PgChange? {
      PgAndMySqlDiffer(b, a);
    } else {
      PrintHeadTail(a);
      PrintHeadTail(b);
      CutAtLast(Head(a), Tail(a), Head(b), Tail(b), ':');
      MySqlHeadTailInjective(a, b);
    }
  }

  lemma MySqlHeadTailInjective(a: SourceId, b: SourceId)
    requires !a.PgChange? && !b.PgChange?
    requires Head(a) == Head(b) && Tail(a) == Tail(b)
    ensures a == b
  {
    if a.MySqlDdl? && !b.MySqlDdl? {
      NumberIsNotWord(b.row, "ddl");
    } else if !a.MySqlDdl? && b.MySqlDdl? {
      NumberIsNotWord(a.row, "ddl");
    } else if a.MySqlRow? && b.MySqlTxnRow? {
      RowHeadIsNotTxnHead(a, b);
    } else if a.MySqlTxnRow? && b.MySqlRow? {
      RowHeadIsNotTxnHead(b, a);
    } else {
      if a.MySqlTxnRow? {
        TxnHeadInjective(a, b);
      } else {
        PlaceTextInjective(a.file, a.position, b.file, b.position);
      }
      if !a.MySqlDdl? {
        DecInjective(a.row, b.row);
      }
    }
  }

  /** Tenants sharing one stream: with subject prefixes free of "/", message ids
      of different tenants or different changes never meet. */
  lemma MessageIdInjective(prefix: string, a: SourceId, prefix': string, b: SourceId)
    requires '/' !in prefix && '/' !in prefix'
    requires a.Valid() && b.Valid()
    requires MessageId(prefix, Print(a)) == MessageId(prefix', Print(b))
    ensures prefix == prefix' && a == b
  {
    assert MessageId(prefix, Print(a)) == prefix + ['/'] + Print(a);
    assert MessageId(prefix', Print(b)) == prefix' + ['/'] + Print(b);
    CutAtFirst(prefix, Print(a), prefix', Print(b), '/');
    SourceIdInjective(a, b);
  }
}
