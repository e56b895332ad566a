/**
 The history digest of `_validate` (memory/preparation.py): every row, in id order, is encoded
 and fed to the hash behind an eight-byte big-endian length.  The hash itself is taken to be
 injective, so a digest is represented by the byte stream that is hashed.
 */
module RowDigest {

  type Byte = b: int | 0 <= b < 256

  const LENGTH_BYTES: nat := 8

  /** One column value of a row with its SQLite storage class. */
  datatype Cell = Cell(storage: string, text: string)

  type Row = seq<Cell>

  datatype Schema = Schema13 | Schema14

  /** A validated `knowledge_records` table: its rows in id order. */
  datatype Table = Table(schema: Schema, rows: seq<Row>)

  datatype History = History(schema: Schema, count: nat, digest: seq<Byte>)

  /** The literal SQL default of the fourteenth column, `source_artifacts`. */
  const DEFAULT_ARTIFACTS := Cell("text", "[]")

  function Pow256(n: nat): (r: nat)
    ensures r > 0
  {
    if n == 0 then 1 else 256 * Pow256(n - 1)
  }

  function BigEndian(value: nat, width: nat): (r: seq<Byte>)
    ensures |r| == width
  {
    if width == 0 then [] else BigEndian(value / 256, width - 1) + [value % 256]
  }

  function FromBigEndian(bytes: seq<Byte>): nat {
    if bytes == [] then 0 else 256 * FromBigEndian(bytes[..|bytes| - 1]) + bytes[|bytes| - 1]
  }

  lemma {:induction false} BigEndianRoundTrip(value: nat, width: nat)
    requires value < Pow256(width)
    ensures FromBigEndian(BigEndian(value, width)) == value
  {
    if width > 0 {
      BigEndianRoundTrip(value / 256, width - 1);
      var bytes := BigEndian(value, width);
      assert bytes[..|bytes| - 1] == BigEndian(value / 256, width - 1);
    }
  }

  lemma EightBytes()
    ensures Pow256(8) == 0x1_0000_0000_0000_0000
  {
    assert Pow256(2) == 0x1_0000;
    assert Pow256(4) == 0x1_0000_0000;
    assert Pow256(6) == 0x1_0000_0000_0000;
  }

  /** A payload the eight-byte length prefix can describe. */
  predicate Framable(payload: seq<Byte>) {
    |payload| < 0x1_0000_0000_0000_0000
  }

  function Frame(payload: seq<Byte>): seq<Byte> {
    BigEndian(|payload|, LENGTH_BYTES) + payload
  }

  /** The bytes fed to the hash for a sequence of encoded rows. */
  function Stream(payloads: seq<seq<Byte>>): seq<Byte> {
    if payloads == [] then [] else Frame(payloads[0]) + Stream(payloads[1..])
  }

  /** Length prefixes make the concatenation unambiguous, whatever the rows contain. */
  lemma {:induction false} StreamInjective(a: seq<seq<Byte>>, b: seq<seq<Byte>>)
    requires forall x :: x in a ==> Framable(x)
    requires forall x :: x in b ==> Framable(x)
    requires Stream(a) == Stream(b)
    ensures a == b
  {
    if a != [] && b != [] {
      assert a[0] in a && b[0] in b;
      EightBytes();
      var s := Stream(a);
      assert s[..LENGTH_BYTES] == BigEndian(|a[0]|, LENGTH_BYTES);
      assert s[..LENGTH_BYTES] == BigEndian(|b[0]|, LENGTH_BYTES);
      BigEndianRoundTrip(|a[0]|, LENGTH_BYTES);
      BigEndianRoundTrip(|b[0]|, LENGTH_BYTES);
      var end := LENGTH_BYTES + |a[0]|;
      assert s[LENGTH_BYTES..end] == a[0];
      assert s[LENGTH_BYTES..end] == b[0];
      assert s[end..] == Stream(a[1..]);
      assert s[end..] == Stream(b[1..]);
      StreamInjective(a[1..], b[1..]);
      assert a == [a[0]] + a[1..];
      assert b == [b[0]] + b[1..];
    }
  }

  /** A row as it is digested: a thirteen-column row gets the literal default appended. */
  function NormalRow(schema: Schema, row: Row): Row {
    if schema == Schema13 then row + [DEFAULT_ARTIFACTS] else row
  }

  function NormalRows(table: Table): (r: seq<Row>)
    ensures |r| == |table.rows|
  {
    seq(|table.rows|, i requires 0 <= i < |table.rows| => NormalRow(table.schema, table.rows[i]))
  }

  function Encoded(json: Row -> seq<Byte>, rows: seq<Row>): (r: seq<seq<Byte>>)
    ensures |r| == |rows|
  {
    seq(|rows|, i requires 0 <= i < |rows| => json(rows[i]))
  }

  function HistoryOf(json: Row -> seq<Byte>, table: Table): History {
    History(table.schema, |table.rows|, Stream(Encoded(json, NormalRows(table))))
  }

  ghost predicate Injective(json: Row -> seq<Byte>) {
    forall a, b :: json(a) == json(b) ==> a == b
  }

  ghost predicate RowsFramable(json: Row -> seq<Byte>, table: Table) {
    forall x :: x in Encoded(json, NormalRows(table)) ==> Framable(x)
  }

  /** Two tables with one digest hold the same rows, column for column, up to the schema default. */
  lemma EqualDigestsEqualRows(json: Row -> seq<Byte>, a: Table, b: Table)
    requires Injective(json)
    requires RowsFramable(json, a) && RowsFramable(json, b)
    requires HistoryOf(json, a).digest == HistoryOf(json, b).digest
    ensures NormalRows(a) == NormalRows(b)
  {
    var x, y := NormalRows(a), NormalRows(b);
    StreamInjective(Encoded(json, x), Encoded(json, y));
    assert |Encoded(json, x)| == |Encoded(json, y)|;
    forall i | 0 <= i < |x| ensures x[i] == y[i] {
      assert Encoded(json, x)[i] == Encoded(json, y)[i];
    }
  }

  /** ALTER TABLE ... ADD COLUMN source_artifacts TEXT NOT NULL DEFAULT '[]' */
  function AddArtifactsColumn(table: Table): Table {
    Table(Schema14, seq(|table.rows|, i requires 0 <= i < |table.rows| => table.rows[i] + [DEFAULT_ARTIFACTS]))
  }

  /** The 13-to-14 column upgrade keeps every digested row, so it keeps count and digest. */
  lemma UpgradeKeepsHistory(json: Row -> seq<Byte>, table: Table)
    requires table.schema == Schema13
    ensures HistoryOf(json, AddArtifactsColumn(table)) == HistoryOf(json, table).(schema := Schema14)
  {
    assert NormalRows(AddArtifactsColumn(table)) == NormalRows(table);
  }
}
