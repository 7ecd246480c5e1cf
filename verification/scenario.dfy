/** The converter end to end on one row: resolve a schema from a partial config and a header
    row, then assemble the row object. */
module Scenario {
  import opened Wrappers
  import opened JsonValue
  import opened ColumnDefs
  import opened Decimal
  import opened Parse
  import opened Input

  const HEADERS: seq<string> := ["id", "age", "active", "joined"]

  /** Nothing for id, an Integer with default 0, a Bool, and a Date in "%Y-%m-%d". */
  const CONFIG: seq<ColumnDefOptions> := [
    ColumnDefOptions.Default(),
    ColumnDefOptions.Default().(colType := Some(Integer), colDefault := Some(Int(0))),
    ColumnDefOptions.Default().(colType := Some(ColType.Bool)),
    ColumnDefOptions.Default().(colType := Some(Date), colFormat := Some("%Y-%m-%d"))]

  /** The schema the sample config resolves to against the headers. */
  const SAMPLE_SCHEMA: seq<ColumnDef> := [
    ColumnDef(ColType.String, "id", FALLBACK_DATE_FORMAT, "true", "false", Null),
    ColumnDef(Integer, "age", FALLBACK_DATE_FORMAT, "true", "false", Int(0)),
    ColumnDef(ColType.Bool, "active", FALLBACK_DATE_FORMAT, "true", "false", Null),
    ColumnDef(Date, "joined", "%Y-%m-%d", "true", "false", Null)]

  const ROW: seq<string> := ["7", "notanumber", "true", "2020-01-15"]

  /** Resolving the sample config: names come from the headers, absent types are String,
      absent defaults null, and only the Date column keeps its format. */
  method ResolveSampleSchema() returns (schema: seq<ColumnDef>)
    ensures schema == SAMPLE_SCHEMA
  {
    schema := FillSchemaDefaults(CONFIG, HEADERS, 4);
    assert OptionsAt(CONFIG, 0) == CONFIG[0] && OptionsAt(CONFIG, 1) == CONFIG[1];
    assert OptionsAt(CONFIG, 2) == CONFIG[2] && OptionsAt(CONFIG, 3) == CONFIG[3];
    ResolvesUnique(schema[0], SAMPLE_SCHEMA[0], 0, CONFIG[0], HEADERS);
    ResolvesUnique(schema[1], SAMPLE_SCHEMA[1], 1, CONFIG[1], HEADERS);
    ResolvesUnique(schema[2], SAMPLE_SCHEMA[2], 2, CONFIG[2], HEADERS);
    ResolvesUnique(schema[3], SAMPLE_SCHEMA[3], 3, CONFIG[3], HEADERS);
  }

  /** The row "7", "notanumber", "true", "2020-01-15" becomes {"id": "7", "age": 0,
      "active": true, "joined": <the date's timestamp>}: the unparsable age falls back to
      its default. The timestamp is the one value assumed here: the date parser is an input,
      and the requires fixes what it returns for the sample date. */
  method ConvertSampleRow(p: Parsers) returns (r: Json)
    requires p.parseDate("2020-01-15", "%Y-%m-%d") == Success(1579046400)
    ensures r == Object(map[
      "id" := Str("7"),
      "age" := Int(0),
      "active" := Json.Bool(true),
      "joined" := Int(1579046400)])
  {
    var schema := ResolveSampleSchema();
    r := ParseRow(p, schema, ROW);
    SampleRowObject(p, schema, ROW, r);
  }

  /** What parse_row's contract pins down for the sample schema and row. */
  lemma SampleRowObject(p: Parsers, schema: seq<ColumnDef>, row: seq<string>, r: Json)
    requires p.parseDate("2020-01-15", "%Y-%m-%d") == Success(1579046400)
    requires schema == SAMPLE_SCHEMA
    requires row == ROW
    requires r.Object?
    requires r.fields.Keys == set i | 0 <= i < |row| :: schema[i].colName
    requires forall i :: 0 <= i < |row| && LastWithName(schema, |row|, i) ==>
      r.fields[schema[i].colName] == ParseValue(p, schema[i], row[i])
    ensures r == Object(map[
      "id" := Str("7"),
      "age" := Int(0),
      "active" := Json.Bool(true),
      "joined" := Int(1579046400)])
  {
    SampleKeys(schema, row);
    SampleValues(p, schema, row, r.fields);
    MapOfFour(r.fields, Str("7"), Int(0), Json.Bool(true), Int(1579046400));
  }

  /** Each sample column is the last to carry its name, so its key holds its cell's value. */
  lemma SampleValues(p: Parsers, schema: seq<ColumnDef>, row: seq<string>, fields: map<string, Json>)
    requires p.parseDate("2020-01-15", "%Y-%m-%d") == Success(1579046400)
    requires schema == SAMPLE_SCHEMA
    requires row == ROW
    requires forall i :: 0 <= i < |row| && LastWithName(schema, |row|, i) ==>
      schema[i].colName in fields && fields[schema[i].colName] == ParseValue(p, schema[i], row[i])
    ensures "id" in fields && fields["id"] == Str("7")
    ensures "age" in fields && fields["age"] == Int(0)
    ensures "active" in fields && fields["active"] == Json.Bool(true)
    ensures "joined" in fields && fields["joined"] == Int(1579046400)
  {
    SampleCells(p, schema);
    assert LastWithName(schema, 4, 0) && LastWithName(schema, 4, 1);
    assert LastWithName(schema, 4, 2) && LastWithName(schema, 4, 3);
  }

  /** A map with exactly the four sample keys is the map display of its four values. */
  lemma MapOfFour(fields: map<string, Json>, a: Json, b: Json, c: Json, d: Json)
    requires fields.Keys == {"id", "age", "active", "joined"}
    requires fields["id"] == a && fields["age"] == b
    requires fields["active"] == c && fields["joined"] == d
    ensures fields == map["id" := a, "age" := b, "active" := c, "joined" := d]
  {
  }

  /** The sample columns' names, as a key set. */
  lemma SampleKeys(schema: seq<ColumnDef>, row: seq<string>)
    requires |schema| == 4 && |row| == 4
    requires schema[0].colName == "id" && schema[1].colName == "age"
    requires schema[2].colName == "active" && schema[3].colName == "joined"
    ensures (set i | 0 <= i < |row| :: schema[i].colName) == {"id", "age", "active", "joined"}
  {
    var keys := set i | 0 <= i < |row| :: schema[i].colName;
    forall k | k in keys ensures k in {"id", "age", "active", "joined"} {
      var i :| 0 <= i < 4 && schema[i].colName == k;
      assert i == 0 || i == 1 || i == 2 || i == 3;
    }
    assert schema[0].colName in keys && schema[1].colName in keys;
    assert schema[2].colName in keys && schema[3].colName in keys;
  }

  /** The sample cells, each by its column's rule. */
  lemma SampleCells(p: Parsers, schema: seq<ColumnDef>)
    requires p.parseDate("2020-01-15", "%Y-%m-%d") == Success(1579046400)
    requires schema == SAMPLE_SCHEMA
    ensures ParseValue(p, schema[0], ROW[0]) == Str("7")
    ensures ParseValue(p, schema[1], ROW[1]) == Int(0)
    ensures ParseValue(p, schema[2], ROW[2]) == Json.Bool(true)
    ensures ParseValue(p, schema[3], ROW[3]) == Int(1579046400)
  {
    IntegerWithoutDigitsIsDefault(p, schema[1], ROW[1]);
    BoolCell(p, schema[2], ROW[2]);
    DateCell(p, schema[3], ROW[3]);
  }
}
