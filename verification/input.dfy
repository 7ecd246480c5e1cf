/** Schema resolution: the user's partial column options, reconciled with the CSV header row
    and column count, become one complete column definition per column. */
module Input {
  import opened Wrappers
  import opened JsonValue
  import opened ColumnDefs
  import opened Decimal

  const FALLBACK_DATE_FORMAT := "%d/%m/%Y"
  const DEFAULT_TRUE_STRING := "true"
  const DEFAULT_FALSE_STRING := "false"

  /** The options that column `i` is resolved from once the config has been padded or
      truncated to the column count: the user's entry when there is one, and an entry with
      every field absent when the config is too short. */
  function OptionsAt(config: seq<ColumnDefOptions>, i: nat): (o: ColumnDefOptions)
    ensures i < |config| ==> o == config[i]
    ensures i >= |config| ==> o == ColumnDefOptions.Default()
  {
    if i < |config| then config[i] else ColumnDefOptions.Default()
  }

  /** `c` is what column `i` resolves to from options `o` and the header row:
      - the name is the option's name, else the header of column i, else i in decimal;
      - the type is the option's type, else String; the default is the option's, else null;
      - the format is the option's only for a Date column that gave one, else "%d/%m/%Y";
      - the true/false tokens are the option's only for a Bool column, else "true"/"false". */
  predicate Resolves(c: ColumnDef, i: nat, o: ColumnDefOptions, headers: seq<string>)
  {
    && c.colName == (if o.colName.Some? then o.colName.value
                     else if i < |headers| then headers[i]
                     else ShowNat(i))
    && c.colType == o.colType.GetOr(DefaultColType())
    && c.colDefault == o.colDefault.GetOr(Null)
    && c.colFormat == (if c.colType.Date? && o.colFormat.Some? then o.colFormat.value
                       else FALLBACK_DATE_FORMAT)
    && c.colTrueString == (if c.colType.Bool? && o.colTrueString.Some? then o.colTrueString.value
                           else DEFAULT_TRUE_STRING)
    && c.colFalseString == (if c.colType.Bool? && o.colFalseString.Some? then o.colFalseString.value
                            else DEFAULT_FALSE_STRING)
  }

  /** The rules leave nothing open: column i's definition is a function of its own options,
      its header and i. */
  lemma ResolvesUnique(c1: ColumnDef, c2: ColumnDef, i: nat, o: ColumnDefOptions, headers: seq<string>)
    requires Resolves(c1, i, o, headers) && Resolves(c2, i, o, headers)
    ensures c1 == c2
  {
  }

  /** A column whose options are all absent (a padded column) gets every default: type
      String, a null default, the fallback format and tokens, and its header or its index
      as name. */
  lemma PaddedColumnDefaults(c: ColumnDef, i: nat, headers: seq<string>)
    requires Resolves(c, i, ColumnDefOptions.Default(), headers)
    ensures c.colType.String? && c.colDefault.Null?
    ensures c.colName == (if i < |headers| then headers[i] else ShowNat(i))
    ensures c.colFormat == FALLBACK_DATE_FORMAT
    ensures c.colTrueString == DEFAULT_TRUE_STRING && c.colFalseString == DEFAULT_FALSE_STRING
  {
  }

  /** The body of `fill_schema_defaults`' loop: column `i` from its options `col`, each field
      starting at its fallback and overwritten by what the options or the header give. */
  method ResolveColumn(i: nat, col: ColumnDefOptions, headers: seq<string>) returns (def: ColumnDef)
    ensures Resolves(def, i, col, headers)
  {
    var name := ShowNat(i);
    if col.colName.Some? {
      name := col.colName.value;
    } else if i < |headers| {
      name := headers[i];
    }

    var colType := ColType.String;
    if col.colType.Some? {
      colType := col.colType.value;
    }

    var default := Null;
    if col.colDefault.Some? {
      default := col.colDefault.value;
    }

    var format := FALLBACK_DATE_FORMAT;
    if colType.Date? {
      if col.colFormat.Some? {
        format := col.colFormat.value;
      }
    }

    var trueString := DEFAULT_TRUE_STRING;
    var falseString := DEFAULT_FALSE_STRING;
    if colType.Bool? {
      if col.colTrueString.Some? {
        trueString := col.colTrueString.value;
      }
      if col.colFalseString.Some? {
        falseString := col.colFalseString.value;
      }
    }

    def := ColumnDef(colType, name, format, trueString, falseString, default);
  }

  /** `fill_schema_defaults`: pads the config with all-absent entries, or truncates it, to
      exactly `requiredLen` entries, then resolves each column in order. */
  method FillSchemaDefaults(config: seq<ColumnDefOptions>, headers: seq<string>, requiredLen: nat)
    returns (res: seq<ColumnDef>)
    ensures |res| == requiredLen
    ensures forall i :: 0 <= i < requiredLen ==> Resolves(res[i], i, OptionsAt(config, i), headers)
    ensures forall i :: |config| <= i < requiredLen ==>
      && res[i].colType.String? && res[i].colDefault.Null?
      && res[i].colName == (if i < |headers| then headers[i] else ShowNat(i))
      && res[i].colFormat == FALLBACK_DATE_FORMAT
      && res[i].colTrueString == DEFAULT_TRUE_STRING && res[i].colFalseString == DEFAULT_FALSE_STRING
  {
    var inputConfig := config;
    var configLen := |inputConfig|;
    if configLen < requiredLen {
      for k := 0 to requiredLen - configLen
        invariant |inputConfig| == configLen + k
        invariant forall j :: 0 <= j < |inputConfig| ==> inputConfig[j] == OptionsAt(config, j)
      {
        inputConfig := inputConfig + [ColumnDefOptions.Default()];
      }
    } else if configLen > requiredLen {
      inputConfig := inputConfig[..requiredLen];
    }

    res := [];
    for i := 0 to |inputConfig|
      invariant |inputConfig| == requiredLen
      invariant forall j :: 0 <= j < |inputConfig| ==> inputConfig[j] == OptionsAt(config, j)
      invariant |res| == i
      invariant forall j :: 0 <= j < i ==> Resolves(res[j], j, OptionsAt(config, j), headers)
    {
      var def := ResolveColumn(i, inputConfig[i], headers);
      res := res + [def];
    }
    forall i | |config| <= i < requiredLen
      ensures res[i].colType.String? && res[i].colDefault.Null?
      ensures res[i].colName == (if i < |headers| then headers[i] else ShowNat(i))
      ensures res[i].colFormat == FALLBACK_DATE_FORMAT
      ensures res[i].colTrueString == DEFAULT_TRUE_STRING && res[i].colFalseString == DEFAULT_FALSE_STRING
    {
      PaddedColumnDefaults(res[i], i, headers);
    }
  }
}
