/** Column types, resolved column definitions and the user's partial column options. */
module ColumnDefs {
  import opened Wrappers
  import opened JsonValue

  /** The type a column's cells are converted to. */
  datatype ColType = String | Integer | Float | Date | Bool {

    /** The lowercase tag that names this type in a config file. */
    function Tag(): (tag: string)
      ensures |tag| > 0
      ensures forall i :: 0 <= i < |tag| ==> 'a' <= tag[i] <= 'z'
    {
      match this
      case String => "string"
      case Integer => "integer"
      case Float => "float"
      case Date => "date"
      case Bool => "bool"
    }
  }

  /** `ColType::default()`. */
  function DefaultColType(): (t: ColType)
    ensures t.String?
  {
    String
  }

  /** Decodes a config `type` tag: exactly the five lowercase names, anything else fails. */
  function DecodeColType(tag: string): (r: Option<ColType>)
    ensures r.Some? ==> r.value.Tag() == tag
  {
    if tag == "string" then Some(String)
    else if tag == "integer" then Some(Integer)
    else if tag == "float" then Some(ColType.Float)
    else if tag == "date" then Some(Date)
    else if tag == "bool" then Some(ColType.Bool)
    else None
  }

  /** Decoding a type's own tag gives the type back. */
  lemma DecodeTag(t: ColType)
    ensures DecodeColType(t.Tag()) == Some(t)
  {
  }

  /** A tag decodes exactly when it is one of the five types' tags. */
  lemma DecodeExactlyTags(tag: string)
    ensures DecodeColType(tag).Some? <==> exists t: ColType :: t.Tag() == tag
  {
    if exists t: ColType :: t.Tag() == tag {
      var t: ColType :| t.Tag() == tag;
      DecodeTag(t);
    }
  }

  /** A fully resolved column: how to name, parse and default every cell of one column. */
  datatype ColumnDef = ColumnDef(
    colType: ColType,
    colName: string,
    colFormat: string,
    colTrueString: string,
    colFalseString: string,
    colDefault: Json)
  {
    /** `ColumnDef::default()`, derived field by field. */
    static function Default(): (d: ColumnDef)
      ensures d.colType == DefaultColType()
      ensures d.colName == [] && d.colFormat == []
      ensures d.colTrueString == [] && d.colFalseString == []
      ensures d.colDefault.Null?
    {
      ColumnDef(DefaultColType(), "", "", "", "", Null)
    }
  }

  /** One entry of the user's config: every field may be absent. */
  datatype ColumnDefOptions = ColumnDefOptions(
    colType: Option<ColType>,
    colName: Option<string>,
    colFormat: Option<string>,
    colTrueString: Option<string>,
    colFalseString: Option<string>,
    colDefault: Option<Json>)
  {
    /** `ColumnDefOptions::default()`. */
    static function Default(): (o: ColumnDefOptions)
      ensures o.colType.None? && o.colName.None? && o.colFormat.None?
      ensures o.colTrueString.None? && o.colFalseString.None? && o.colDefault.None?
    {
      ColumnDefOptions(None, None, None, None, None, None)
    }
  }
}
