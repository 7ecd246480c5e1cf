/** Cell coercion and row assembly: one raw CSV cell to a JSON value by its column's type,
    and one row to a JSON object keyed by column name. */
module Parse {
  import opened Wrappers
  import opened JsonValue
  import opened ColumnDefs
  import opened Diagnostics
  import opened Decimal

  /** The two parsers the converter borrows from libraries, taken as given: Rust's
      `str::parse::<f64>`, and chrono's date parser (cell, format) followed by the Unix
      timestamp of that date at midnight UTC, or chrono's error message. */
  datatype Parsers = Parsers(
    parseF64: string -> Option<F64>,
    parseDate: (string, string) -> Result<int, string>)

  // ---------------------------------------------------------------- sanitise_number

  /** `sanitise_number` keeps the character at index `i`: a digit or '.', or a '-' that is
      the very first character. */
  predicate KeepsAt(s: string, i: nat)
    requires i < |s|
  {
    IsDigit(s[i]) || s[i] == '.' || (s[i] == '-' && i == 0)
  }

  /** What `sanitise_number` has built after scanning the first `k` characters. It only ever
      holds digits, '.' and a leading '-' copied from a leading '-'. */
  function SanitisedPrefix(s: string, k: nat): (t: string)
    requires k <= |s|
    ensures |t| <= k
    ensures forall j :: 0 <= j < |t| ==>
      IsDigit(t[j]) || t[j] == '.' || (t[j] == '-' && j == 0 && s[0] == '-')
  {
    if k == 0 then []
    else SanitisedPrefix(s, k - 1) + (if KeepsAt(s, k - 1) then [s[k - 1]] else [])
  }

  function Sanitised(s: string): string
  {
    SanitisedPrefix(s, |s|)
  }

  /** `sanitise_number`, as the source writes it: one pass over the characters, pushing the
      ones it keeps. */
  method SanitiseNumber(n: string) returns (newStr: string)
    ensures newStr == Sanitised(n)
  {
    newStr := "";
    for i := 0 to |n|
      invariant newStr == SanitisedPrefix(n, i)
    {
      var c := n[i];
      if IsDigit(c) || c == '.' {
        newStr := newStr + [c];
      }
      if c == '-' && i == 0 {
        newStr := newStr + [c];
      }
    }
  }

  /** `a` is `b` with some characters deleted. */
  predicate IsSubsequence(a: string, b: string)
    decreases |b|
  {
    if a == [] then true
    else if b == [] then false
    else
      || (a[|a| - 1] == b[|b| - 1] && IsSubsequence(a[..|a| - 1], b[..|b| - 1]))
      || IsSubsequence(a, b[..|b| - 1])
  }

  lemma {:induction false} SanitisedPrefixIsSubsequence(s: string, k: nat)
    requires k <= |s|
    ensures IsSubsequence(SanitisedPrefix(s, k), s[..k])
  {
    if k > 0 {
      SanitisedPrefixIsSubsequence(s, k - 1);
      var t := SanitisedPrefix(s, k);
      assert s[..k][..k - 1] == s[..k - 1];
      if KeepsAt(s, k - 1) {
        assert t[..|t| - 1] == SanitisedPrefix(s, k - 1);
      } else {
        assert t == SanitisedPrefix(s, k - 1);
        if t != [] {
          assert IsSubsequence(t, s[..k][..k - 1]);
        }
      }
    }
  }

  /** The sanitised string is the input with characters deleted (so it is never longer). */
  lemma SanitisedIsSubsequence(s: string)
    ensures IsSubsequence(Sanitised(s), s) && |Sanitised(s)| <= |s|
  {
    SanitisedPrefixIsSubsequence(s, |s|);
    assert s[..|s|] == s;
  }

  /** The sanitised string holds only digits, '.' and '-'; a '-' only at index 0, and only
      when the input itself starts with '-'. */
  lemma SanitisedAlphabet(s: string)
    ensures forall j :: 0 <= j < |Sanitised(s)| ==>
      var c := Sanitised(s)[j];
      IsDigit(c) || c == '.' || (c == '-' && j == 0 && |s| > 0 && s[0] == '-')
    ensures '-' in Sanitised(s) ==> Sanitised(s)[0] == '-' && s[0] == '-'
  {
  }

  /** A string every character of which is kept passes through unchanged. */
  lemma {:induction false} SanitiseKeepsAllKept(t: string, k: nat)
    requires k <= |t|
    requires forall j :: 0 <= j < |t| ==> KeepsAt(t, j)
    ensures SanitisedPrefix(t, k) == t[..k]
  {
    if k > 0 {
      SanitiseKeepsAllKept(t, k - 1);
      assert t[..k] == t[..k - 1] + [t[k - 1]];
    }
  }

  /** Sanitising twice is sanitising once. */
  lemma SanitiseIdempotent(s: string)
    ensures Sanitised(Sanitised(s)) == Sanitised(s)
  {
    var t := Sanitised(s);
    forall j | 0 <= j < |t| ensures KeepsAt(t, j) { }
    SanitiseKeepsAllKept(t, |t|);
    assert t[..|t|] == t;
  }

  // ---------------------------------------------------------------- numbers and dates

  /** `get_sanitise_err`: the diagnostic for a sanitised string that does not parse. */
  function SanitiseErr(input: string, intendedType: string): (w: Whoops)
    ensures w.errType == "sanitise-" + intendedType + "-error"
    ensures input <= w.why && "Modify " + input <= w.suggestion
  {
    Whoops(
      "sanitise-" + intendedType + "-error",
      "whilst trying to sanitise " + intendedType + " str",
      input + " is not parsable as a " + intendedType,
      "Modify " + input + ", so that it is parsable as a " + intendedType)
  }

  /** `parse_i32`: sanitise, then `i32::from_str`. It succeeds exactly when the sanitised
      cell is an optionally signed decimal numeral within the i32 range, with that value. */
  function ParseI32(n: string): (r: Result<int, Whoops>)
    ensures r.Success? <==> IsNumeral(Sanitised(n)) && InI32(NumeralValue(Sanitised(n)))
    ensures r.Success? ==> IsNumeral(Sanitised(n)) && r.value == NumeralValue(Sanitised(n))
    ensures r.Failure? ==> r.error.errType == "sanitise-i32-error"
  {
    var t := Sanitised(n);
    match StrToI32(t)
    case Some(v) => Success(v)
    case None => Failure(SanitiseErr(t, "i32"))
  }

  /** `parse_f64`: sanitise, then the float parser; a failure reports the sanitised text. */
  function ParseF64(p: Parsers, n: string): (r: Result<F64, Whoops>)
    ensures r.Success? <==> p.parseF64(Sanitised(n)).Some?
    ensures r.Success? ==> p.parseF64(Sanitised(n)) == Some(r.value)
    ensures r.Failure? ==> r.error.errType == "sanitise-f64-error"
  {
    var t := Sanitised(n);
    match p.parseF64(t)
    case Some(f) => Success(f)
    case None => Failure(SanitiseErr(t, "f64"))
  }

  /** `parse_date`: the date parser on the raw (unsanitised) cell; a failure becomes a
      "parse-date-err" diagnostic that names the cell and the format. */
  function ParseDate(p: Parsers, n: string, format: string): (r: Result<int, Whoops>)
    ensures r.Success? <==> p.parseDate(n, format).Success?
    ensures r.Success? ==> r.value == p.parseDate(n, format).value
    ensures r.Failure? ==> r.error.errType == "parse-date-err" && n <= r.error.why
  {
    match p.parseDate(n, format)
    case Success(ts) => Success(ts)
    case Failure(err) =>
      Failure(WhoopsBuilder.New()
        .WithErrType("parse-date-err")
        .WithContext("whilst trying to parse date")
        .WithWhy(n + " is not parsable with format " + format + ": " + err)
        .WithSuggestion("format " + n + " with given format: " + format)
        .Build())
  }

  // ---------------------------------------------------------------- parse_value

  /** `parse_value`: one raw cell as a JSON value of its column's type. It never fails:
      a column yields either a value of its own kind or exactly its default: i32 integers
      for Integer, finite floats or null for Float, booleans for Bool, integer timestamps
      for Date, and the cell itself for String. */
  function ParseValue(p: Parsers, def: ColumnDef, value: string): (r: Json)
    ensures def.colType.Integer? ==> r == def.colDefault || (r.Int? && InI32(r.i))
    ensures def.colType.Float? ==> r == def.colDefault || r.Null? || (r.Float? && r.f.IsFinite())
    ensures def.colType.Bool? ==> r == def.colDefault || r.Bool?
    ensures def.colType.Date? ==> r == def.colDefault || r.Int?
    ensures def.colType.String? ==> r == Str(value)
  {
    match def.colType
    case Integer =>
      (match ParseI32(value)
       case Failure(_) => def.colDefault
       case Success(n) => Int(n))
    case Float =>
      (match ParseF64(p, value)
       case Failure(_) => def.colDefault
       case Success(f) => FromF64(f))
    case Bool =>
      if value == def.colTrueString then Json.Bool(true)
      else if value == def.colFalseString then Json.Bool(false)
      else def.colDefault
    case Date =>
      (match ParseDate(p, value, def.colFormat)
       case Failure(_) => def.colDefault
       case Success(ts) => Int(ts))
    case String => Str(value)
  }

  /** An Integer cell is the value of its sanitised text when that is a decimal numeral in
      the i32 range, and exactly the column default otherwise. */
  lemma IntegerCell(p: Parsers, def: ColumnDef, value: string)
    requires def.colType.Integer?
    ensures var t := Sanitised(value);
      ParseValue(p, def, value)
        == if IsNumeral(t) && InI32(NumeralValue(t)) then Int(NumeralValue(t)) else def.colDefault
  {
  }

  /** A Float cell is the float parsed from its sanitised text (null when not finite), and
      exactly the column default when that text does not parse. */
  lemma FloatCell(p: Parsers, def: ColumnDef, value: string)
    requires def.colType.Float?
    ensures p.parseF64(Sanitised(value)).None? ==> ParseValue(p, def, value) == def.colDefault
    ensures p.parseF64(Sanitised(value)).Some? ==>
      ParseValue(p, def, value) == FromF64(p.parseF64(Sanitised(value)).value)
  {
  }

  /** A Bool cell is true when it equals the true token (checked first), false when it
      equals the false token, and the column default otherwise, with no error. */
  lemma BoolCell(p: Parsers, def: ColumnDef, value: string)
    requires def.colType.Bool?
    ensures ParseValue(p, def, value) == Json.Bool(true) <==>
      value == def.colTrueString || (value != def.colFalseString && def.colDefault == Json.Bool(true))
    ensures value == def.colTrueString ==> ParseValue(p, def, value) == Json.Bool(true)
    ensures value != def.colTrueString && value == def.colFalseString ==>
      ParseValue(p, def, value) == Json.Bool(false)
    ensures value != def.colTrueString && value != def.colFalseString ==>
      ParseValue(p, def, value) == def.colDefault
  {
  }

  /** A Date cell is the timestamp the date parser gives for the raw cell and the column's
      format, and exactly the column default when the parser fails. */
  lemma DateCell(p: Parsers, def: ColumnDef, value: string)
    requires def.colType.Date?
    ensures p.parseDate(value, def.colFormat).Success? ==>
      ParseValue(p, def, value) == Int(p.parseDate(value, def.colFormat).value)
    ensures p.parseDate(value, def.colFormat).Failure? ==> ParseValue(p, def, value) == def.colDefault
  {
  }

  /** Numeric columns only see the sanitised cell: sanitising a cell first changes nothing. */
  lemma NumericSeesSanitisedOnly(p: Parsers, def: ColumnDef, value: string)
    requires def.colType.Integer? || def.colType.Float?
    ensures ParseValue(p, def, Sanitised(value)) == ParseValue(p, def, value)
  {
    SanitiseIdempotent(value);
  }

  /** An Integer column reads back every i32 written in decimal. */
  lemma IntegerRoundTrip(p: Parsers, def: ColumnDef, n: int)
    requires def.colType.Integer? && InI32(n)
    ensures ParseValue(p, def, ShowInt(n)) == Int(n)
  {
    var s := ShowInt(n);
    forall j | 0 <= j < |s| ensures KeepsAt(s, j) {
      if j > 0 {
        assert s[j] == (if n < 0 then s[1..][j - 1] else s[j]);
      }
    }
    SanitiseKeepsAllKept(s, |s|);
    assert s[..|s|] == s;
  }

  /** A cell with no digit in it never parses as an integer: the Integer column gives its
      default. This covers the empty cell, words, and punctuation alone. */
  lemma IntegerWithoutDigitsIsDefault(p: Parsers, def: ColumnDef, value: string)
    requires def.colType.Integer?
    requires forall j :: 0 <= j < |value| ==> !IsDigit(value[j])
    ensures ParseValue(p, def, value) == def.colDefault
  {
    var t := Sanitised(value);
    SanitisedIsSubsequence(value);
    if IsNumeral(t) {
      var k := if t[0] == '+' || t[0] == '-' then 1 else 0;
      assert IsDigit(t[k]);
      SubsequenceChar(t, value, k);
      assert false;
    }
  }

  /** Every character of a subsequence occurs in the larger string. */
  lemma {:induction false} SubsequenceChar(a: string, b: string, k: nat)
    requires IsSubsequence(a, b) && k < |a|
    ensures a[k] in b
    decreases |b|
  {
    if a[|a| - 1] == b[|b| - 1] && IsSubsequence(a[..|a| - 1], b[..|b| - 1]) {
      if k < |a| - 1 {
        SubsequenceChar(a[..|a| - 1], b[..|b| - 1], k);
      }
    } else {
      SubsequenceChar(a, b[..|b| - 1], k);
    }
  }

  /** Thousands separators are dropped before parsing: "1,234" reads as 1234. */
  lemma ParseI32DropsSeparators()
    ensures ParseI32("1,234") == Success(1234)
  {
    SanitiseSeparatorExample();
    DigitsValueAppend("1", '2');
    assert "1" + ['2'] == "12";
    DigitsValueAppend("12", '3');
    assert "12" + ['3'] == "123";
    DigitsValueAppend("123", '4');
    assert "123" + ['4'] == "1234";
    assert IsNumeral("1234") && NumeralValue("1234") == 1234;
  }

  lemma SanitiseSeparatorExample()
    ensures Sanitised("1,234") == "1234"
  {
    var a := "1,234";
    assert SanitisedPrefix(a, 1) == "1";
    assert SanitisedPrefix(a, 2) == "1";
    assert SanitisedPrefix(a, 3) == "12";
    assert SanitisedPrefix(a, 4) == "123";
  }

  /** A '-' after the first character is dropped: "12-3" reads as 123. */
  lemma ParseI32DropsInnerMinus()
    ensures ParseI32("12-3") == Success(123)
  {
    var b := "12-3";
    assert SanitisedPrefix(b, 1) == "1";
    assert SanitisedPrefix(b, 2) == "12";
    assert SanitisedPrefix(b, 3) == "12";
    assert Sanitised(b) == "123";
    DigitsValueAppend("1", '2');
    assert "1" + ['2'] == "12";
    DigitsValueAppend("12", '3');
    assert "12" + ['3'] == "123";
  }

  /** A leading '-' is kept: "-42" reads as -42. */
  lemma ParseI32KeepsLeadingMinus()
    ensures ParseI32("-42") == Success(-42)
  {
    AllKeptExample("-42");
    assert "-42"[1..] == "42";
    DigitsValueAppend("4", '2');
    assert "4" + ['2'] == "42";
  }

  /** The empty cell and a decimal fraction do not parse. */
  lemma ParseI32Rejects()
    ensures ParseI32("").Failure?
    ensures ParseI32("1.5").Failure?
  {
    AllKeptExample("1.5");
    assert "1.5"[1] == '.';
  }

  /** One past the i32 maximum is out of range. */
  lemma ParseI32Overflow()
    ensures ParseI32("2147483648").Failure?
  {
    var big := "2147483648";
    assert forall j :: 0 <= j < |big| ==> IsDigit(big[j]);
    AllKeptExample(big);
    DigitsOfBig();
  }

  lemma DigitsOfBig()
    ensures AllDigits("2147483648") && DigitsValue("2147483648") == 2147483648
  {
    DigitsOfBigHead();
    DigitsValueAppend("21474", '8');
    assert "21474" + ['8'] == "214748";
    DigitsValueAppend("214748", '3');
    assert "214748" + ['3'] == "2147483";
    DigitsValueAppend("2147483", '6');
    assert "2147483" + ['6'] == "21474836";
    DigitsValueAppend("21474836", '4');
    assert "21474836" + ['4'] == "214748364";
    DigitsValueAppend("214748364", '8');
    assert "214748364" + ['8'] == "2147483648";
  }

  lemma DigitsOfBigHead()
    ensures AllDigits("21474") && DigitsValue("21474") == 21474
  {
    DigitsValueAppend("2", '1');
    assert "2" + ['1'] == "21";
    DigitsValueAppend("21", '4');
    assert "21" + ['4'] == "214";
    DigitsValueAppend("214", '7');
    assert "214" + ['7'] == "2147";
    DigitsValueAppend("2147", '4');
    assert "2147" + ['4'] == "21474";
  }

  lemma AllKeptExample(s: string)
    requires forall j :: 0 <= j < |s| ==> KeepsAt(s, j)
    ensures Sanitised(s) == s
  {
    SanitiseKeepsAllKept(s, |s|);
    assert s[..|s|] == s;
  }

  // ---------------------------------------------------------------- parse_row

  /** Column `i` is the last of the first `n` columns to carry its name, so its value is
      the one left in the row object. */
  predicate LastWithName(schema: seq<ColumnDef>, n: nat, i: nat)
    requires i < n <= |schema|
  {
    forall j :: i < j < n ==> schema[j].colName != schema[i].colName
  }

  /** `parse_row`: inserts each cell under its column's name, in column order, into a JSON
      object. The source unwraps the schema lookup, so a row longer than the schema panics;
      that is this method's precondition. The object has a key for each of the first |row|
      column names and no other, and each key holds the value of the last of those columns
      to carry it. */
  method ParseRow(p: Parsers, schema: seq<ColumnDef>, row: seq<string>) returns (r: Json)
    requires |row| <= |schema|
    ensures r.Object?
    ensures r.fields.Keys == set i | 0 <= i < |row| :: schema[i].colName
    ensures forall i :: 0 <= i < |row| && LastWithName(schema, |row|, i) ==>
      r.fields[schema[i].colName] == ParseValue(p, schema[i], row[i])
  {
    var ob: map<string, Json> := map[];
    for i := 0 to |row|
      invariant ob.Keys == set j | 0 <= j < i :: schema[j].colName
      invariant forall j :: 0 <= j < i && LastWithName(schema, i, j) ==>
        ob[schema[j].colName] == ParseValue(p, schema[j], row[j])
    {
      var def := schema[i];
      var value := ParseValue(p, def, row[i]);
      InsertKeepsRowInvariant(p, schema, row, i, ob, value);
      ob := ob[def.colName := value];
    }
    r := Object(ob);
  }

  /** One step of parse_row: inserting column `i` keeps the key set and the last-writer
      values right for the first `i + 1` columns. */
  lemma InsertKeepsRowInvariant(
    p: Parsers, schema: seq<ColumnDef>, row: seq<string>, i: nat, ob: map<string, Json>, value: Json)
    requires i < |row| <= |schema|
    requires value == ParseValue(p, schema[i], row[i])
    requires ob.Keys == set j | 0 <= j < i :: schema[j].colName
    requires forall j :: 0 <= j < i && LastWithName(schema, i, j) ==>
      ob[schema[j].colName] == ParseValue(p, schema[j], row[j])
    ensures ob[schema[i].colName := value].Keys == set j | 0 <= j < i + 1 :: schema[j].colName
    ensures forall j :: 0 <= j < i + 1 && LastWithName(schema, i + 1, j) ==>
      ob[schema[i].colName := value][schema[j].colName] == ParseValue(p, schema[j], row[j])
  {
    var ob' := ob[schema[i].colName := value];
    assert ob'.Keys == ob.Keys + {schema[i].colName};
    assert (set j | 0 <= j < i + 1 :: schema[j].colName)
        == (set j | 0 <= j < i :: schema[j].colName) + {schema[i].colName};
    forall j | 0 <= j < i + 1 && LastWithName(schema, i + 1, j)
      ensures ob'[schema[j].colName] == ParseValue(p, schema[j], row[j])
    {
      if j < i {
        assert schema[j].colName != schema[i].colName;
        assert LastWithName(schema, i, j);
      }
    }
  }
}
