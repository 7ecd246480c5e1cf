# sane_csv_json: schema resolution and cell coercion, in Dafny

sane_csv_json converts a CSV file into a JSON document, one object per row. A user-supplied
JSON config gives, per column and by position, an optional type, name, date format,
true/false tokens and default value. This project models the core of that conversion and
proves properties of it:

- **Schema resolution** (`Input`): `fill_schema_defaults` pads the config with all-absent
  entries, or truncates it, to the CSV's column count. It then resolves each column: the
  name comes from the option, else the header, else the index; the type defaults to String
  and the default value to `null`. The date format and the bool tokens are taken from the
  option only for Date and Bool columns respectively.
- **Cell coercion** (`Parse`): `sanitise_number` keeps digits, `.` and a leading `-`.
  `parse_i32` is sanitising followed by Rust's `i32::from_str` (modelled in `Decimal`).
  `parse_value` turns a cell into a JSON value by its column's type and falls back to the
  column default on every failure.
- **Row assembly** (`Parse.ParseRow`): the cells of a row go into a JSON object keyed by
  column name; a later duplicate name overwrites an earlier one.
- **Supporting types**: `ColType`, `ColumnDef` and `ColumnDefOptions` (`ColumnDefs`), the
  JSON value (`JsonValue`), and the `Whoops` diagnostic with its builder (`Diagnostics`).

`Scenario` composes the pieces on a sample header row, config and row, and proves the
resulting schema and row object.

The float parser (`str::parse::<f64>`) and chrono's date parser are library code. They are
the two fields of the `Parse.Parsers` record, which every coercion takes as input. The
general contracts and lemmas hold for any such parsers; only `Scenario.ConvertSampleRow`
assumes something about one of them: the date parser's timestamp for its one sample date.
`json!` on an `f64` yields `null` for an infinity or NaN, and the model keeps that:
`JsonValue.FromF64` works on the IEEE bit pattern.

A row with more cells than the schema makes `parse_row` panic on `unwrap`
(src/lib/parse.rs:14), so `Parse.ParseRow` requires `|row| <= |schema|`. A Bool cell that
matches neither token yields the column default (src/lib/parse.rs:41-49).

## Model

| member | source | states |
|---|---|---|
| `ColumnDefs.ColType.Tag` | src/lib/column_def.rs:7-25 | each of the five types is named in config by a non-empty all-lowercase tag |
| `ColumnDefs.DefaultColType` | src/lib/column_def.rs:27-31 | the default column type is String |
| `ColumnDefs.DecodeColType` | src/lib/column_def.rs:7-25 | a decoded tag is exactly the tag of the type it decodes to |
| `ColumnDefs.DecodeTag` | src/lib/column_def.rs:7-25 | decoding a type's tag gives that type back (round trip) |
| `ColumnDefs.DecodeExactlyTags` | src/lib/column_def.rs:8 | a tag decodes if and only if it is one of the five lowercase names; any other tag fails |
| `ColumnDefs.ColumnDef.Default` | src/lib/column_def.rs:33-41 | the default definition has type String, empty name, format and tokens, and a null default |
| `ColumnDefs.ColumnDefOptions.Default` | src/lib/column_def.rs:43-69 | the default options have all six fields absent |
| `JsonValue.FromF64` | src/lib/parse.rs:36-38 | a float becomes a JSON number exactly when finite, and `null` otherwise |
| `Diagnostics.WhoopsBuilder.New` | src/lib/whoops.rs:11-18 | a new builder has all four fields absent |
| `Diagnostics.WhoopsBuilder.WithErrType` | src/lib/whoops.rs:20-23 | sets err_type and leaves the other three fields as they were |
| `Diagnostics.WhoopsBuilder.WithContext` | src/lib/whoops.rs:25-28 | sets context and leaves the other three fields as they were |
| `Diagnostics.WhoopsBuilder.WithWhy` | src/lib/whoops.rs:30-33 | sets why and leaves the other three fields as they were |
| `Diagnostics.WhoopsBuilder.WithSuggestion` | src/lib/whoops.rs:35-38 | sets suggestion and leaves the other three fields as they were |
| `Diagnostics.WhoopsBuilder.Build` | src/lib/whoops.rs:40-49 | each set field is copied verbatim; each unset one becomes its fixed placeholder |
| `Diagnostics.BuildNothingSet` | src/lib/whoops.rs:40-49 | an untouched builder builds the four placeholders |
| `Diagnostics.BuildAllSet` | src/lib/whoops.rs:20-49 | setting all four fields, from any builder state, builds exactly those values |
| `Diagnostics.LastSetWins` | src/lib/whoops.rs:20-38 | setting a field twice keeps the later value |
| `Diagnostics.SettersCommute` | src/lib/whoops.rs:20-38 | setters of different fields commute, so each changes only its own field |
| `Diagnostics.Whoops.AugmentContext` | src/lib/whoops.rs:61-64 | the new context is the extra text, then ", ", then the old context; err_type, why and suggestion are unchanged |
| `Diagnostics.AugmentTwice` | src/lib/whoops.rs:61-64 | augmenting twice puts the newer text first and keeps the original context at the end |
| `Diagnostics.Whoops.Display` | src/lib/whoops.rs:67-87 | the rendering opens with the banner, err_type and the context label, and closes with the suggestion followed by the closing rule |
| `Diagnostics.DisplayFieldOrder` | src/lib/whoops.rs:67-87 | the rendering shows err_type, context, why and suggestion verbatim, in that order, each after its label, without overlap |
| `Decimal.ShowNat` | src/lib/input.rs:196 | the decimal form of an index is a non-empty digit string without leading zeros whose value is the index |
| `Decimal.Accumulate` | src/lib/parse.rs:65 | the digit loop of `i32::from_str`, which checks the range at every step, succeeds exactly when all characters are digits and the final value fits in i32, and it returns that value |
| `Decimal.StrToI32` | src/lib/parse.rs:65 | `i32::from_str` succeeds exactly on an optionally signed non-empty digit string whose value is in the i32 range, and returns that value |
| `Decimal.ShowIntRoundTrip` | src/lib/parse.rs:63-66 | every i32 written in decimal parses back to itself |
| `Parse.SanitisedPrefix` | src/lib/parse.rs:95-107 | the filter of `sanitise_number` over the first k characters, keeping a character exactly when `Parse.KeepsAt` holds (parse.rs:99-104); `Parse.Sanitised` is this over the whole input. The sanitised text is never longer than the input and holds only digits, '.', and a '-' at index 0 copied from a leading '-' |
| `Parse.SanitiseNumber` | src/lib/parse.rs:95-107 | the character loop builds exactly the sanitised string |
| `Parse.SanitisedIsSubsequence` | src/lib/parse.rs:95-107 | the sanitised string is the input with characters deleted, so it is no longer than the input |
| `Parse.SanitisedAlphabet` | src/lib/parse.rs:95-107 | the output holds only digits, '.' and '-'; a '-' only at index 0, and only when the input starts with '-' |
| `Parse.SanitiseIdempotent` | src/lib/parse.rs:95-107 | sanitising twice is the same as sanitising once |
| `Parse.SanitiseErr` | src/lib/parse.rs:109-119 | the error kind is "sanitise-<type>-error"; why starts with the offending text, and suggestion starts with "Modify " and that text |
| `Parse.ParseI32` | src/lib/parse.rs:63-66 | succeeds exactly when the sanitised cell is an optionally signed decimal numeral in the i32 range, with that value; otherwise it fails with a sanitise-i32-error diagnostic |
| `Parse.ParseI32DropsSeparators` | src/lib/parse.rs:63-66 | "1,234" parses as 1234 |
| `Parse.ParseI32DropsInnerMinus` | src/lib/parse.rs:63-66 | "12-3" parses as 123 |
| `Parse.ParseI32KeepsLeadingMinus` | src/lib/parse.rs:63-66 | "-42" parses as -42 |
| `Parse.ParseI32Rejects` | src/lib/parse.rs:63-66 | the empty cell and "1.5" fail to parse |
| `Parse.ParseI32Overflow` | src/lib/parse.rs:63-66 | "2147483648", one past the i32 maximum, fails to parse |
| `Parse.ParseF64` | src/lib/parse.rs:68-71 | the float parser sees only the sanitised cell; its failure becomes a sanitise-f64-error diagnostic |
| `Parse.ParseDate` | src/lib/parse.rs:73-92 | the date parser sees the raw cell and the format; its failure becomes a parse-date-err diagnostic whose why starts with the cell |
| `Parse.ParseValue` | src/lib/parse.rs:20-61 | never fails. Each column yields a value of its own kind or exactly its default: i32 for Integer, a finite float or null for Float, a boolean for Bool, an integer for Date. A String column yields the cell itself |
| `Parse.IntegerCell` | src/lib/parse.rs:21-29 | an Integer cell is the value of its sanitised numeral when that is in the i32 range, and exactly the column default otherwise |
| `Parse.FloatCell` | src/lib/parse.rs:31-39 | a Float cell is the float parsed from the sanitised cell, or exactly the default when that fails |
| `Parse.BoolCell` | src/lib/parse.rs:41-49 | a cell equal to the true token reads as true, which is checked first; equal to the false token, as false; otherwise it is exactly the default |
| `Parse.DateCell` | src/lib/parse.rs:51-58 | a Date cell is the parsed timestamp, or exactly the default when the date does not parse |
| `Parse.NumericSeesSanitisedOnly` | src/lib/parse.rs:21-39 | for Integer and Float columns, sanitising the cell beforehand does not change the result |
| `Parse.IntegerRoundTrip` | src/lib/parse.rs:21-29 | an Integer column reads back every i32 written in decimal |
| `Parse.IntegerWithoutDigitsIsDefault` | src/lib/parse.rs:21-29 | a cell with no digit (empty, a word, punctuation) gives exactly the Integer column's default |
| `Parse.ParseRow` | src/lib/parse.rs:10-18 | requires at most as many cells as columns. The object's keys are exactly the names of the first \|row\| columns. Each key holds the value of the last of those columns to carry that name |
| `Parse.InsertKeepsRowInvariant` | src/lib/parse.rs:11-16 | one insertion extends the key set by the column's name and keeps every last-writer value |
| `Input.OptionsAt` | src/lib/input.rs:164-191 | after padding or truncation, column i uses config[i] when it exists and an all-absent entry otherwise |
| `Input.ResolvesUnique` | src/lib/input.rs:195-277 | the resolution rules determine column i completely from its own option, its header and i |
| `Input.PaddedColumnDefaults` | src/lib/input.rs:176-178 | a padded column gets type String, a null default, the fallback format and tokens, and its header or index as name |
| `Input.ResolveColumn` | src/lib/input.rs:196-277 | one column: the name is the option's, else the header's, else the index. Type and default come from the option, else String and null. The format is the option's only for Date, else "%d/%m/%Y". The tokens are the option's only for Bool, else "true"/"false" |
| `Input.FillSchemaDefaults` | src/lib/input.rs:159-280 | the result has exactly requiredLen entries, shorter or longer config alike. Entry i is resolved from config[i] (entries past requiredLen are dropped) or, past the config's end, from an all-absent entry |
| `Scenario.ResolveSampleSchema` | src/lib/input.rs:159-280 | a four-column sample config resolves to the expected definitions |
| `Scenario.ConvertSampleRow` | src/lib/parse.rs:10-18 | assuming the date parser maps the sample date to one given timestamp, the sample row becomes {"id": "7", "age": 0, "active": true, "joined": that timestamp}; id, age and active follow from the model alone, and the unparsable age falls back to its default |

## Left out

- `InputService::handle_input` (src/lib/input.rs:34-156) is not modelled: it opens and reads the CSV and config files, decodes the config with serde, and picks the output path. The config decoding is represented only by `ColumnDefs.DecodeColType`. Its behaviour on a bad CSV row (it logs the error and then panics on `unwrap`) is not modelled.
- src/bin.rs is not part of this model. It holds argument parsing, logger setup, the loop over rows and the file write, which always goes to "data.json".
- The float parser and chrono's date parser (`parse_f64`'s `str::parse::<f64>`, and `parse_date`'s `NaiveDate::parse_from_str` with `and_hms(0, 0, 0).timestamp()`) are taken as given functions in `Parse.Parsers`. Nothing is proved about what they accept. The i64 width of the timestamp is not modelled either.
- Logging (`info!`, `error!`) and the diagnostics logged during schema resolution are not modelled: they have no effect on the result.
- Object key order: a row object is a map, so the model makes no claim about the order of keys in the serialised output.
- `Diagnostics.Whoops.AugmentContext`: modelled as a functional update of a value. The source updates the field in place through `&mut self` and returns `&mut Self` for chaining; in-place update and aliasing are not modelled.
- `Diagnostics.Whoops.Display`: modelled as the exact text it writes; the `fmt::Result` error path of the formatter is not modelled.
- `Parse.ParseRow`: a row longer than the schema is excluded by its precondition, because the source panics there; the panic itself is not modelled.
