# CLMS.Framework configuration flattening and Excel export, in Dafny

This project models two pieces of CLMS.Framework that hold real logic once
their library calls are abstracted away.

**Legacy configuration provider.** `LegacyConfigurationProvider.Load` reads the
`add` elements of an App.config file's `connectionStrings` and `appSettings`
sections. It flattens them into the provider's key/value store:

- a connection string named `n` becomes the keys `ConnectionStrings:n:connectionString`,
  `ConnectionStrings:n:name` and `ConnectionStrings:n:providerName`;
- an app setting with key `k` becomes the key `AppSettings:k`.

The model (`ConfigurationHandler`) takes each section as the list of elements
the XPath query returned, or `None` when the query returned null. An element
either has no attribute collection (`NoAttributes`) or carries a map from
attribute name to value. `Load` is a pure function. It returns the store or
one of two errors:

- `MissingAttribute`: an attribute the loop reads is absent, so `.Value`
  dereferences null;
- `DuplicateKey`: `Data.Add` is given a key the store already holds.

Attributes are read and keys added in the order the C# evaluates them.

`ConfigurationProperties` proves the following about `Load`:

- when it succeeds, and when it does not;
- which keys the store then holds, with which values, and how many entries;
- that key construction is injective;
- that elements without attributes are skipped;
- that a missing section reads as an empty one;
- that connection strings are processed before app settings.

One might expect an element lacking an attribute to be skipped and a repeated
key to overwrite the earlier value. The code does neither: `.Value` on a null
attribute and `Data.Add` on a present key both throw, and the whole load fails.

**Excel export.** `ExcelTools` models the following from `ExcelTools.cs`:

- the options check (`IsValid`, and `EnsureExcelOptionsAreValid`, which is
  true when the options are *not* usable);
- the value coercion of `GetCellValue`, as the kind of value it yields;
- the number-format rule of `SetCellFormat`, including quote stripping;
- the per-column formatting lookup;
- the header and data loops of `ExportExcelFile` and `GetExcelFormat`.

The worksheet is a map from 1-based (row, column) to a cell holding a value
and an optional number format. Values are a tagged datatype: null, the seven
numeric types `GetCellValue` tests for (`int`, `decimal`, `byte`, `long`,
`double`, `short`, `float`), `DateTime` and any other object. The other
.NET numeric types (`sbyte`, `ushort`, `uint`, `ulong`, ...) are such other
objects: they are not converted to a double and, not being a double, get no
number format even when their column has one. Two things are parameters
of the model:

- `double.Parse(value.ToString())` is `parseDouble`, so only the change of
  kind to double is modelled;
- `Common.ConvertMomentFormat` is `convertMomentFormat`.

`ExcelProperties` relates the two exports and states what every cell holds.

## Model

| member | source | states |
|---|---|---|
| ConfigurationProperties.ConnectionKeyInjective | src/CLMS.Framework/Configuration/ConfigurationHandler.cs:59-64 | two connection keys are equal if and only if they come from the same name and the same field |
| ConfigurationProperties.AppSettingKeyInjective | src/CLMS.Framework/Configuration/ConfigurationHandler.cs:75 | two app-setting keys are equal if and only if the setting keys are equal |
| ConfigurationProperties.SectionsNeverCollide | src/CLMS.Framework/Configuration/ConfigurationHandler.cs:59-75 | a `ConnectionStrings:` key never equals an `AppSettings:` key |
| ConfigurationProperties.KeysOfSize | src/CLMS.Framework/Configuration/ConfigurationHandler.cs:59-64 | one connection string occupies exactly three distinct keys |
| ConfigurationProperties.KeysOfDisjoint | src/CLMS.Framework/Configuration/ConfigurationHandler.cs:59-64 | a connection string's three keys are disjoint from those of a list of names exactly when its name is not in the list |
| ConfigurationProperties.AppSettingKeyDisjoint | src/CLMS.Framework/Configuration/ConfigurationHandler.cs:75 | an app-setting key is outside the keys of a list exactly when the setting key is not in the list |
| ConfigurationProperties.AddConnectionSpec | src/CLMS.Framework/Configuration/ConfigurationHandler.cs:59-64 | one element with attributes succeeds exactly when it has name, connectionString and providerName and none of its three keys is taken; it then adds exactly those three keys with the element's values and keeps every older entry |
| ConfigurationProperties.AddAppSettingSpec | src/CLMS.Framework/Configuration/ConfigurationHandler.cs:75 | one element with attributes succeeds exactly when it has key and value and its key is new; it then adds exactly `AppSettings:key` with that value and keeps every older entry |
| ConfigurationProperties.AddConnectionsSpec | src/CLMS.Framework/Configuration/ConfigurationHandler.cs:53-65 | the connection-string loop over a store succeeds exactly when every element can be read, names are pairwise distinct and none of their keys is already present; it then adds exactly three keys per named element, keeps older entries, and grows the store by three times the number of names |
| ConfigurationProperties.AddAppSettingsSpec | src/CLMS.Framework/Configuration/ConfigurationHandler.cs:69-76 | the app-settings loop succeeds exactly when every element can be read, keys are pairwise distinct and new; it then adds exactly one key per element and keeps older entries |
| ConfigurationProperties.AddConnectionsHolds | src/CLMS.Framework/Configuration/ConfigurationHandler.cs:55-65 | after a successful connection-string loop, the store holds all three entries of every element, with the element's values |
| ConfigurationProperties.AddAppSettingsHolds | src/CLMS.Framework/Configuration/ConfigurationHandler.cs:71-76 | after a successful app-settings loop, the store maps every element's key to its value |
| ConfigurationProperties.LoadSpec | src/CLMS.Framework/Configuration/ConfigurationHandler.cs:46-77 | `Load` succeeds if and only if every element with attributes has the attributes its loop reads and names and setting keys are pairwise distinct; the store then holds exactly the connection keys and app-setting keys, each with its element's value, and 3·(connection strings) + (app settings) entries |
| ConfigurationProperties.LoadSucceeds | src/CLMS.Framework/Configuration/ConfigurationHandler.cs:46-77 | the success half of `LoadSpec`, in both directions |
| ConfigurationProperties.LoadContents | src/CLMS.Framework/Configuration/ConfigurationHandler.cs:46-77 | the contents half of `LoadSpec`: the keys, the values and the entry count of a successful load |
| ConfigurationProperties.RepeatedConnectionNameFails | src/CLMS.Framework/Configuration/ConfigurationHandler.cs:59-64 | two elements with the same connection name make the load fail; nothing is overwritten |
| ConfigurationProperties.RepeatedAppSettingKeyFails | src/CLMS.Framework/Configuration/ConfigurationHandler.cs:75 | two elements with the same setting key make the load fail; nothing is overwritten |
| ConfigurationProperties.IncompleteElementFails | src/CLMS.Framework/Configuration/ConfigurationHandler.cs:59-75 | an element with attributes that lacks one its loop reads makes the load fail; it is not skipped |
| ConfigurationProperties.AddConnectionsConcat | src/CLMS.Framework/Configuration/ConfigurationHandler.cs:55-65 | the connection-string loop over `s + t` is the loop over `s` followed, if it succeeded, by the loop over `t` |
| ConfigurationProperties.AddAppSettingsConcat | src/CLMS.Framework/Configuration/ConfigurationHandler.cs:71-76 | the same for the app-settings loop |
| ConfigurationProperties.SkipNullAttributes | src/CLMS.Framework/Configuration/ConfigurationHandler.cs:55-76 | inserting an element without attributes anywhere in either section leaves the outcome of the load unchanged |
| ConfigurationProperties.MissingSectionIsEmpty | src/CLMS.Framework/Configuration/ConfigurationHandler.cs:52-69 | a section whose query returned null loads exactly like an empty section |
| ConfigurationProperties.ConnectionErrorsComeFirst | src/CLMS.Framework/Configuration/ConfigurationHandler.cs:52-77 | when the connection strings fail, the load fails with their error whatever the app settings hold |
| ConfigurationProperties.SingleConnectionExample | src/CLMS.Framework/Configuration/ConfigurationHandler.cs:59-64 | one connection string "Main" loads as exactly its three named entries |
| ConfigurationProperties.SingleAppSettingExample | src/CLMS.Framework/Configuration/ConfigurationHandler.cs:75 | one app setting "Foo" loads as exactly `AppSettings:Foo ↦ Bar` |
| ExcelTools.EnsureExcelOptionsAreValid | src/CLMS.Framework.Net47/Utilities/ExcelTools.cs:118-121 | true exactly when the options are null or one of Columns, Values, Path is null (the negation of `IsValid`, line 22) |
| ExcelTools.GetCellValue | src/CLMS.Framework.Net47/Utilities/ExcelTools.cs:90-106 | null stays null; a value of any of the seven numeric types, and only such a value, becomes a double; a date-time stays a date-time; every non-number passes through unchanged |
| ExcelTools.RemoveQuotes | src/CLMS.Framework.Net47/Utilities/ExcelTools.cs:112 | the result has no single quote and otherwise the same characters, with the same multiplicities, as the input |
| ExcelTools.SetCellFormat | src/CLMS.Framework.Net47/Utilities/ExcelTools.cs:108-116 | the format changes only for a non-blank formatting string on a double or a date-time; a date-time gets the converted moment.js format, a double the string with every quote removed and the other characters kept in order |
| ExcelTools.ColumnFormatting | src/CLMS.Framework.Net47/Utilities/ExcelTools.cs:69 | the formatting of column `c` is the list's element `c` when the list is non-null and longer than `c`, and none otherwise |
| ExcelTools.WriteHeader | src/CLMS.Framework.Net47/Utilities/ExcelTools.cs:50-53 | row 1 holds each column header unchanged at column `i + 1`, and the sheet holds nothing else |
| ExcelTools.WriteRow | src/CLMS.Framework.Net47/Utilities/ExcelTools.cs:66-73 | one data row lands in its sheet row, value `c` at column `c + 1`, whatever its length; no other cell changes |
| ExcelTools.WriteRows | src/CLMS.Framework.Net47/Utilities/ExcelTools.cs:62-74 | data row `r` lands in sheet row `r + 2`, value `c` at column `c + 1`; the header row is kept and nothing else is written |
| ExcelTools.ExportExcelFile | src/CLMS.Framework.Net47/Utilities/ExcelTools.cs:40-88 | fails with the export exception exactly when the options are unusable, before any file is produced; otherwise, when the values parse, the column list is non-empty and the path is accepted, the workbook at `Path` holds the header row and the coerced, formatted data |
| ExcelTools.GetExcelFormat | src/CLMS.Framework.Net47/Utilities/ExcelTools.cs:123-159 | fails exactly when an argument is null; otherwise the sheet holds the header row and the raw data with no format |
| ExcelProperties.HeaderRowIsColumns | src/CLMS.Framework.Net47/Utilities/ExcelTools.cs:50-53 | row 1 has a cell exactly in columns 1 to the header count, each holding its header; data never lands there |
| ExcelProperties.LongRowWrittenInFull | src/CLMS.Framework.Net47/Utilities/ExcelTools.cs:62-73 | a data row longer than the header row is written in full, past the last header column |
| ExcelProperties.ExportCoercesRawLayout | src/CLMS.Framework.Net47/Utilities/ExcelTools.cs:132-144 | the two exports fill the same cells with the same headers; each data value of `ExportExcelFile` is the coercion of the raw value of `GetExcelFormat`, which sets no format |
| ExcelProperties.ExportDataCells | src/CLMS.Framework.Net47/Utilities/ExcelTools.cs:62-73 | every exported data cell holds a double exactly when its input is a number, null exactly when its input is null, the input itself when it is not a number; it has a format exactly when its column's formatting is not blank and the value is a double or a date-time |
| ExcelProperties.ExportFormatStrings | src/CLMS.Framework.Net47/Utilities/ExcelTools.cs:108-116 | with a non-blank column formatting, a number's format is the string without quotes and a date-time's is the converted string |
| ExcelProperties.ExportOtherUnformatted | src/CLMS.Framework.Net47/Utilities/ExcelTools.cs:94-110 | a value of none of the tested types, such as a `uint`, is written unconverted and keeps the default number format, whatever its column formatting |
| ExcelProperties.RemoveQuotesConcat | src/CLMS.Framework.Net47/Utilities/ExcelTools.cs:112 | quote removal distributes over concatenation |
| ExcelProperties.RemoveQuotesKeepsUnquoted | src/CLMS.Framework.Net47/Utilities/ExcelTools.cs:112 | a string without quotes is kept unchanged |
| ExcelProperties.RemoveQuotesSurrounding | src/CLMS.Framework.Net47/Utilities/ExcelTools.cs:112 | a quoted string loses its surrounding quotes |
| ExcelProperties.RemoveQuotesInner | src/CLMS.Framework.Net47/Utilities/ExcelTools.cs:112 | a quote inside the string is removed too, not only those at its ends |

## Left out

- File and XML input: `XmlDocument.Load` of App.config and the XPath queries
  (ConfigurationHandler.cs:48-52, :68) are I/O and parsing; the model starts
  from the selected element lists.
- The case-insensitive key comparer of the provider's store: keys are compared
  exactly.
- `GetConfiguration`, `GetSmtpSettings`, `GetAppConfiguration`,
  `SetUpConfigurationBuilder`, `GetInjectedConfig` and `Build`: they layer
  providers, bind settings and read a global service locator, all inside
  Microsoft.Extensions.Configuration.
- ClaimsTransformationModule.cs and MailConfiguration.cs are not part of this
  model: the first calls identity and session code that is not shown, the
  second holds property bags without behaviour.
- The spreadsheet library itself: header styling, `AutoFitColumns`,
  `Calculate`, document properties (`Title`, `Author`, `Comments`), `Save` and
  `GetAsByteArray`. The model's worksheet map is what those calls receive.
- Exceptions the spreadsheet library raises on its own, such as the header
  range `Cells[1, 1, 1, 0]` for an empty column list, a cell address past the
  sheet's bounds or the missing `Dimension` of an empty sheet: the model lays these sheets out as it does
  any other.
- The `FileInfo` getter's delete of an existing file, and the path checks of
  `new FileInfo(Path)`, are filesystem I/O. The model returns the sheet that
  is saved at `Path`.
- ExcelTools.GetCellValue: the numeric payload of `double.Parse(value.ToString())`
  is the `parseDouble` parameter, because it is a culture-dependent
  floating-point string round trip; only the change of kind is stated. The
  parse is also assumed to succeed. On .NET Framework, `ToString()` prints a
  double with 15 significant digits, so a value near ±`double.MaxValue`
  prints as a string that `double.Parse` rejects with an overflow exception.
  The model turns such a value into a double like any other.
- ExcelTools.ExportExcelFile: besides the spreadsheet library's own
  exceptions above (among them a sheet past its bounds of 16,384 columns or
  1,048,576 rows, where `Cells[r, c]` at ExcelTools.cs:52 and :70 throws), its
  `Success` result holds in the code only under three assumptions the model
  does not check, and the model returns `Success` where they fail:
  - every numeric value parses (see the `GetCellValue` line): a data value
    near ±`double.MaxValue` throws inside the data loop, after the `FileInfo`
    getter has already deleted any existing file at `Path`;
  - the column list is non-empty: for `Columns = []` the header range
    `Cells[1, 1, 1, 0]` (ExcelTools.cs:55) throws in the spreadsheet library;
  - `new FileInfo(Path)` and `Save` accept the path: an empty, blank or
    malformed `Path` is not null, so `IsValid` (ExcelTools.cs:22) lets it
    through and no export exception is raised, but `new FileInfo(Path)`
    (ExcelTools.cs:30) then throws an argument exception.
- ExcelTools.SetCellFormat: `Common.ConvertMomentFormat` is the
  `convertMomentFormat` parameter, because its source is not part of this
  model.
- A null row inside `Values` or `data`, on which `row.Count` would throw: the
  model's rows are sequences and cannot be null.
- Numeric payloads are unbounded integers and reals. The widths of `byte`,
  `short`, `int` and `long` and the precision of `float`, `decimal` and
  `double` only enter through `parseDouble`, and the overflow near
  ±`double.MaxValue` is the one failure that causes (see above).
