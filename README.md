# SupportedFormat: the output formats of the NetCDF subset service

The NetCDF subset service offers its results in one of eight fixed output
formats, declared as the Java enumeration `SupportedFormat`. Each constant
carries a format name, a flag saying whether the output is streamed, and an
ordered, non-empty list of aliases. The first alias is the content type of
the HTTP response. `isAlias(want)` asks whether `want` matches one of the
aliases, ignoring letter case.

The model has two modules:

- `AsciiCase` (`ascii_case.dfy`): ASCII upper- and lower-casing and the
  comparison of `String.equalsIgnoreCase`. Two characters match when they are
  identical, or their upper-case forms are, or the lower-case forms of their
  upper-case forms are. The comparison is proved to be equality of the
  lower-cased strings, and so an equivalence relation.
- `SupportedFormats` (`supported_format.dfy`): the enumeration as a datatype,
  the constructor arguments of each constant as the function `Spec`, the
  getters, and `IsAlias` as the same in-order search the Java loop does. The
  properties of the table are lemmas.

Everything in the source is immutable: the fields are `final`, the alias list
is copied and wrapped unmodifiable. The model is therefore written with pure
functions over datatype values. No operation can change a constant's name,
flag or aliases, because a Dafny datatype value cannot change.

## Model

| member | source | states |
|---|---|---|
| `SupportedFormats.Spec` | tds/src/main/java/thredds/server/ncss/format/SupportedFormat.java:42-66 | each constant's alias list has at least two entries, and its second entry is the format name |
| `SupportedFormats.FormatName` | tds/src/main/java/thredds/server/ncss/format/SupportedFormat.java:68-70 | the format name is one of the format's own aliases (the second one) |
| `SupportedFormats.Aliases` | tds/src/main/java/thredds/server/ncss/format/SupportedFormat.java:73-75 | the alias list is never empty |
| `SupportedFormats.IsStream` | tds/src/main/java/thredds/server/ncss/format/SupportedFormat.java:88-90 | true exactly for `CsvStream` and `XmlStream`, false for the other six |
| `SupportedFormats.AnyAliasMatches` | tds/src/main/java/thredds/server/ncss/format/SupportedFormat.java:77-81 | the in-order search returns true iff some entry equals `want` ignoring case |
| `SupportedFormats.IsAlias` | tds/src/main/java/thredds/server/ncss/format/SupportedFormat.java:77-81 | true iff some alias of the format equals `want` ignoring ASCII case; false for every string that matches no alias |
| `SupportedFormats.ResponseContentType` | tds/src/main/java/thredds/server/ncss/format/SupportedFormat.java:83-86 | defined for every constant; exactly the first alias; an alias of the format that `IsAlias` accepts; not the format name |
| `SupportedFormats.AliasesHaveNoUpper` | tds/src/main/java/thredds/server/ncss/format/SupportedFormat.java:42-51 | no alias contains an upper-case letter |
| `SupportedFormats.AliasesAreLowerCase` | tds/src/main/java/thredds/server/ncss/format/SupportedFormat.java:42-51 | every alias is its own lower-case form |
| `SupportedFormats.SharedAliasString` | tds/src/main/java/thredds/server/ncss/format/SupportedFormat.java:42-51 | a string listed by two different formats is "text/plain", and the two are `CsvStream` and `Wkt` |
| `SupportedFormats.IsAliasIffLowerIsAlias` | tds/src/main/java/thredds/server/ncss/format/SupportedFormat.java:77-81 | in the ASCII model, `IsAlias(f, want)` holds iff the ASCII lower-case form of `want` is in the alias list |
| `SupportedFormats.IsAliasCaseInsensitive` | tds/src/main/java/thredds/server/ncss/format/SupportedFormat.java:79 | in the ASCII model, two arguments equal ignoring ASCII case get the same answer from `IsAlias` |
| `SupportedFormats.IsAliasIgnoresLetterCase` | tds/src/main/java/thredds/server/ncss/format/SupportedFormat.java:79 | in the ASCII model, ASCII lower-casing or upper-casing the argument never changes the answer of `IsAlias` |
| `SupportedFormats.FormatNameIsAlias` | tds/src/main/java/thredds/server/ncss/format/SupportedFormat.java:42-51 | `isAlias(getFormatName())` is true for every constant, and so is `isAlias` of the name in any letter case |
| `SupportedFormats.FormatNamesDistinct` | tds/src/main/java/thredds/server/ncss/format/SupportedFormat.java:42-51 | two constants whose names are equal, even ignoring case, are the same constant |
| `SupportedFormats.SharedAliasIsTextPlain` | tds/src/main/java/thredds/server/ncss/format/SupportedFormat.java:42-51 | a string that `IsAlias` accepts for two different formats is "text/plain" up to ASCII case, and the formats are `CsvStream` and `Wkt` |
| `SupportedFormats.TextPlainIsShared` | tds/src/main/java/thredds/server/ncss/format/SupportedFormat.java:42-51 | "text/plain" is the content type and an accepted alias of both `CsvStream` and `Wkt`, so aliases are not unique |
| `SupportedFormats.ContentTypesShared` | tds/src/main/java/thredds/server/ncss/format/SupportedFormat.java:83-86 | two different constants with the same response content type are `CsvStream` and `Wkt` |
| `AsciiCase.CharEqualsIgnoreCase` | tds/src/main/java/thredds/server/ncss/format/SupportedFormat.java:79 | Java's per-character rule (identical, equal after upper-casing, or equal after lower-casing the upper-case forms), ASCII only; holds iff the lower-case forms agree |
| `AsciiCase.EqualsIgnoreCase` | tds/src/main/java/thredds/server/ncss/format/SupportedFormat.java:79 | same length, and each pair of characters is identical, equal after upper-casing, or equal after lower-casing the upper-case forms (Java's per-character rule, ASCII only); holds iff the lengths agree and every position has the same lower-case form |
| `AsciiCase.ToUpper` | tds/src/main/java/thredds/server/ncss/format/SupportedFormat.java:79 | the result is never a lower-case letter; lower-case letters move 32 code points down, everything else is unchanged |
| `AsciiCase.ToLower` | tds/src/main/java/thredds/server/ncss/format/SupportedFormat.java:79 | the result is never an upper-case letter; upper-case letters move 32 code points up, everything else is unchanged |
| `AsciiCase.LowerString` | tds/src/main/java/thredds/server/ncss/format/SupportedFormat.java:79 | same length as the input, each character lower-cased |
| `AsciiCase.UpperString` | tds/src/main/java/thredds/server/ncss/format/SupportedFormat.java:79 | same length as the input, each character upper-cased |
| `AsciiCase.EqualsIgnoreCaseIffLowerEqual` | tds/src/main/java/thredds/server/ncss/format/SupportedFormat.java:79 | `equalsIgnoreCase` holds iff the lower-cased strings are equal |
| `AsciiCase.EqualsIgnoreCaseReflexive` | tds/src/main/java/thredds/server/ncss/format/SupportedFormat.java:79 | every string equals itself ignoring case |
| `AsciiCase.EqualsIgnoreCaseSymmetric` | tds/src/main/java/thredds/server/ncss/format/SupportedFormat.java:79 | the comparison does not depend on argument order |
| `AsciiCase.EqualsIgnoreCaseTransitive` | tds/src/main/java/thredds/server/ncss/format/SupportedFormat.java:79 | the comparison is transitive |
| `AsciiCase.CaseChangeEqualsIgnoreCase` | tds/src/main/java/thredds/server/ncss/format/SupportedFormat.java:79 | a string equals its lower-case and its upper-case form ignoring case |
| `AsciiCase.NoUpperIsLowerFixpoint` | tds/src/main/java/thredds/server/ncss/format/SupportedFormat.java:79 | a string has no upper-case letter iff lower-casing leaves it unchanged |

## Left out

- `IsAlias`: a `null` argument is not modelled. Dafny strings are never null; in Java `isAlias(null)` returns false, since `equalsIgnoreCase(null)` is false.
- `IsAlias`, `AsciiCase.EqualsIgnoreCase`, `SupportedFormats.IsAliasIffLowerIsAlias`, `SupportedFormats.IsAliasCaseInsensitive`, `SupportedFormats.IsAliasIgnoresLetterCase`: case folding is ASCII only. Java's `equalsIgnoreCase` uses `Character.toUpperCase` and `Character.toLowerCase` over all of Unicode, and some non-ASCII characters map onto ASCII letters (U+017F long s upper-cases to 'S', U+0131 dotless i to 'I', U+212A Kelvin sign lower-cases to 'k'). The model differs from Java exactly on arguments that contain such characters: Java's `CSV_STREAM.isAlias("c\u017Fv")` and `JSON.isAlias("appl\u0131cation/json")` are true, the model's `IsAlias` is false for both. The case lemmas are facts of the ASCII model.
- How the response content type is written into HTTP headers happens outside `SupportedFormat.java` and is not part of this model.
- The implicit enumeration members (`values`, `valueOf`, `name`, `ordinal`) are never used in `SupportedFormat.java` and are not modelled.
- `Collections.unmodifiableList` has no counterpart: a Dafny `seq` cannot be mutated, so the aliases cannot change after construction.
- cdm/src/test/java/ucar/nc2/ft/TestFmrc.java is not part of this model: it is a test harness that opens external data files and calls the forecast aggregation engine (`Fmrc`), whose source is not part of this model.
- opendap/src/main/java/opendap/dap/DFloat32.java is not part of this model: it holds a 32-bit floating-point value and its methods are stream input and output.
