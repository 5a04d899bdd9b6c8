/**
 * The fixed table of output formats offered by the NetCDF subset service.
 *
 * Each format has a name, a flag saying whether its output is streamed,
 * and an ordered, non-empty list of aliases whose first entry is the
 * content type of the HTTP response.
 */
module SupportedFormats {
  import opened AsciiCase

  /** The eight constants, in declaration order. */
  datatype SupportedFormat =
    | CsvStream
    | CsvFile
    | XmlStream
    | XmlFile
    | NetCdf3
    | NetCdf4
    | Json
    | Wkt

  /** What a constant is built from: its name, its stream flag and its aliases. */
  datatype FormatSpec = FormatSpec(formatName: string, isStream: bool, aliases: seq<string>)

  /** The constructor arguments of each constant. */
  function Spec(f: SupportedFormat): (r: FormatSpec)
    ensures |r.aliases| >= 2 && r.aliases[1] == r.formatName
  {
    match f
    case CsvStream => FormatSpec("csv", true, ["text/plain", "csv"])
    case CsvFile => FormatSpec("csv_file", false, ["text/csv", "csv_file"])
    case XmlStream => FormatSpec("xml", true, ["application/xml", "xml"])
    case XmlFile => FormatSpec("xml_file", false, ["text/xml", "xml_file"])
    case NetCdf3 => FormatSpec("netcdf", false, ["application/x-netcdf", "netcdf"])
    case NetCdf4 => FormatSpec("netcdf4", false, ["application/x-netcdf4", "netcdf4"])
    case Json => FormatSpec("json", false, ["application/json", "json", "geojson"])
    case Wkt => FormatSpec("wkt", false, ["text/plain", "wkt"])
  }

  /** `getFormatName()`: the name, which is also the second alias. */
  function FormatName(f: SupportedFormat): (r: string)
    ensures |Aliases(f)| >= 2 && r == Aliases(f)[1]
    ensures r in Aliases(f)
  {
    Spec(f).formatName
  }

  /** `getAliases()`: never empty; the content type first, the name second. */
  function Aliases(f: SupportedFormat): (r: seq<string>)
    ensures |r| >= 2
  {
    Spec(f).aliases
  }

  /** No alias contains an upper-case letter. */
  lemma AliasesHaveNoUpper(f: SupportedFormat, i: int)
    requires 0 <= i < |Aliases(f)|
    ensures NoUpper(Aliases(f)[i])
  {
  }

  /** The one string listed as an alias by two different formats. */
  lemma SharedAliasString(f: SupportedFormat, g: SupportedFormat, x: string)
    requires f != g && x in Aliases(f) && x in Aliases(g)
    ensures x == "text/plain" && {f, g} == {CsvStream, Wkt}
  {
  }

  /** `isStream()`: only the two streaming formats. */
  function IsStream(f: SupportedFormat): (r: bool)
    ensures r <==> f == CsvStream || f == XmlStream
  {
    Spec(f).isStream
  }

  /** The search of `isAlias`: the aliases are tried in order, the first match decides. */
  function AnyAliasMatches(have: seq<string>, want: string): (r: bool)
    ensures r <==> exists i :: 0 <= i < |have| && EqualsIgnoreCase(have[i], want)
  {
    if have == [] then false
    else if EqualsIgnoreCase(have[0], want) then true
    else AnyAliasMatches(have[1..], want)
  }

  /** `isAlias(want)`: some alias equals `want` ignoring case. */
  function IsAlias(f: SupportedFormat, want: string): (r: bool)
    ensures r <==> exists i :: 0 <= i < |Aliases(f)| && EqualsIgnoreCase(Aliases(f)[i], want)
  {
    AnyAliasMatches(Aliases(f), want)
  }

  /** `getResponseContentType()`: the first alias, itself an alias of the format. */
  function ResponseContentType(f: SupportedFormat): (r: string)
    ensures |Aliases(f)| > 0 && r == Aliases(f)[0]
    ensures r in Aliases(f) && r != FormatName(f)
    ensures IsAlias(f, r)
  {
    var r := Aliases(f)[0];
    EqualsIgnoreCaseReflexive(r);
    r
  }

  /** Every alias is its own lower-case form. */
  lemma AliasesAreLowerCase(f: SupportedFormat, i: int)
    requires 0 <= i < |Aliases(f)|
    ensures LowerString(Aliases(f)[i]) == Aliases(f)[i]
  {
    AliasesHaveNoUpper(f, i);
    NoUpperIsLowerFixpoint(Aliases(f)[i]);
  }

  /**
   * Since every alias is lower case, `isAlias(want)` holds exactly when the
   * lower-case form of `want` is one of the aliases.
   */
  lemma IsAliasIffLowerIsAlias(f: SupportedFormat, want: string)
    ensures IsAlias(f, want) <==> LowerString(want) in Aliases(f)
  {
    var a := Aliases(f);
    if IsAlias(f, want) {
      var i :| 0 <= i < |a| && EqualsIgnoreCase(a[i], want);
      EqualsIgnoreCaseIffLowerEqual(a[i], want);
      AliasesAreLowerCase(f, i);
    }
    if LowerString(want) in a {
      var i :| 0 <= i < |a| && a[i] == LowerString(want);
      AliasesAreLowerCase(f, i);
      EqualsIgnoreCaseIffLowerEqual(a[i], want);
    }
  }

  /** `isAlias` cannot tell apart two strings that are equal ignoring case. */
  lemma IsAliasCaseInsensitive(f: SupportedFormat, a: string, b: string)
    requires EqualsIgnoreCase(a, b)
    ensures IsAlias(f, a) == IsAlias(f, b)
  {
  }

  /** Lower-casing or upper-casing the argument never changes the answer of `isAlias`. */
  lemma IsAliasIgnoresLetterCase(f: SupportedFormat, want: string)
    ensures IsAlias(f, LowerString(want)) == IsAlias(f, want)
    ensures IsAlias(f, UpperString(want)) == IsAlias(f, want)
  {
    CaseChangeEqualsIgnoreCase(want);
    EqualsIgnoreCaseSymmetric(want, LowerString(want));
    EqualsIgnoreCaseSymmetric(want, UpperString(want));
    IsAliasCaseInsensitive(f, LowerString(want), want);
    IsAliasCaseInsensitive(f, UpperString(want), want);
  }

  /** Each format recognises its own name, in any letter case. */
  lemma FormatNameIsAlias(f: SupportedFormat, want: string)
    requires EqualsIgnoreCase(want, FormatName(f))
    ensures IsAlias(f, want)
    ensures IsAlias(f, FormatName(f))
  {
  }

  /** Format names are pairwise distinct, even ignoring case. */
  lemma FormatNamesDistinct(f: SupportedFormat, g: SupportedFormat)
    requires EqualsIgnoreCase(FormatName(f), FormatName(g))
    ensures f == g
  {
    EqualsIgnoreCaseIffLowerEqual(FormatName(f), FormatName(g));
    AliasesAreLowerCase(f, 1);
    AliasesAreLowerCase(g, 1);
  }

  /**
   * Aliases are not unique across formats: a string that is an alias of two
   * different formats is "text/plain" up to case, and the two formats are
   * the CSV stream and WKT.
   */
  lemma SharedAliasIsTextPlain(f: SupportedFormat, g: SupportedFormat, want: string)
    requires f != g && IsAlias(f, want) && IsAlias(g, want)
    ensures LowerString(want) == "text/plain"
    ensures {f, g} == {CsvStream, Wkt}
  {
    IsAliasIffLowerIsAlias(f, want);
    IsAliasIffLowerIsAlias(g, want);
    SharedAliasString(f, g, LowerString(want));
  }

  /** "text/plain" is indeed the alias, and the response content type, of both. */
  lemma TextPlainIsShared()
    ensures CsvStream != Wkt
    ensures ResponseContentType(CsvStream) == ResponseContentType(Wkt) == "text/plain"
    ensures IsAlias(CsvStream, "text/plain") && IsAlias(Wkt, "text/plain")
  {
  }

  /** Only the CSV stream and WKT share a response content type. */
  lemma ContentTypesShared(f: SupportedFormat, g: SupportedFormat)
    requires f != g && ResponseContentType(f) == ResponseContentType(g)
    ensures {f, g} == {CsvStream, Wkt}
  {
  }
}
