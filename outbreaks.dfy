/**
 * The outbreak registry: the configured outbreaks, the schema each one is
 * checked against, how a schema is fetched, and which CSV source
 * `read_outbreak` reads for an outbreak.
 */
module Outbreaks {
  import opened Wrappers
  import opened Text

  /** One entry of an outbreak's plot list: the output kind it produces and the function that builds it. */
  datatype Step = Step(output: string, builder: string)

  /** An outbreak's configuration; the keys the registry may leave out are Options. */
  datatype OutbreakInfo = OutbreakInfo(
    id: string,
    description: string,
    plots: seq<Step>,
    additionalDateColumns: Option<seq<string>>,
    url: Option<string>,
    schema: Option<string>)

  const SchemaBase := "https://" + "raw.githubusercontent.com/globaldothealth/outbreak-schema/main/"

  const Marburg := OutbreakInfo(
    "GHL2023.D11.1D60.1",
    "Marburg 2023 Equatorial Guinea",
    [ Step("data", "get_counts"),
      Step("figure/epicurve", "plot_epicurve"),
      Step("figure/epicurve_location_status", "plot_timeseries_location_status"),
      Step("figure/age_gender", "plot_age_gender"),
      Step("figure/delay_distribution_consult", "plot_delay_distribution"),
      Step("figure/delay_distribution_death", "plot_delay_distribution")],
    Some(["Data_up_to"]),
    None,
    Some(SchemaBase + "outbreak.schema.json"))

  const Mpox2024 := OutbreakInfo(
    "GHL2024.D11.1E71",
    "Mpox 2024",
    [ Step("data", "get_counts"),
      Step("table/clades", "source_databutton"),
      Step("table/aggregate", "mpox_2024_aggregate"),
      Step("data", "get_countries_with_status"),
      Step("data", "get_countries_with_anyof_statuses"),
      Step("figure/epicurve_source_report", "plot_epicurve"),
      Step("figure/epicurve_confirmed", "plot_epicurve"),
      Step("figure/age_gender", "plot_age_gender")],
    None,
    Some("https://mpox-2024.s3.eu-central-1.amazonaws.com/latest.csv"),
    Some(SchemaBase + "GHL2024.D11.1E71.schema.json"))

  /** `OUTBREAKS`, keyed by the outbreak's short name. */
  const Registry: map<string, OutbreakInfo> := map["marburg" := Marburg, "mpox-2024" := Mpox2024]

  /** The exceptions the registry functions raise, returned as values. */
  datatype OutbreakError = AssertionError | ValueError | KeyError

  /**
   * The registry holds the two outbreaks under distinct identifiers; each
   * is checked against a JSON schema from the shared schema repository, and
   * only Mpox 2024 names a default data URL.
   */
  lemma RegistryFacts()
    ensures Registry.Keys == {"marburg", "mpox-2024"}
    ensures Registry["marburg"].id != Registry["mpox-2024"].id
    ensures forall o :: o in Registry ==>
      && Registry[o].schema.Some?
      && StartsWith(Registry[o].schema.value, SchemaBase)
      && StartsWith(Registry[o].schema.value, "http")
    ensures Registry["marburg"].url.None? && Registry["mpox-2024"].url.Some?
    ensures forall o :: o in Registry ==> |Registry[o].plots| > 0 && Registry[o].plots[0] == Step("data", "get_counts")
  {
    assert Registry["marburg"].id[6] != Registry["mpox-2024"].id[6];
    assert StartsWith(SchemaBase, "http") by {
      assert SchemaBase[..4] == "https://"[..4];
    }
    forall o | o in Registry
      ensures StartsWith(Registry[o].schema.value, SchemaBase)
      ensures StartsWith(Registry[o].schema.value, "http")
    {
      var s := Registry[o].schema.value;
      assert s[..|SchemaBase|] == SchemaBase;
      assert s[..4] == SchemaBase[..4];
    }
  }

  /** `get_schema_url`: the outbreak's schema location, or None; an unregistered outbreak is a KeyError. */
  function GetSchemaUrl(outbreak: string): (r: Result<Option<string>, OutbreakError>)
    ensures r.Err? <==> outbreak !in Registry
    ensures r.Err? ==> r.error == KeyError
  {
    if outbreak in Registry then Ok(Registry[outbreak].schema) else Err(KeyError)
  }

  /** Every registered outbreak has a schema URL, and it is fetched over HTTP. */
  lemma SchemaUrlEverywhere(outbreak: string)
    requires outbreak in Registry
    ensures GetSchemaUrl(outbreak).Ok? && GetSchemaUrl(outbreak).value.Some?
    ensures StartsWith(GetSchemaUrl(outbreak).value.value, "http")
  {
    RegistryFacts();
  }

  /** What `read_schema` is handed: text, or a path object. */
  datatype SchemaSource = SchemaText(text: string) | SchemaPath(path: string)

  /** The answer of the HTTP GET that fetches a schema. */
  datatype Response<J> = Response(statusCode: int, body: J)

  /**
   * `read_schema`, with the HTTP GET and the local file read (and JSON
   * decoding) as parameters: text starting with "http" is fetched, and
   * yields the decoded body on status 200 and nothing otherwise; any other
   * text, and any path, is read from the local file system.
   */
  function ReadSchema<J>(schema: SchemaSource, get: string -> Response<J>, readLocal: string -> J): (r: Option<J>)
    ensures schema.SchemaText? && StartsWith(schema.text, "http") ==>
      r == (if get(schema.text).statusCode == 200 then Some(get(schema.text).body) else None)
    ensures schema.SchemaText? && !StartsWith(schema.text, "http") ==> r == Some(readLocal(schema.text))
    ensures schema.SchemaPath? ==> r == Some(readLocal(schema.path))
  {
    match schema
    case SchemaText(s) =>
      if StartsWith(s, "http") then
        var res := get(s);
        if res.statusCode == 200 then Some(res.body) else None
      else Some(readLocal(s))
    case SchemaPath(p) => Some(readLocal(p))
  }

  /**
   * Reading the schema of a registered outbreak never touches the local file
   * system: it is the body of the GET on the schema URL when that answers
   * 200, and nothing otherwise.
   */
  lemma RegisteredSchemaIsFetched<J>(outbreak: string, get: string -> Response<J>, readLocal: string -> J)
    requires outbreak in Registry
    ensures var url := GetSchemaUrl(outbreak).value.value;
      var r := ReadSchema(SchemaText(url), get, readLocal);
      && (r.Some? <==> get(url).statusCode == 200)
      && (r.Some? ==> r.value == get(url).body)
  {
    SchemaUrlEverywhere(outbreak);
  }

  /** The call `read_outbreak` makes to `read_csv`. */
  datatype CsvCall = CsvCall(source: string, additionalDateColumns: seq<string>, convertDates: bool)

  /**
   * `read_outbreak`: an unregistered outbreak fails the assertion; no
   * `data_url` and no configured url is a ValueError; otherwise a non-empty
   * `data_url` is read, and an empty one falls back to the configured url,
   * a KeyError when there is none. The outbreak's additional date columns
   * default to none.
   */
  function ReadOutbreak(outbreak: string, dataUrl: Option<string>, convertDates: bool): (r: Result<CsvCall, OutbreakError>)
    ensures r.Ok? ==> r.value.convertDates == convertDates
    ensures r.Ok? ==>
      && outbreak in Registry
      && r.value.additionalDateColumns == (match Registry[outbreak].additionalDateColumns case Some(cs) => cs case None => [])
  {
    if outbreak !in Registry then Err(AssertionError)
    else
      var info := Registry[outbreak];
      if dataUrl.None? && info.url.None? then Err(ValueError)
      else
        var extra := match info.additionalDateColumns case Some(cs) => cs case None => [];
        if dataUrl.Some? && dataUrl.value != "" then Ok(CsvCall(dataUrl.value, extra, convertDates))
        else if info.url.Some? then Ok(CsvCall(info.url.value, extra, convertDates))
        else Err(KeyError)
  }

  /**
   * `read_outbreak` reads a CSV exactly when the outbreak is registered and
   * either a non-empty `data_url` is given, which is then read, or the
   * outbreak has a configured url, which is read otherwise; each failure
   * has its own exception.
   */
  lemma ReadOutbreakOutcome(outbreak: string, dataUrl: Option<string>, convertDates: bool)
    ensures var r := ReadOutbreak(outbreak, dataUrl, convertDates);
      && (r.Ok? <==> outbreak in Registry && ((dataUrl.Some? && dataUrl.value != "") || Registry[outbreak].url.Some?))
      && (r.Ok? && dataUrl.Some? && dataUrl.value != "" ==> r.value.source == dataUrl.value)
      && (r.Ok? && (dataUrl.None? || dataUrl.value == "") ==> r.value.source == Registry[outbreak].url.value)
      && (r == Err(AssertionError) <==> outbreak !in Registry)
      && (r == Err(ValueError) <==> outbreak in Registry && dataUrl.None? && Registry[outbreak].url.None?)
      && (r == Err(KeyError) <==> outbreak in Registry && dataUrl == Some("") && Registry[outbreak].url.None?)
  {
  }

  /** The two configured outbreaks: Marburg needs a data URL, Mpox 2024 reads its own. */
  lemma ReadOutbreakConfigured(convertDates: bool, u: string)
    requires u != ""
    ensures ReadOutbreak("marburg", None, convertDates) == Err(ValueError)
    ensures ReadOutbreak("marburg", Some(""), convertDates) == Err(KeyError)
    ensures ReadOutbreak("marburg", Some(u), convertDates) == Ok(CsvCall(u, ["Data_up_to"], convertDates))
    ensures ReadOutbreak("mpox-2024", None, convertDates)
         == Ok(CsvCall("https://mpox-2024.s3.eu-central-1.amazonaws.com/latest.csv", [], convertDates))
    ensures ReadOutbreak("ebola", Some(u), convertDates) == Err(AssertionError)
  {
    assert "ebola" !in Registry;
  }
}
