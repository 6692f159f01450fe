/**
 * The Census Bureau NAICS client: the fetcher object and its API-key
 * check, the request URL for one NAICS code, the mapping of a reply to a
 * `(naics_code, naics_title)` row, and the processing of a DataFrame column
 * of codes. The environment after `load_dotenv` is a parameter `env`; the
 * HTTP round trip is a parameter `server` from URL to reply.
 */
module NaicsApiQueries {
  import opened Wrappers
  import opened Queries

  /** The `census_api` section of the configuration, with its three request parameters. */
  datatype CensusApi = CensusApi(
    baseUrl: string,
    year: string,
    dataset: string,
    getParameter: string,
    forParameter: string,
    naicsCodeParameter: string)

  const ApiKeyName := "CENSUS_DATA_API_KEY"

  const MissingKeyMessage :=
    "CENSUS_DATA_API_KEY not found. Please ensure the .env file is present and contains the API key."

  /** `_load_api_key`: the key from the environment; EnvironmentError when it is unset or empty. */
  function LoadApiKey(env: map<string, string>): (r: Result<string, string>)
    ensures r.Success? <==> ApiKeyName in env && env[ApiKeyName] != ""
    ensures r.Success? ==> r.value == env[ApiKeyName] && r.value != ""
    ensures r.Failure? ==> r.error == MissingKeyMessage
  {
    if ApiKeyName in env && env[ApiKeyName] != "" then Success(env[ApiKeyName])
    else Failure(MissingKeyMessage)
  }

  /** `census_api.base_url/year/dataset`. */
  function BaseUrl(cfg: CensusApi): string
  {
    cfg.baseUrl + "/" + cfg.year + "/" + cfg.dataset
  }

  /** The `str.format` field the NAICS code is substituted for. */
  const NaicsCodeField := "naics_code"

  /** A configuration whose NAICS-code parameter holds exactly one `{naics_code}` field and no other brace. */
  predicate WellFormed(cfg: CensusApi, before: string, after: string)
  {
    cfg.naicsCodeParameter == before + Field(NaicsCodeField) + after &&
    NoBrace(before) && NoBrace(after)
  }

  /** A result row: the queried code and the title found for it. */
  datatype NaicsRow = NaicsRow(naicsCode: string, naicsTitle: Option<string>)

  /** The JSON payload of a reply: a list of rows of text cells, the first row the header. */
  type Table = seq<seq<string>>

  /**
   * The row `_fetch_single_naics_data` returns for a reply: on a 200 status
   * the first cell of the second row (None when there is no second row, an
   * IndexError when that row is empty); None on any other status.
   */
  function RowOf(naicsCode: string, reply: Response<Table>): (r: Result<NaicsRow, QueryError>)
    ensures r.Failure? <==> reply.status == 200 && |reply.payload| > 1 && reply.payload[1] == []
    ensures r.Failure? ==> r.error == IndexError
    ensures r.Success? ==> r.value.naicsCode == naicsCode
    ensures r.Success? && reply.status != 200 ==> r.value.naicsTitle == None
    ensures r.Success? && reply.status == 200 && |reply.payload| <= 1 ==> r.value.naicsTitle == None
    ensures r.Success? && reply.status == 200 && |reply.payload| > 1 ==>
              r.value.naicsTitle == Some(reply.payload[1][0])
  {
    if reply.status == 200 then
      if |reply.payload| > 1 then
        if reply.payload[1] == [] then Failure(IndexError)
        else Success(NaicsRow(naicsCode, Some(reply.payload[1][0])))
      else Success(NaicsRow(naicsCode, None))
    else
      Success(NaicsRow(naicsCode, None))
  }

  /** Whether every code's reply maps to a row without an error. */
  ghost predicate AllFetched(codes: seq<string>, fetch: string -> Response<Table>, url: string -> string)
  {
    forall i :: 0 <= i < |codes| ==> RowOf(codes[i], fetch(url(codes[i]))).Success?
  }

  /** `NaicsDataFetcher`: the configuration, the API key and the base URL, fixed at construction. */
  class NaicsDataFetcher {
    const cfg: CensusApi
    const censusApiKey: string
    const baseUrl: string

    /** The object `__init__` leaves behind once the key has been found. */
    constructor(cfg: CensusApi, censusApiKey: string)
      requires censusApiKey != ""
      ensures this.cfg == cfg && this.censusApiKey == censusApiKey && baseUrl == BaseUrl(cfg)
    {
      this.cfg := cfg;
      this.censusApiKey := censusApiKey;
      baseUrl := BaseUrl(cfg);
    }

    /**
     * `NaicsDataFetcher(cfg)`: the key is loaded first, so a missing or
     * empty key fails before any object (or base URL) exists.
     */
    static method Create(cfg: CensusApi, env: map<string, string>) returns (r: Result<NaicsDataFetcher, string>)
      ensures r.Success? <==> LoadApiKey(env).Success?
      ensures r.Failure? ==> r.error == MissingKeyMessage
      ensures r.Success? ==> fresh(r.value) && r.value.cfg == cfg &&
                             r.value.censusApiKey == env[ApiKeyName] && r.value.baseUrl == BaseUrl(cfg)
    {
      var key := LoadApiKey(env);
      if key.Failure? {
        return Failure(key.error);
      }
      var fetcher := new NaicsDataFetcher(cfg, key.value);
      return Success(fetcher);
    }

    /** The URL `_fetch_single_naics_data` requests. */
    function FullUrl(naicsCode: string): string
    {
      baseUrl + "?get=" + cfg.getParameter + "&for=" + cfg.forParameter + "&" +
      Substitute(cfg.naicsCodeParameter, NaicsCodeField, naicsCode) + ("&key=" + censusApiKey)
    }

    /** The fixed text that precedes the code parameter. */
    function UrlHead(): string
    {
      baseUrl + "?get=" + cfg.getParameter + "&for=" + cfg.forParameter + "&"
    }

    /** For a well-formed configuration, the code sits in its field of the query string, the key last. */
    lemma FullUrlLayout(naicsCode: string, before: string, after: string)
      requires WellFormed(cfg, before, after)
      ensures FullUrl(naicsCode) == UrlHead() + (before + naicsCode + after) + ("&key=" + censusApiKey)
    {
      SubstituteOneField(before, after, NaicsCodeField, naicsCode);
    }

    /** For a well-formed configuration, distinct codes are sent to distinct URLs. */
    lemma FullUrlIdentifiesCode(a: string, b: string, before: string, after: string)
      requires WellFormed(cfg, before, after)
      requires FullUrl(a) == FullUrl(b)
      ensures a == b
    {
      FullUrlLayout(a, before, after);
      FullUrlLayout(b, before, after);
      SplicedInjective(UrlHead(), before + a + after, before + b + after, "&key=" + censusApiKey);
      SplicedInjective(before, a, b, after);
    }

    /**
     * `_fetch_all_naics_data`: one request per code, the rows in the order
     * of the codes; an IndexError in any request is raised by the gather.
     */
    function FetchAll(naicsCodes: seq<string>, server: string -> Response<Table>): (r: Result<seq<NaicsRow>, QueryError>)
      ensures r.Success? <==> AllFetched(naicsCodes, server, FullUrl)
      ensures r.Failure? ==> r.error == IndexError
      ensures r.Success? ==> |r.value| == |naicsCodes| &&
                             forall i :: 0 <= i < |naicsCodes| ==> r.value[i] == RowOf(naicsCodes[i], server(FullUrl(naicsCodes[i]))).value
      decreases |naicsCodes|
    {
      if naicsCodes == [] then Success([])
      else
        var first := RowOf(naicsCodes[0], server(FullUrl(naicsCodes[0])));
        var rest := FetchAll(naicsCodes[1..], server);
        assert forall i :: 1 <= i < |naicsCodes| ==> naicsCodes[i] == naicsCodes[1..][i - 1];
        if first.Failure? then Failure(first.error)
        else if rest.Failure? then
          assert !AllFetched(naicsCodes, server, FullUrl) by {
            var j :| 0 <= j < |naicsCodes[1..]| && !RowOf(naicsCodes[1..][j], server(FullUrl(naicsCodes[1..][j]))).Success?;
            assert naicsCodes[j + 1] == naicsCodes[1..][j];
          }
          Failure(rest.error)
        else Success([first.value] + rest.value)
    }

    /** `process_naics_codes`: the code column deduplicated, then fetched; KeyError when the column is missing. */
    function ProcessNaicsCodes(df: DataFrame, codeColumn: string, server: string -> Response<Table>):
      (r: Result<seq<NaicsRow>, QueryError>)
      ensures codeColumn !in df ==> r == Failure(KeyError(codeColumn))
      ensures codeColumn in df ==> r == FetchAll(Unique(df[codeColumn]), server)
    {
      match Column(df, codeColumn)
      case Failure(e) => Failure(e)
      case Success(codes) => FetchAll(Unique(codes), server)
    }

    /**
     * When every reply can be read, the result has exactly one row per
     * distinct code of the column, in the order of first appearance, each
     * row carrying its code together with the title read from that code's
     * reply; a failed request keeps its code with no title.
     */
    lemma OneRowPerCode(df: DataFrame, codeColumn: string, server: string -> Response<Table>)
      requires codeColumn in df
      requires AllFetched(Unique(df[codeColumn]), server, FullUrl)
      ensures var r := ProcessNaicsCodes(df, codeColumn, server);
              var codes := df[codeColumn];
              r.Success? &&
              (forall c :: c in codes <==> exists i :: 0 <= i < |r.value| && r.value[i].naicsCode == c) &&
              (forall i, j :: 0 <= i < j < |r.value| ==> r.value[i].naicsCode != r.value[j].naicsCode) &&
              (forall i, j :: 0 <= i < j < |r.value| ==>
                 FirstIndex(codes, r.value[i].naicsCode) < FirstIndex(codes, r.value[j].naicsCode)) &&
              (forall i :: 0 <= i < |r.value| ==>
                 RowOf(r.value[i].naicsCode, server(FullUrl(r.value[i].naicsCode))).Success? &&
                 r.value[i] == RowOf(r.value[i].naicsCode, server(FullUrl(r.value[i].naicsCode))).value) &&
              (forall i :: 0 <= i < |r.value| && server(FullUrl(r.value[i].naicsCode)).status != 200 ==>
                 r.value[i].naicsTitle == None)
    {
      var codes := df[codeColumn];
      var u := Unique(codes);
      var rows := FetchAll(u, server).value;
      assert forall i :: 0 <= i < |rows| ==> rows[i].naicsCode == u[i];
      forall c | c in codes
        ensures exists i :: 0 <= i < |rows| && rows[i].naicsCode == c
      {
        var i :| 0 <= i < |u| && u[i] == c;
        assert rows[i].naicsCode == c;
      }
    }

    /** A reply whose second row is empty makes the whole processing raise IndexError. */
    lemma EmptyTitleRowRaises(df: DataFrame, codeColumn: string, server: string -> Response<Table>, c: string)
      requires codeColumn in df && c in df[codeColumn]
      requires var reply := server(FullUrl(c)); reply.status == 200 && |reply.payload| > 1 && reply.payload[1] == []
      ensures ProcessNaicsCodes(df, codeColumn, server) == Failure(IndexError)
    {
      var u := Unique(df[codeColumn]);
      var k :| 0 <= k < |u| && u[k] == c;
      assert !RowOf(u[k], server(FullUrl(u[k]))).Success?;
    }
  }
}
