/**
 * The Facility Registry Service client: the request URL for one registry
 * id, the mapping of a reply to a `(registry_id, naics_code)` row, and the
 * processing of a DataFrame column of ids. The HTTP round trip is a
 * parameter `server` from URL to reply.
 */
module FrsApiQueries {
  import opened Wrappers
  import opened Queries

  /** The `frs_api` section of the configuration. */
  datatype FrsApi = FrsApi(
    baseUrl: string,
    frsFacilitySite: string,
    frsInterest: string,
    frsNaics: string,
    registryIdEquals: string,
    joinType: string,
    primaryIndicatorEquals: string,
    firstLast: string,
    format: string)

  /** The `str.format` field the registry id is substituted for. */
  const RegistryIdField := "frs_registry_id"

  /** `frs_facility_site/registry_id_equals`, with the id substituted in the whole string. */
  function Endpoint(cfg: FrsApi, registryId: string): string
  {
    Substitute(cfg.frsFacilitySite + "/" + cfg.registryIdEquals, RegistryIdField, registryId)
  }

  /** `join_type/frs_interest/join_type/frs_naics`. */
  function JoinEndpoint(cfg: FrsApi): string
  {
    cfg.joinType + "/" + cfg.frsInterest + "/" + cfg.joinType + "/" + cfg.frsNaics
  }

  /** `primary_indicator_equals/first_last/format`. */
  function PrimaryFilter(cfg: FrsApi): string
  {
    cfg.primaryIndicatorEquals + "/" + cfg.firstLast + "/" + cfg.format
  }

  /** What follows the endpoint: `/join_endpoint/primary_filter`. */
  function UrlTail(cfg: FrsApi): string
  {
    "/" + JoinEndpoint(cfg) + "/" + PrimaryFilter(cfg)
  }

  /** The URL `fetch_single_frs_data` requests: `base_url/endpoint/join_endpoint/primary_filter`. */
  function FullUrl(cfg: FrsApi, registryId: string): string
  {
    (cfg.baseUrl + "/") + Endpoint(cfg, registryId) + UrlTail(cfg)
  }

  /** A configuration whose `registry_id_equals` holds exactly one `{frs_registry_id}` field and no other brace. */
  predicate WellFormed(cfg: FrsApi, before: string, after: string)
  {
    cfg.registryIdEquals == before + Field(RegistryIdField) + after &&
    NoBrace(cfg.frsFacilitySite) && NoBrace(before) && NoBrace(after)
  }

  /** For a well-formed configuration, the endpoint is `frs_facility_site/` and the field's text with the id in its place. */
  lemma EndpointLayout(cfg: FrsApi, registryId: string, before: string, after: string)
    requires WellFormed(cfg, before, after)
    ensures Endpoint(cfg, registryId) == cfg.frsFacilitySite + "/" + before + registryId + after
  {
    var p := cfg.frsFacilitySite + "/" + before;
    assert NoBrace(p);
    assert cfg.frsFacilitySite + "/" + cfg.registryIdEquals == p + Field(RegistryIdField) + after;
    SubstituteOneField(p, after, RegistryIdField, registryId);
  }

  /** For a well-formed configuration, distinct ids are sent to distinct URLs. */
  lemma FullUrlIdentifiesId(cfg: FrsApi, a: string, b: string, before: string, after: string)
    requires WellFormed(cfg, before, after)
    requires FullUrl(cfg, a) == FullUrl(cfg, b)
    ensures a == b
  {
    SplicedInjective(cfg.baseUrl + "/", Endpoint(cfg, a), Endpoint(cfg, b), UrlTail(cfg));
    EndpointLayout(cfg, a, before, after);
    EndpointLayout(cfg, b, before, after);
    SplicedInjective(cfg.frsFacilitySite + "/" + before, a, b, after);
  }

  /** A JSON object of the reply, its values text or JSON null (None). */
  type JsonObject = map<string, Option<string>>

  /** One row of the result: the queried id and the NAICS code found for it. */
  datatype FrsRow = FrsRow(registryId: string, naicsCode: Option<string>)

  /**
   * The row `fetch_single_frs_data` returns for a reply: the first
   * element's `naics_code` (None when that key is absent) on a 200 status
   * with a non-empty payload, None otherwise.
   */
  function RowOf(registryId: string, reply: Response<seq<JsonObject>>): (r: FrsRow)
    ensures r.registryId == registryId
    ensures reply.status != 200 ==> r.naicsCode == None
    ensures reply.status == 200 && reply.payload == [] ==> r.naicsCode == None
    ensures reply.status == 200 && reply.payload != [] && "naics_code" in reply.payload[0] ==>
              r.naicsCode == reply.payload[0]["naics_code"]
    ensures reply.status == 200 && reply.payload != [] && "naics_code" !in reply.payload[0] ==>
              r.naicsCode == None
    ensures r.naicsCode.Some? ==> reply.status == 200 && reply.payload != []
  {
    if reply.status == 200 then
      var naicsCode := if reply.payload != [] then
                         (if "naics_code" in reply.payload[0] then reply.payload[0]["naics_code"] else None)
                       else None;
      FrsRow(registryId, naicsCode)
    else
      FrsRow(registryId, None)
  }

  /** `fetch_all_frs_data`: one request per id, the rows in the order of the ids. */
  function FetchAll(cfg: FrsApi, registryIds: seq<string>, server: string -> Response<seq<JsonObject>>): (r: seq<FrsRow>)
    ensures |r| == |registryIds|
    ensures forall i :: 0 <= i < |r| ==> r[i] == RowOf(registryIds[i], server(FullUrl(cfg, registryIds[i])))
    decreases |registryIds|
  {
    if registryIds == [] then []
    else
      [RowOf(registryIds[0], server(FullUrl(cfg, registryIds[0])))] + FetchAll(cfg, registryIds[1..], server)
  }

  /** `process_registry_ids`: the id column deduplicated, then fetched; KeyError when the column is missing. */
  function ProcessRegistryIds(cfg: FrsApi, df: DataFrame, idColumn: string, server: string -> Response<seq<JsonObject>>):
    (r: Result<seq<FrsRow>, QueryError>)
    ensures r.Failure? <==> idColumn !in df
    ensures r.Failure? ==> r.error == KeyError(idColumn)
  {
    match Column(df, idColumn)
    case Failure(e) => Failure(e)
    case Success(ids) => Success(FetchAll(cfg, Unique(ids), server))
  }

  /**
   * The result has exactly one row per distinct id of the column, in the
   * order of first appearance, and each row carries the id it was fetched
   * for together with the reply to that id's URL.
   */
  lemma OneRowPerRegistryId(cfg: FrsApi, df: DataFrame, idColumn: string, server: string -> Response<seq<JsonObject>>)
    requires idColumn in df
    ensures var r := ProcessRegistryIds(cfg, df, idColumn, server);
            var ids := df[idColumn];
            r.Success? &&
            (forall id :: id in ids <==> exists i :: 0 <= i < |r.value| && r.value[i].registryId == id) &&
            (forall i, j :: 0 <= i < j < |r.value| ==> r.value[i].registryId != r.value[j].registryId) &&
            (forall i, j :: 0 <= i < j < |r.value| ==>
               FirstIndex(ids, r.value[i].registryId) < FirstIndex(ids, r.value[j].registryId)) &&
            (forall i :: 0 <= i < |r.value| ==>
               r.value[i] == RowOf(r.value[i].registryId, server(FullUrl(cfg, r.value[i].registryId))))
  {
    var ids := df[idColumn];
    var u := Unique(ids);
    var rows := FetchAll(cfg, u, server);
    assert ProcessRegistryIds(cfg, df, idColumn, server) == Success(rows);
    assert forall i :: 0 <= i < |rows| ==> rows[i].registryId == u[i];
    forall id | id in ids
      ensures exists i :: 0 <= i < |rows| && rows[i].registryId == id
    {
      var i :| 0 <= i < |u| && u[i] == id;
      assert rows[i].registryId == id;
    }
  }

  /** A failed request still yields its row, with no NAICS code. */
  lemma FailedRequestKeepsId(cfg: FrsApi, registryIds: seq<string>, server: string -> Response<seq<JsonObject>>, i: nat)
    requires i < |registryIds| && server(FullUrl(cfg, registryIds[i])).status != 200
    ensures FetchAll(cfg, registryIds, server)[i] == FrsRow(registryIds[i], None)
  {
  }
}
