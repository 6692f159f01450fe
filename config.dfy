/**
 * The configuration dataclasses with their field defaults, and the loose
 * key/value view of one configuration entry that the loader reads.
 */
module Config {
  import opened Wrappers
  import opened Schema

  /** `IndustrySector`: `naics_code` defaults to the empty list. */
  datatype IndustrySector = IndustrySector(description: string, naicsCode: seq<string> := [])

  /** `PlasticAdditive`: `tri_chem_id` defaults to the empty list. */
  datatype PlasticAdditive = PlasticAdditive(description: string, triChemId: seq<string> := [])

  /** `NeededColumn`: only `name` is required; the release-type field is spelled `relase_type` in the source. */
  datatype NeededColumn = NeededColumn(
    name: string,
    relaseType: Option<string> := None,
    managementType: Option<string> := None,
    isHazardousWaste: Option<bool> := None,
    isLandfilling: Option<bool> := None,
    isRecycling: Option<bool> := None,
    isForMetals: Option<bool> := None,
    isWastewater: Option<bool> := None,
    isBrokering: Option<bool> := None,
    isIncineration: Option<bool> := None,
    description: Option<string> := None)

  /** `FileConfig`: `needed_columns` defaults to the empty list. */
  datatype FileConfig = FileConfig(neededColumns: seq<NeededColumn> := [])

  /** `TriFiles`: the four TRI file configurations. */
  datatype TriFiles = TriFiles(file1a: FileConfig, file1b: FileConfig, file3a: FileConfig, file3c: FileConfig)

  /** `MainConfig`: note the field is `plastics_additives`. */
  datatype MainConfig = MainConfig(
    industrySectors: IndustrySector,
    plasticsAdditives: PlasticAdditive,
    triFiles: TriFiles)

  /** The field names `NeededColumn` declares, as the keys of its mapping view. */
  const NeededColumnFields: set<string> :=
    {"name", "relase_type", "management_type", "is_hazardous_waste", "is_landfilling",
     "is_recycling", "is_for_metals", "is_wastewater", "is_brokering", "is_incineration",
     "description"}

  /** One configuration entry as the loader sees it: `entry.get(key)` and `entry[key]` on a mapping. */
  type Entry = map<string, Value>

  function TextOrNull(o: Option<string>): Value
  {
    match o
    case None => Null
    case Some(s) => Text(s)
  }

  function BoolOrNull(o: Option<bool>): Value
  {
    match o
    case None => Null
    case Some(b) => Bool(b)
  }

  /**
   * A `NeededColumn` seen as a mapping: one key per declared field, unset
   * optional fields mapped to None. It has neither a `depends_on` nor an
   * `is_general_info` key.
   */
  function NeededColumnEntry(nc: NeededColumn): (e: Entry)
    ensures e.Keys == NeededColumnFields
    ensures "depends_on" !in e && "is_general_info" !in e
    ensures e["name"] == Text(nc.name)
    ensures e["description"] == (if nc.description.Some? then Text(nc.description.value) else Null)
  {
    map["name" := Text(nc.name),
        "relase_type" := TextOrNull(nc.relaseType),
        "management_type" := TextOrNull(nc.managementType),
        "is_hazardous_waste" := BoolOrNull(nc.isHazardousWaste),
        "is_landfilling" := BoolOrNull(nc.isLandfilling),
        "is_recycling" := BoolOrNull(nc.isRecycling),
        "is_for_metals" := BoolOrNull(nc.isForMetals),
        "is_wastewater" := BoolOrNull(nc.isWastewater),
        "is_brokering" := BoolOrNull(nc.isBrokering),
        "is_incineration" := BoolOrNull(nc.isIncineration),
        "description" := TextOrNull(nc.description)]
  }

  /** A `NeededColumn` built from a name alone carries None in every other field. */
  lemma NeededColumnDefaults(name: string)
    ensures forall k :: k in NeededColumnFields && k != "name" ==> NeededColumnEntry(NeededColumn(name))[k] == Null
  {
  }

  /** The list-valued fields default to empty lists. */
  lemma ListFieldDefaults(description: string)
    ensures IndustrySector(description).naicsCode == []
    ensures PlasticAdditive(description).triChemId == []
    ensures FileConfig().neededColumns == []
  {
  }
}
