/**
 * Vocabulary shared by the ORM entities, the migration and the loader:
 * the fifteen table names, every column name that appears in the schema,
 * the SQL values a column can hold and the shape of a stored row.
 */
module Schema {

  /** The fifteen tables the initial migration creates. */
  datatype TableName =
    | AdditiveTable
    | ChemicalActivityTable
    | ConsumerCommercialFunctionCategoryTable
    | ConsumerCommercialProductCategoryTable
    | EndOfLifeActivityTable
    | IndustrialTypeOfProcessOrUseTable
    | IndustryFunctionCategoryTable
    | IndustrySectorTable
    | IndustryUseSectorTable
    | ReleaseTypeTable
    | ConsumerCommercialUseTable
    | IndustrialUseTable
    | IndustryUseSectorNaicsTable
    | RecordTable
    | RecordChemicalActivityTable

  /** The SQL name of each table. */
  function SqlName(t: TableName): string
  {
    match t
    case AdditiveTable => "additive"
    case ChemicalActivityTable => "chemical_activity"
    case ConsumerCommercialFunctionCategoryTable => "consumer_commercial_function_category"
    case ConsumerCommercialProductCategoryTable => "consumer_commercial_product_category"
    case EndOfLifeActivityTable => "end_of_life_activity"
    case IndustrialTypeOfProcessOrUseTable => "industrial_type_of_process_or_use"
    case IndustryFunctionCategoryTable => "industry_function_category"
    case IndustrySectorTable => "industry_sector"
    case IndustryUseSectorTable => "industry_use_sector"
    case ReleaseTypeTable => "release_type"
    case ConsumerCommercialUseTable => "consumer_commercial_use"
    case IndustrialUseTable => "industrial_use"
    case IndustryUseSectorNaicsTable => "industry_use_sector_naics"
    case RecordTable => "record"
    case RecordChemicalActivityTable => "record_chemical_activity"
  }

  /** The fifteen tables have fifteen distinct SQL names, so each `create_table`/`drop_table` names one table. */
  lemma SqlNameInjective(t: TableName, u: TableName)
    requires SqlName(t) == SqlName(u)
    ensures t == u
  {
  }

  /** Every column name used by some table, the surrogate `id` included. */
  datatype ColumnName =
    | Id
    | Name
    | TriChemicalId
    | Description
    | ParentChemicalActivityId
    | ManagementType
    | IsOnSite
    | IsHazardousWaste
    | IsMetal
    | IsWastewater
    | IsRecycling
    | IsLandfilling
    | IsPotw
    | IsIncineration
    | IsBrokering
    | NaicsCode
    | NaicsTitle
    | Code
    | AdditiveId
    | IndustrySectorId
    | ProductCategoryId
    | FunctionCategoryId
    | TypeOfUse
    | Percentage
    | IndustrialTypeOfProcessOrUseId
    | IndustryFunctionCategoryId
    | IndustryUseSectorId
    | NaicsCode2007
    | NaicsCode2012
    | NaicsCode2017
    | NaicsCode2022
    | WasteGeneratorIndustrySectorId
    | Amount
    | EndOfLifeActivityId
    | ReleaseTypeId
    | WasteHandlerIndustrySectorId
    | RecordId
    | ChemicalActivityId

  /** A value stored in a column; `Null` is SQL NULL (Python's None). Floats are exact reals here. */
  datatype Value = Null | Int(i: int) | Text(s: string) | Bool(b: bool) | Real(r: real)

  /** Keyword arguments of `filter_by(**kwargs)` and of `Model(**kwargs)`. */
  type Attrs = map<ColumnName, Value>

  /** A stored row: its autoincrement id and the values of its other columns. */
  datatype Row = Row(id: int, attrs: Attrs)

  /**
   * The exceptions a session call can raise: an unknown keyword argument
   * (TypeError from the ORM constructor, InvalidRequestError from filter_by),
   * `.one()` finding no row or several rows, a NOT NULL or UNIQUE violation
   * on commit, and a missing key in a configuration entry.
   */
  datatype DbError =
    | InvalidKeyword(columns: set<ColumnName>)
    | NoResultFound
    | MultipleResultsFound
    | IntegrityError
    | KeyError(key: string)
}
