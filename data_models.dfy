/**
 * The ORM entities: one datatype per mapped class, with the nullability of
 * each column as `Option` and the boolean defaults as constructor defaults;
 * the column table the generic session works from; the row encoding of each
 * entity; the end-of-life / release-type exclusivity of a record; and the
 * record / chemical-activity association as a set of pairs.
 */
module DataModels {
  import opened Wrappers
  import opened Schema

  // ---------------------------------------------------------------------
  // Typed entities
  // ---------------------------------------------------------------------

  datatype Additive = Additive(id: int, name: string, triChemicalId: string)

  datatype IndustrySector = IndustrySector(id: int, naicsCode: string, naicsTitle: Option<string> := None)

  datatype ChemicalActivity = ChemicalActivity(
    id: int,
    name: string,
    description: Option<string> := None,
    parentChemicalActivityId: Option<int> := None)

  datatype EndOfLifeActivity = EndOfLifeActivity(
    id: int,
    name: string,
    managementType: string,
    isOnSite: bool := false,
    isHazardousWaste: bool := false,
    isMetal: bool := false,
    isWastewater: bool := false,
    isRecycling: bool := false,
    isLandfilling: bool := false,
    isPotw: bool := false,
    isIncineration: bool := false,
    isBrokering: bool := false)

  datatype ReleaseType = ReleaseType(id: int, name: string, isOnSite: bool := false)

  datatype Record = Record(
    id: int,
    additiveId: int,
    wasteGeneratorIndustrySectorId: int,
    amount: real,
    endOfLifeActivityId: Option<int> := None,
    releaseTypeId: Option<int> := None,
    wasteHandlerIndustrySectorId: Option<int> := None)

  // ---------------------------------------------------------------------
  // The mapped classes as the generic session sees them
  // ---------------------------------------------------------------------

  /** The six mapped classes that `Model(**kwargs)` can construct. */
  datatype Model =
    | AdditiveModel
    | IndustrySectorModel
    | ChemicalActivityModel
    | EndOfLifeActivityModel
    | ReleaseTypeModel
    | RecordModel

  function TableOf(m: Model): TableName
  {
    match m
    case AdditiveModel => AdditiveTable
    case IndustrySectorModel => IndustrySectorTable
    case ChemicalActivityModel => ChemicalActivityTable
    case EndOfLifeActivityModel => EndOfLifeActivityTable
    case ReleaseTypeModel => ReleaseTypeTable
    case RecordModel => RecordTable
  }

  const EndOfLifeFlags: set<ColumnName> :=
    {IsOnSite, IsHazardousWaste, IsMetal, IsWastewater, IsRecycling,
     IsLandfilling, IsPotw, IsIncineration, IsBrokering}

  /** The columns of each class other than the autoincrement `id`. */
  function Columns(m: Model): set<ColumnName>
  {
    match m
    case AdditiveModel => {Name, TriChemicalId}
    case IndustrySectorModel => {NaicsCode, NaicsTitle}
    case ChemicalActivityModel => {Name, Description, ParentChemicalActivityId}
    case EndOfLifeActivityModel => {Name, ManagementType} + EndOfLifeFlags
    case ReleaseTypeModel => {Name, IsOnSite}
    case RecordModel =>
      {AdditiveId, WasteGeneratorIndustrySectorId, Amount,
       EndOfLifeActivityId, ReleaseTypeId, WasteHandlerIndustrySectorId}
  }

  /** Columns declared `nullable=True`. */
  predicate Nullable(m: Model, c: ColumnName)
  {
    match m
    case IndustrySectorModel => c == NaicsTitle
    case ChemicalActivityModel => c in {Description, ParentChemicalActivityId}
    case RecordModel => c in {EndOfLifeActivityId, ReleaseTypeId, WasteHandlerIndustrySectorId}
    case _ => false
  }

  /** The value a column takes when the constructor is not given it: `default=False` or None. */
  function Default(m: Model, c: ColumnName): Value
  {
    match m
    case EndOfLifeActivityModel => if c in EndOfLifeFlags then Bool(false) else Null
    case ReleaseTypeModel => if c == IsOnSite then Bool(false) else Null
    case _ => Null
  }

  /**
   * `Model(**kwargs)`: every keyword must name a column (else TypeError,
   * reported with the offending keywords); the row takes the given values
   * and each other column its default.
   */
  function Construct(m: Model, kwargs: Attrs): (r: Result<Attrs, DbError>)
    ensures r.Failure? <==> !(kwargs.Keys <= Columns(m))
    ensures r.Failure? ==> r.error == InvalidKeyword(kwargs.Keys - Columns(m))
    ensures r.Success? ==> r.value.Keys == Columns(m)
    ensures r.Success? ==> forall c :: c in kwargs ==> r.value[c] == kwargs[c]
    ensures r.Success? ==> forall c :: c in Columns(m) && c !in kwargs ==> r.value[c] == Default(m, c)
  {
    if kwargs.Keys <= Columns(m) then
      Success(map c | c in Columns(m) :: if c in kwargs then kwargs[c] else Default(m, c))
    else
      Failure(InvalidKeyword(kwargs.Keys - Columns(m)))
  }

  // ---------------------------------------------------------------------
  // Row encoding of the typed entities
  // ---------------------------------------------------------------------

  function TextOpt(o: Option<string>): Value
  {
    match o
    case None => Null
    case Some(s) => Text(s)
  }

  function IntOpt(o: Option<int>): Value
  {
    match o
    case None => Null
    case Some(i) => Int(i)
  }

  /** Reads a nullable text column; None when the stored value is not NULL or text. */
  function AsTextOpt(v: Value): Option<Option<string>>
  {
    match v
    case Null => Some(None)
    case Text(s) => Some(Some(s))
    case _ => None
  }

  function AsIntOpt(v: Value): Option<Option<int>>
  {
    match v
    case Null => Some(None)
    case Int(i) => Some(Some(i))
    case _ => None
  }

  function EncodeAdditive(a: Additive): Row
  {
    Row(a.id, map[Name := Text(a.name), TriChemicalId := Text(a.triChemicalId)])
  }

  function DecodeAdditive(r: Row): Option<Additive>
  {
    if r.attrs.Keys == Columns(AdditiveModel) && r.attrs[Name].Text? && r.attrs[TriChemicalId].Text? then
      Some(Additive(r.id, r.attrs[Name].s, r.attrs[TriChemicalId].s))
    else
      None
  }

  function EncodeActivity(a: ChemicalActivity): Row
  {
    Row(a.id, map[Name := Text(a.name),
                  Description := TextOpt(a.description),
                  ParentChemicalActivityId := IntOpt(a.parentChemicalActivityId)])
  }

  function DecodeActivity(r: Row): Option<ChemicalActivity>
  {
    if r.attrs.Keys == Columns(ChemicalActivityModel) && r.attrs[Name].Text?
       && AsTextOpt(r.attrs[Description]).Some? && AsIntOpt(r.attrs[ParentChemicalActivityId]).Some?
    then
      Some(ChemicalActivity(r.id, r.attrs[Name].s,
                            AsTextOpt(r.attrs[Description]).value,
                            AsIntOpt(r.attrs[ParentChemicalActivityId]).value))
    else
      None
  }

  /** An additive survives its row encoding, and a row decodes only to the additive that encodes to it. */
  lemma AdditiveRoundTrip(a: Additive, r: Row)
    ensures DecodeAdditive(EncodeAdditive(a)) == Some(a)
    ensures DecodeAdditive(r) == Some(a) ==> EncodeAdditive(a) == r
  {
    if DecodeAdditive(r) == Some(a) {
      assert EncodeAdditive(a).attrs == r.attrs;
    }
  }

  /** The same two directions for chemical activities. */
  lemma ActivityRoundTrip(a: ChemicalActivity, r: Row)
    ensures DecodeActivity(EncodeActivity(a)) == Some(a)
    ensures DecodeActivity(r) == Some(a) ==> EncodeActivity(a) == r
  {
    if DecodeActivity(r) == Some(a) {
      var e := EncodeActivity(a);
      assert e.attrs[Description] == r.attrs[Description] by {
        match r.attrs[Description] { case Null => case Text(_) => case _ => }
      }
      assert e.attrs[ParentChemicalActivityId] == r.attrs[ParentChemicalActivityId] by {
        match r.attrs[ParentChemicalActivityId] { case Null => case Int(_) => case _ => }
      }
      assert e.attrs == r.attrs;
    }
  }

  /** Reads a NOT NULL boolean column. */
  function AsBool(v: Value): Option<bool>
  {
    if v.Bool? then Some(v.b) else None
  }

  /** Reads an end-of-life row; None when a column is missing or holds a value of the wrong kind. */
  function DecodeEndOfLife(r: Row): Option<EndOfLifeActivity>
  {
    var a := r.attrs;
    if a.Keys == Columns(EndOfLifeActivityModel) && a[Name].Text? && a[ManagementType].Text?
       && (forall c :: c in EndOfLifeFlags ==> a[c].Bool?)
    then
      Some(EndOfLifeActivity(r.id, a[Name].s, a[ManagementType].s,
                             a[IsOnSite].b, a[IsHazardousWaste].b, a[IsMetal].b,
                             a[IsWastewater].b, a[IsRecycling].b, a[IsLandfilling].b,
                             a[IsPotw].b, a[IsIncineration].b, a[IsBrokering].b))
    else
      None
  }

  /**
   * Constructing an end-of-life activity from only its two non-null text
   * columns gives a row that reads back as the entity whose nine flags are
   * false: the column defaults and the datatype defaults agree.
   */
  lemma EndOfLifeDefaults(id: int, name: string, managementType: string)
    ensures Construct(EndOfLifeActivityModel, map[Name := Text(name), ManagementType := Text(managementType)]).Success?
    ensures DecodeEndOfLife(Row(id, Construct(EndOfLifeActivityModel,
              map[Name := Text(name), ManagementType := Text(managementType)]).value))
         == Some(EndOfLifeActivity(id, name, managementType))
  {
    var kw := map[Name := Text(name), ManagementType := Text(managementType)];
    var built := Construct(EndOfLifeActivityModel, kw).value;
    forall c | c in EndOfLifeFlags ensures built[c] == Bool(false) {
      assert c !in kw;
    }
  }

  /** A release type defaults to off-site, and no other column has a default. */
  lemma ReleaseTypeDefault(name: string)
    ensures Construct(ReleaseTypeModel, map[Name := Text(name)])
         == Success(map[Name := Text(name), IsOnSite := Bool(ReleaseType(0, name).isOnSite)])
    ensures !ReleaseType(0, name).isOnSite
  {
    var built := Construct(ReleaseTypeModel, map[Name := Text(name)]).value;
    assert built.Keys == {Name, IsOnSite};
    assert built == map[Name := Text(name), IsOnSite := Bool(false)];
  }

  /** The NOT NULL columns of a record are exactly the additive, the generator sector and the amount. */
  lemma RecordNullability(c: ColumnName)
    requires c in Columns(RecordModel)
    ensures !Nullable(RecordModel, c) <==> c in {AdditiveId, WasteGeneratorIndustrySectorId, Amount}
  {
  }

  // ---------------------------------------------------------------------
  // The self-referential activity hierarchy
  // ---------------------------------------------------------------------

  /** The `sub_activities` backref: the activities whose parent id is `parentId`, in table order. */
  function SubActivities(acts: seq<ChemicalActivity>, parentId: int): (r: seq<ChemicalActivity>)
    ensures forall a :: a in r <==> a in acts && a.parentChemicalActivityId == Some(parentId)
    ensures |r| <= |acts|
  {
    if acts == [] then []
    else
      var rest := SubActivities(acts[1..], parentId);
      assert forall a :: a in acts <==> a == acts[0] || a in acts[1..];
      if acts[0].parentChemicalActivityId == Some(parentId) then [acts[0]] + rest else rest
  }

  // ---------------------------------------------------------------------
  // A record refers to an end-of-life activity or a release type, not both
  // ---------------------------------------------------------------------

  /** The exclusivity the module documentation promises; the columns themselves do not enforce it. */
  predicate ValidRecord(r: Record)
  {
    !(r.endOfLifeActivityId.Some? && r.releaseTypeId.Some?)
  }

  /** The same choice as a tagged variant. */
  datatype RecordTarget = EndOfLife(endOfLifeId: int) | Release(releaseId: int) | NoTarget

  /** The two nullable foreign-key columns a target is stored as. */
  function TargetColumns(t: RecordTarget): (cols: (Option<int>, Option<int>))
    ensures !(cols.0.Some? && cols.1.Some?)
  {
    match t
    case EndOfLife(i) => (Some(i), None)
    case Release(i) => (None, Some(i))
    case NoTarget => (None, None)
  }

  /** Reads a record's target back; defined exactly on the records that are valid. */
  function TargetOf(r: Record): (t: Option<RecordTarget>)
    ensures t.Some? <==> ValidRecord(r)
    ensures t.Some? ==> TargetColumns(t.value) == (r.endOfLifeActivityId, r.releaseTypeId)
  {
    match (r.endOfLifeActivityId, r.releaseTypeId)
    case (Some(e), Some(_)) => None
    case (Some(e), None) => Some(EndOfLife(e))
    case (None, Some(k)) => Some(Release(k))
    case (None, None) => Some(NoTarget)
  }

  /** Storing a target and reading it back gives the target, and the stored record is valid. */
  lemma TargetRoundTrip(r: Record, t: RecordTarget)
    requires (r.endOfLifeActivityId, r.releaseTypeId) == TargetColumns(t)
    ensures ValidRecord(r) && TargetOf(r) == Some(t)
  {
    match t
    case EndOfLife(_) =>
    case Release(_) =>
    case NoTarget =>
  }

  // ---------------------------------------------------------------------
  // The record / chemical-activity association
  // ---------------------------------------------------------------------

  /** Rows of `record_chemical_activity`; the composite primary key makes the table a set of pairs. */
  type RecordChemicalActivity = set<(int, int)>

  /** Inserting a link: a pair already present violates the primary key. */
  function Link(links: RecordChemicalActivity, recordId: int, activityId: int): (r: Result<RecordChemicalActivity, DbError>)
    ensures r.Failure? <==> (recordId, activityId) in links
    ensures r.Failure? ==> r.error == IntegrityError
    ensures r.Success? ==> r.value == links + {(recordId, activityId)} && |r.value| == |links| + 1
  {
    if (recordId, activityId) in links then Failure(IntegrityError)
    else Success(links + {(recordId, activityId)})
  }

  /** The chemical activities a record is tagged with. */
  function ActivitiesOf(links: RecordChemicalActivity, recordId: int): (r: set<int>)
    ensures forall a :: a in r <==> (recordId, a) in links
  {
    set p | p in links && p.0 == recordId :: p.1
  }
}
