/**
 * The initial migration: the uniqueness and foreign-key constraints of the
 * fifteen tables, the order `upgrade` creates them in and the order
 * `downgrade` drops them in, run against a database whose CREATE TABLE
 * refuses a foreign key to a table that does not exist yet and whose
 * DROP TABLE refuses a table another table still references.
 */
module Migration {
  import opened Schema

  /** A foreign-key constraint: the referencing column, the referenced table, and whether the column is nullable. */
  datatype ForeignKey = ForeignKey(column: ColumnName, target: TableName, nullable: bool)

  /** The single-column UNIQUE constraints of each table. */
  function Unique(t: TableName): set<ColumnName>
  {
    match t
    case AdditiveTable => {Name, TriChemicalId}
    case ChemicalActivityTable => {Name}
    case ConsumerCommercialFunctionCategoryTable => {Name}
    case ConsumerCommercialProductCategoryTable => {Name}
    case EndOfLifeActivityTable => {Name}
    case IndustrialTypeOfProcessOrUseTable => {Name}
    case IndustryFunctionCategoryTable => {Name}
    case IndustrySectorTable => {NaicsCode}
    case IndustryUseSectorTable => {Code}
    case ReleaseTypeTable => {Name}
    case IndustryUseSectorNaicsTable => {NaicsCode2007}
    case _ => {}
  }

  /** The foreign-key constraints of each table, in declaration order. */
  function ForeignKeys(t: TableName): seq<ForeignKey>
  {
    match t
    case ChemicalActivityTable =>
      [ForeignKey(ParentChemicalActivityId, ChemicalActivityTable, true)]
    case ConsumerCommercialUseTable =>
      [ForeignKey(AdditiveId, AdditiveTable, false),
       ForeignKey(FunctionCategoryId, ConsumerCommercialFunctionCategoryTable, true),
       ForeignKey(IndustrySectorId, IndustrySectorTable, false),
       ForeignKey(ProductCategoryId, ConsumerCommercialProductCategoryTable, true)]
    case IndustrialUseTable =>
      [ForeignKey(AdditiveId, AdditiveTable, false),
       ForeignKey(IndustrialTypeOfProcessOrUseId, IndustrialTypeOfProcessOrUseTable, true),
       ForeignKey(IndustryFunctionCategoryId, IndustryFunctionCategoryTable, true),
       ForeignKey(IndustrySectorId, IndustrySectorTable, true),
       ForeignKey(IndustryUseSectorId, IndustryUseSectorTable, true)]
    case IndustryUseSectorNaicsTable =>
      [ForeignKey(IndustrySectorId, IndustrySectorTable, true),
       ForeignKey(IndustryUseSectorId, IndustryUseSectorTable, false)]
    case RecordTable =>
      [ForeignKey(AdditiveId, AdditiveTable, false),
       ForeignKey(EndOfLifeActivityId, EndOfLifeActivityTable, true),
       ForeignKey(ReleaseTypeId, ReleaseTypeTable, true),
       ForeignKey(WasteGeneratorIndustrySectorId, IndustrySectorTable, false),
       ForeignKey(WasteHandlerIndustrySectorId, IndustrySectorTable, true)]
    case RecordChemicalActivityTable =>
      [ForeignKey(ChemicalActivityId, ChemicalActivityTable, false),
       ForeignKey(RecordId, RecordTable, false)]
    case _ => []
  }

  /** The tables a table's foreign keys point at. */
  function Targets(t: TableName): set<TableName>
  {
    match t
    case ChemicalActivityTable => {ChemicalActivityTable}
    case ConsumerCommercialUseTable =>
      {AdditiveTable, ConsumerCommercialFunctionCategoryTable, IndustrySectorTable,
       ConsumerCommercialProductCategoryTable}
    case IndustrialUseTable =>
      {AdditiveTable, IndustrialTypeOfProcessOrUseTable, IndustryFunctionCategoryTable,
       IndustrySectorTable, IndustryUseSectorTable}
    case IndustryUseSectorNaicsTable => {IndustrySectorTable, IndustryUseSectorTable}
    case RecordTable => {AdditiveTable, EndOfLifeActivityTable, ReleaseTypeTable, IndustrySectorTable}
    case RecordChemicalActivityTable => {ChemicalActivityTable, RecordTable}
    case _ => {}
  }

  /** `Targets` is exactly the set of tables the foreign-key constraints name. */
  lemma TargetsAreForeignKeyTargets(t: TableName)
    ensures Targets(t) == set fk | fk in ForeignKeys(t) :: fk.target
  {
    var fks := ForeignKeys(t);
    var named := set fk | fk in fks :: fk.target;
    forall u | u in named ensures u in Targets(t) {
      var fk :| fk in fks && fk.target == u;
    }
    forall k | 0 <= k < |fks| ensures fks[k].target in named {
      assert fks[k] in fks;
    }
  }

  /** The position of each table in `UpgradeOrder`. */
  function UpgradeRank(t: TableName): nat
  {
    match t
    case AdditiveTable => 0
    case ChemicalActivityTable => 1
    case ConsumerCommercialFunctionCategoryTable => 2
    case ConsumerCommercialProductCategoryTable => 3
    case EndOfLifeActivityTable => 4
    case IndustrialTypeOfProcessOrUseTable => 5
    case IndustryFunctionCategoryTable => 6
    case IndustrySectorTable => 7
    case IndustryUseSectorTable => 8
    case ReleaseTypeTable => 9
    case ConsumerCommercialUseTable => 10
    case IndustrialUseTable => 11
    case IndustryUseSectorNaicsTable => 12
    case RecordTable => 13
    case RecordChemicalActivityTable => 14
  }

  const UpgradeOrder: seq<TableName> := [
    AdditiveTable, ChemicalActivityTable, ConsumerCommercialFunctionCategoryTable,
    ConsumerCommercialProductCategoryTable, EndOfLifeActivityTable,
    IndustrialTypeOfProcessOrUseTable, IndustryFunctionCategoryTable, IndustrySectorTable,
    IndustryUseSectorTable, ReleaseTypeTable, ConsumerCommercialUseTable, IndustrialUseTable,
    IndustryUseSectorNaicsTable, RecordTable, RecordChemicalActivityTable]

  const DowngradeOrder: seq<TableName> := [
    RecordChemicalActivityTable, RecordTable, IndustryUseSectorNaicsTable, IndustrialUseTable,
    ConsumerCommercialUseTable, ReleaseTypeTable, IndustryUseSectorTable, IndustrySectorTable,
    IndustryFunctionCategoryTable, IndustrialTypeOfProcessOrUseTable, EndOfLifeActivityTable,
    ConsumerCommercialProductCategoryTable, ConsumerCommercialFunctionCategoryTable,
    ChemicalActivityTable, AdditiveTable]

  /** The `record` table: non-null references to the additive and the generator sector, nullable ones to the rest. */
  lemma RecordReferences()
    ensures Targets(RecordTable) == {AdditiveTable, EndOfLifeActivityTable, ReleaseTypeTable, IndustrySectorTable}
    ensures forall fk :: fk in ForeignKeys(RecordTable) ==>
              (fk.nullable <==> fk.column in {EndOfLifeActivityId, ReleaseTypeId, WasteHandlerIndustrySectorId})
  {
    var fks := ForeignKeys(RecordTable);
    assert fks[0].target == AdditiveTable && fks[1].target == EndOfLifeActivityTable;
    assert fks[2].target == ReleaseTypeTable && fks[3].target == IndustrySectorTable;
  }

  /** The only self-reference is `chemical_activity.parent_chemical_activity_id`, and it is nullable. */
  lemma SelfReferences(t: TableName)
    ensures t in Targets(t) <==> t == ChemicalActivityTable
    ensures forall fk :: fk in ForeignKeys(ChemicalActivityTable) ==>
              fk == ForeignKey(ParentChemicalActivityId, ChemicalActivityTable, true)
  {
    TargetsAreForeignKeyTargets(t);
  }

  /** `UpgradeRank` inverts indexing into `UpgradeOrder`, which therefore lists every table once. */
  lemma UpgradeRankIndexes()
    ensures |UpgradeOrder| == 15
    ensures forall t :: UpgradeRank(t) < 15 && UpgradeOrder[UpgradeRank(t)] == t
    ensures forall i :: 0 <= i < 15 ==> UpgradeRank(UpgradeOrder[i]) == i
  {
  }

  /** Every other table a table points at comes earlier in `UpgradeOrder`. */
  lemma TargetsRankLower(t: TableName, u: TableName)
    requires u in Targets(t) && u != t
    ensures UpgradeRank(u) < UpgradeRank(t)
  {
  }

  /** `upgrade` creates each table after every other table its foreign keys point at. */
  lemma UpgradeRespectsForeignKeys()
    ensures forall i, u :: 0 <= i < |UpgradeOrder| && u in Targets(UpgradeOrder[i]) && u != UpgradeOrder[i]
              ==> u in UpgradeOrder[..i]
  {
    UpgradeRankIndexes();
    forall i, u | 0 <= i < |UpgradeOrder| && u in Targets(UpgradeOrder[i]) && u != UpgradeOrder[i]
      ensures u in UpgradeOrder[..i]
    {
      TargetsRankLower(UpgradeOrder[i], u);
      assert UpgradeOrder[..i][UpgradeRank(u)] == u;
    }
  }

  /** `downgrade` is `upgrade` backwards: the same fifteen distinct tables in exactly the reverse order. */
  lemma DowngradeReversesUpgrade()
    ensures |UpgradeOrder| == |DowngradeOrder| == 15
    ensures forall i :: 0 <= i < 15 ==> DowngradeOrder[i] == UpgradeOrder[14 - i]
    ensures forall i, j :: 0 <= i < j < 15 ==> UpgradeOrder[i] != UpgradeOrder[j]
    ensures forall t: TableName :: t in UpgradeOrder
  {
    UpgradeRankIndexes();
    forall t: TableName ensures t in UpgradeOrder {
      assert UpgradeOrder[UpgradeRank(t)] == t;
    }
  }

  /**
   * `downgrade` drops each table only after every other table that points
   * at it: whatever references `DowngradeOrder[i]` comes before it.
   */
  lemma DowngradeRespectsForeignKeys()
    ensures forall i, u :: 0 <= i < |DowngradeOrder| && DowngradeOrder[i] in Targets(u) && u != DowngradeOrder[i]
              ==> u in DowngradeOrder[..i]
  {
    UpgradeRankIndexes();
    DowngradeReversesUpgrade();
    forall i, u | 0 <= i < |DowngradeOrder| && DowngradeOrder[i] in Targets(u) && u != DowngradeOrder[i]
      ensures u in DowngradeOrder[..i]
    {
      TargetsRankLower(u, DowngradeOrder[i]);
      var k := 14 - UpgradeRank(u);
      assert DowngradeOrder[k] == u;
      assert DowngradeOrder[..i][k] == u;
    }
  }

  /** A set that holds each of the fifteen tables holds every table. */
  lemma HoldsEveryTable(s: set<TableName>)
    requires AdditiveTable in s && ChemicalActivityTable in s &&
             ConsumerCommercialFunctionCategoryTable in s &&
             ConsumerCommercialProductCategoryTable in s && EndOfLifeActivityTable in s &&
             IndustrialTypeOfProcessOrUseTable in s && IndustryFunctionCategoryTable in s &&
             IndustrySectorTable in s && IndustryUseSectorTable in s && ReleaseTypeTable in s &&
             ConsumerCommercialUseTable in s && IndustrialUseTable in s &&
             IndustryUseSectorNaicsTable in s && RecordTable in s && RecordChemicalActivityTable
             in s
    ensures forall t: TableName :: t in s
  {
    forall t: TableName ensures t in s {
      UpgradeRankIndexes();
      assert t == UpgradeOrder[UpgradeRank(t)];
    }
  }

  /** A set that holds none of the fifteen tables is empty. */
  lemma HoldsNoTable(s: set<TableName>)
    requires AdditiveTable !in s && ChemicalActivityTable !in s &&
             ConsumerCommercialFunctionCategoryTable !in s &&
             ConsumerCommercialProductCategoryTable !in s && EndOfLifeActivityTable !in s &&
             IndustrialTypeOfProcessOrUseTable !in s && IndustryFunctionCategoryTable !in s &&
             IndustrySectorTable !in s && IndustryUseSectorTable !in s && ReleaseTypeTable !in s
             && ConsumerCommercialUseTable !in s && IndustrialUseTable !in s &&
             IndustryUseSectorNaicsTable !in s && RecordTable !in s &&
             RecordChemicalActivityTable !in s
    ensures s == {}
  {
    forall t: TableName ensures t !in s {
      UpgradeRankIndexes();
      assert t == UpgradeOrder[UpgradeRank(t)];
    }
  }

  /** The tables of `s` are exactly the first `n` of `UpgradeOrder`. */
  ghost predicate RankPrefix(s: set<TableName>, n: nat)
  {
    forall t :: t in s <==> UpgradeRank(t) < n
  }

  /** With the tables before `t` in place, creating `t` is allowed and extends the prefix. */
  lemma CreateNext(s: set<TableName>, t: TableName)
    requires RankPrefix(s, UpgradeRank(t))
    ensures t !in s && Targets(t) - {t} <= s
    ensures RankPrefix(s + {t}, UpgradeRank(t) + 1)
  {
    UpgradeRankIndexes();
    forall u | u in Targets(t) && u != t ensures u in s {
      TargetsRankLower(t, u);
    }
  }

  /** With exactly the tables up to `t` in place, dropping `t` is allowed and shortens the prefix. */
  lemma DropLast(s: set<TableName>, t: TableName)
    requires RankPrefix(s, UpgradeRank(t) + 1)
    ensures t in s
    ensures forall u :: u in s && u != t ==> t !in Targets(u)
    ensures RankPrefix(s - {t}, UpgradeRank(t))
  {
    UpgradeRankIndexes();
    forall u | u in s && u != t && t in Targets(u) ensures false {
      TargetsRankLower(u, t);
    }
  }

  /** The database the migration runs against: the set of tables that exist. */
  class Database {
    var tables: set<TableName>

    constructor ()
      ensures tables == {}
    {
      tables := {};
    }

    /** `op.create_table`: refused when the table exists or a foreign key points at a missing other table. */
    method CreateTable(t: TableName) returns (ok: bool)
      modifies this
      ensures ok <==> t !in old(tables) && Targets(t) - {t} <= old(tables)
      ensures tables == if ok then old(tables) + {t} else old(tables)
    {
      ok := t !in tables && Targets(t) - {t} <= tables;
      if ok {
        tables := tables + {t};
      }
    }

    /** `op.drop_table`: refused when the table is missing or another existing table still points at it. */
    method DropTable(t: TableName) returns (ok: bool)
      modifies this
      ensures ok <==> t in old(tables) && forall u :: u in old(tables) && u != t ==> t !in Targets(u)
      ensures tables == if ok then old(tables) - {t} else old(tables)
    {
      ok := t in tables && forall u | u in tables && u != t :: t !in Targets(u);
      if ok {
        tables := tables - {t};
      }
    }

    /**
     * `upgrade`: the fifteen `create_table` calls in source order, stopping
     * at the first one refused. It succeeds exactly on an empty database.
     */
    method Upgrade() returns (ok: bool)
      modifies this
      ensures ok <==> old(tables) == {}
      ensures ok ==> forall t: TableName :: t in tables
    {
      ghost var blank := tables == {};
      if blank { CreateNext(tables, AdditiveTable); }
      ok := CreateTable(AdditiveTable);
      if !ok { assert !blank; return; }
      if blank { CreateNext(tables, ChemicalActivityTable); }
      ok := CreateTable(ChemicalActivityTable);
      if !ok { assert !blank; return; }
      if blank { CreateNext(tables, ConsumerCommercialFunctionCategoryTable); }
      ok := CreateTable(ConsumerCommercialFunctionCategoryTable);
      if !ok { assert !blank; return; }
      if blank { CreateNext(tables, ConsumerCommercialProductCategoryTable); }
      ok := CreateTable(ConsumerCommercialProductCategoryTable);
      if !ok { assert !blank; return; }
      if blank { CreateNext(tables, EndOfLifeActivityTable); }
      ok := CreateTable(EndOfLifeActivityTable);
      if !ok { assert !blank; return; }
      if blank { CreateNext(tables, IndustrialTypeOfProcessOrUseTable); }
      ok := CreateTable(IndustrialTypeOfProcessOrUseTable);
      if !ok { assert !blank; return; }
      if blank { CreateNext(tables, IndustryFunctionCategoryTable); }
      ok := CreateTable(IndustryFunctionCategoryTable);
      if !ok { assert !blank; return; }
      if blank { CreateNext(tables, IndustrySectorTable); }
      ok := CreateTable(IndustrySectorTable);
      if !ok { assert !blank; return; }
      if blank { CreateNext(tables, IndustryUseSectorTable); }
      ok := CreateTable(IndustryUseSectorTable);
      if !ok { assert !blank; return; }
      if blank { CreateNext(tables, ReleaseTypeTable); }
      ok := CreateTable(ReleaseTypeTable);
      if !ok { assert !blank; return; }
      if blank { CreateNext(tables, ConsumerCommercialUseTable); }
      ok := CreateTable(ConsumerCommercialUseTable);
      if !ok { assert !blank; return; }
      if blank { CreateNext(tables, IndustrialUseTable); }
      ok := CreateTable(IndustrialUseTable);
      if !ok { assert !blank; return; }
      if blank { CreateNext(tables, IndustryUseSectorNaicsTable); }
      ok := CreateTable(IndustryUseSectorNaicsTable);
      if !ok { assert !blank; return; }
      if blank { CreateNext(tables, RecordTable); }
      ok := CreateTable(RecordTable);
      if !ok { assert !blank; return; }
      if blank { CreateNext(tables, RecordChemicalActivityTable); }
      ok := CreateTable(RecordChemicalActivityTable);
      if ok {
        HoldsNoTable(old(tables));
        UpgradeRankIndexes();
      }
    }

    /**
     * `downgrade`: the fifteen `drop_table` calls in source order, stopping
     * at the first one refused. It succeeds exactly on the full schema.
     */
    method Downgrade() returns (ok: bool)
      modifies this
      ensures ok <==> forall t: TableName :: t in old(tables)
      ensures ok ==> tables == {}
    {
      ghost var full := forall t: TableName :: t in tables;
      if full { UpgradeRankIndexes(); }
      if full { DropLast(tables, RecordChemicalActivityTable); }
      ok := DropTable(RecordChemicalActivityTable);
      if !ok { assert !full; return; }
      if full { DropLast(tables, RecordTable); }
      ok := DropTable(RecordTable);
      if !ok { assert !full; return; }
      if full { DropLast(tables, IndustryUseSectorNaicsTable); }
      ok := DropTable(IndustryUseSectorNaicsTable);
      if !ok { assert !full; return; }
      if full { DropLast(tables, IndustrialUseTable); }
      ok := DropTable(IndustrialUseTable);
      if !ok { assert !full; return; }
      if full { DropLast(tables, ConsumerCommercialUseTable); }
      ok := DropTable(ConsumerCommercialUseTable);
      if !ok { assert !full; return; }
      if full { DropLast(tables, ReleaseTypeTable); }
      ok := DropTable(ReleaseTypeTable);
      if !ok { assert !full; return; }
      if full { DropLast(tables, IndustryUseSectorTable); }
      ok := DropTable(IndustryUseSectorTable);
      if !ok { assert !full; return; }
      if full { DropLast(tables, IndustrySectorTable); }
      ok := DropTable(IndustrySectorTable);
      if !ok { assert !full; return; }
      if full { DropLast(tables, IndustryFunctionCategoryTable); }
      ok := DropTable(IndustryFunctionCategoryTable);
      if !ok { assert !full; return; }
      if full { DropLast(tables, IndustrialTypeOfProcessOrUseTable); }
      ok := DropTable(IndustrialTypeOfProcessOrUseTable);
      if !ok { assert !full; return; }
      if full { DropLast(tables, EndOfLifeActivityTable); }
      ok := DropTable(EndOfLifeActivityTable);
      if !ok { assert !full; return; }
      if full { DropLast(tables, ConsumerCommercialProductCategoryTable); }
      ok := DropTable(ConsumerCommercialProductCategoryTable);
      if !ok { assert !full; return; }
      if full { DropLast(tables, ConsumerCommercialFunctionCategoryTable); }
      ok := DropTable(ConsumerCommercialFunctionCategoryTable);
      if !ok { assert !full; return; }
      if full { DropLast(tables, ChemicalActivityTable); }
      ok := DropTable(ChemicalActivityTable);
      if !ok { assert !full; return; }
      if full { DropLast(tables, AdditiveTable); }
      ok := DropTable(AdditiveTable);
      if ok {
        HoldsEveryTable(old(tables));
      }
    }
  }
}
