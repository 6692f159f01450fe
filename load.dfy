/**
 * The TRI reference-data loader: a lookup-then-insert reconciler over the
 * rows of one table (`.one()`, `element_exists`, `create_element`,
 * `get_or_create`), the two loaders built on it, and the session and
 * loader objects whose methods carry them out step by step.
 *
 * A table is the sequence of its rows in insertion order. A new row gets
 * the next integer after the largest id in use (SQLite's INTEGER PRIMARY
 * KEY rule), and a commit is refused when it would break a NOT NULL column
 * of the entity or a UNIQUE constraint of the initial migration.
 */
module Load {
  import opened Wrappers
  import opened Schema
  import opened DataModels
  import Migration
  import Config

  // ---------------------------------------------------------------------
  // Queries
  // ---------------------------------------------------------------------

  /** `filter_by(**f)` keeps a row when each filtered column holds the given value; None matches NULL. */
  predicate Matches(r: Row, f: Attrs)
  {
    forall c :: c in f ==> c in r.attrs && r.attrs[c] == f[c]
  }

  /** The rows `filter_by(**f)` keeps, in table order. */
  function Matching(rows: seq<Row>, f: Attrs): (r: seq<Row>)
    ensures |r| <= |rows|
    ensures forall x :: x in r ==> x in rows && Matches(x, f)
    ensures forall i :: 0 <= i < |rows| && Matches(rows[i], f) ==> rows[i] in r
  {
    if rows == [] then []
    else
      var rest := Matching(rows[..|rows| - 1], f);
      if Matches(rows[|rows| - 1], f) then rest + [rows[|rows| - 1]] else rest
  }

  /** Appending a row extends the matches by that row exactly when it matches. */
  lemma MatchingAppend(rows: seq<Row>, x: Row, f: Attrs)
    ensures Matching(rows + [x], f) == if Matches(x, f) then Matching(rows, f) + [x] else Matching(rows, f)
  {
    assert (rows + [x])[..|rows|] == rows;
  }

  /** Two matching positions give two matches. */
  lemma {:induction false} TwoMatchesFromPositions(rows: seq<Row>, f: Attrs, i: int, j: int)
    requires 0 <= i < j < |rows| && Matches(rows[i], f) && Matches(rows[j], f)
    ensures |Matching(rows, f)| >= 2
  {
    var p, x := rows[..|rows| - 1], rows[|rows| - 1];
    assert rows == p + [x];
    MatchingAppend(p, x, f);
    if j == |rows| - 1 {
      assert p[i] == rows[i];
      assert p[i] in Matching(p, f);
    } else {
      assert p[i] == rows[i] && p[j] == rows[j];
      TwoMatchesFromPositions(p, f, i, j);
    }
  }

  /** Two matches come from two matching positions. */
  lemma {:induction false} PositionsFromTwoMatches(rows: seq<Row>, f: Attrs)
    requires |Matching(rows, f)| >= 2
    ensures exists i, j :: 0 <= i < j < |rows| && Matches(rows[i], f) && Matches(rows[j], f)
  {
    var p, x := rows[..|rows| - 1], rows[|rows| - 1];
    assert rows == p + [x];
    MatchingAppend(p, x, f);
    if Matches(x, f) && |Matching(p, f)| < 2 {
      var y := Matching(p, f)[0];
      assert y in Matching(p, f);
      var i :| 0 <= i < |p| && p[i] == y;
      assert rows[i] == p[i];
    } else {
      PositionsFromTwoMatches(p, f);
      var i, j :| 0 <= i < j < |p| && Matches(p[i], f) && Matches(p[j], f);
      assert rows[i] == p[i] && rows[j] == p[j];
    }
  }

  /** Two or more rows match exactly when two distinct positions hold matching rows. */
  lemma TwoMatches(rows: seq<Row>, f: Attrs)
    ensures |Matching(rows, f)| >= 2 <==>
            exists i, j :: 0 <= i < j < |rows| && Matches(rows[i], f) && Matches(rows[j], f)
  {
    if |Matching(rows, f)| >= 2 {
      PositionsFromTwoMatches(rows, f);
    }
    if exists i, j :: 0 <= i < j < |rows| && Matches(rows[i], f) && Matches(rows[j], f) {
      var i, j :| 0 <= i < j < |rows| && Matches(rows[i], f) && Matches(rows[j], f);
      TwoMatchesFromPositions(rows, f, i, j);
    }
  }

  /**
   * `session.query(model).filter_by(**f).one()`: the single matching row,
   * NoResultFound when none matches, MultipleResultsFound when several do,
   * and an error naming the keywords that are not columns of the model.
   */
  function One(m: Model, rows: seq<Row>, f: Attrs): (r: Result<Row, DbError>)
    ensures !(f.Keys <= Columns(m)) ==> r == Failure(InvalidKeyword(f.Keys - Columns(m)))
    ensures f.Keys <= Columns(m) ==>
              (r == Failure(NoResultFound) <==> forall i :: 0 <= i < |rows| ==> !Matches(rows[i], f))
    ensures f.Keys <= Columns(m) ==>
              (r == Failure(MultipleResultsFound) <==>
               exists i, j :: 0 <= i < j < |rows| && Matches(rows[i], f) && Matches(rows[j], f))
    ensures r.Success? ==> r.value in rows && Matches(r.value, f)
    ensures r.Success? ==> forall i :: 0 <= i < |rows| && Matches(rows[i], f) ==> rows[i] == r.value
  {
    if !(f.Keys <= Columns(m)) then
      Failure(InvalidKeyword(f.Keys - Columns(m)))
    else
      var ms := Matching(rows, f);
      TwoMatches(rows, f);
      if |ms| == 0 then
        assert forall i :: 0 <= i < |rows| ==> !Matches(rows[i], f);
        Failure(NoResultFound)
      else if |ms| == 1 then
        assert ms[0] in ms;
        Success(ms[0])
      else
        assert ms[0] in ms;
        Failure(MultipleResultsFound)
  }

  /**
   * `element_exists`: true when exactly one row matches, false when none
   * does. Only NoResultFound is caught, so several matches (or a bad
   * keyword) propagate as an error.
   */
  function ExistsIn(m: Model, rows: seq<Row>, f: Attrs): (r: Result<bool, DbError>)
    ensures r == Success(false) <==>
              f.Keys <= Columns(m) && forall i :: 0 <= i < |rows| ==> !Matches(rows[i], f)
    ensures r == Success(true) <==>
              f.Keys <= Columns(m) && (exists i :: 0 <= i < |rows| && Matches(rows[i], f)) &&
              !(exists i, j :: 0 <= i < j < |rows| && Matches(rows[i], f) && Matches(rows[j], f))
    ensures r.Failure? ==> r.error == MultipleResultsFound || r.error.InvalidKeyword?
  {
    match One(m, rows, f)
    case Success(_) => Success(true)
    case Failure(NoResultFound) => Success(false)
    case Failure(e) => Failure(e)
  }

  // ---------------------------------------------------------------------
  // Inserts
  // ---------------------------------------------------------------------

  /** The largest id in use, or 0 for an empty table. */
  function MaxId(rows: seq<Row>): (r: int)
    ensures r >= 0
    ensures forall i :: 0 <= i < |rows| ==> rows[i].id <= r
    ensures r == 0 || exists i :: 0 <= i < |rows| && rows[i].id == r
  {
    if rows == [] then 0
    else
      var m := MaxId(rows[..|rows| - 1]);
      if rows[|rows| - 1].id > m then rows[|rows| - 1].id else m
  }

  /** The id SQLite gives the next row: one more than the largest in use, 1 for an empty table. */
  function NextId(rows: seq<Row>): int
  {
    MaxId(rows) + 1
  }

  /** The commit is accepted: no NULL in a NOT NULL column, no non-NULL duplicate in a UNIQUE column. */
  predicate Admissible(m: Model, rows: seq<Row>, attrs: Attrs)
  {
    (forall c :: c in attrs && !Nullable(m, c) ==> attrs[c] != Null) &&
    (forall i, c ::
       (0 <= i < |rows| && c in Migration.Unique(TableOf(m)) && c in attrs &&
        c in rows[i].attrs && attrs[c] != Null) ==> rows[i].attrs[c] != attrs[c])
  }

  /**
   * `create_element`: build `model(**kwargs)`, add it and commit. The table
   * gains exactly one row, with a fresh id, the given values and the
   * defaults elsewhere; a refused commit leaves the table as it was.
   */
  function CreateIn(m: Model, rows: seq<Row>, kwargs: Attrs): (r: Result<(seq<Row>, Row), DbError>)
    ensures !(kwargs.Keys <= Columns(m)) ==> r == Failure(InvalidKeyword(kwargs.Keys - Columns(m)))
    ensures kwargs.Keys <= Columns(m) ==>
              (r.Success? <==> Admissible(m, rows, Construct(m, kwargs).value))
    ensures r.Failure? ==> r.error.InvalidKeyword? || r.error == IntegrityError
    ensures r.Success? ==> r.value.0 == rows + [r.value.1]
    ensures r.Success? ==> forall i :: 0 <= i < |rows| ==> rows[i].id < r.value.1.id
    ensures r.Success? ==> r.value.1.id >= 1
    ensures r.Success? ==> r.value.1.attrs.Keys == Columns(m) && Matches(r.value.1, kwargs)
    ensures r.Success? ==> forall c :: c in Columns(m) && c !in kwargs ==> r.value.1.attrs[c] == Default(m, c)
  {
    match Construct(m, kwargs)
    case Failure(e) => Failure(e)
    case Success(attrs) =>
      if Admissible(m, rows, attrs) then
        var row := Row(NextId(rows), attrs);
        Success((rows + [row], row))
      else
        Failure(IntegrityError)
  }

  /**
   * `get_or_create`: the single row matching the keywords, or else a new
   * row built from exactly those keywords. The result always matches the
   * keywords and the table grows by at most that row.
   */
  function GetOrCreateIn(m: Model, rows: seq<Row>, kwargs: Attrs): (r: Result<(seq<Row>, Row), DbError>)
    ensures r.Success? ==> Matches(r.value.1, kwargs) && r.value.1 in r.value.0
    ensures r.Success? ==> r.value.0 == rows || r.value.0 == rows + [r.value.1]
    ensures r.Success? && r.value.0 == rows + [r.value.1] ==>
              forall i :: 0 <= i < |rows| ==> !Matches(rows[i], kwargs)
    ensures One(m, rows, kwargs).Success? ==> r == Success((rows, One(m, rows, kwargs).value))
    ensures r.Failure? ==> r.error != NoResultFound
  {
    match One(m, rows, kwargs)
    case Success(row) => Success((rows, row))
    case Failure(NoResultFound) => CreateIn(m, rows, kwargs)
    case Failure(e) => Failure(e)
  }

  /** A second `get_or_create` with the same keywords returns the same row and adds nothing. */
  lemma GetOrCreateTwice(m: Model, rows: seq<Row>, kwargs: Attrs)
    requires GetOrCreateIn(m, rows, kwargs).Success?
    ensures var (rows1, row) := GetOrCreateIn(m, rows, kwargs).value;
            GetOrCreateIn(m, rows1, kwargs) == Success((rows1, row))
  {
    var (rows1, row) := GetOrCreateIn(m, rows, kwargs).value;
    if One(m, rows, kwargs).Failure? {
      assert kwargs.Keys <= Columns(m);
      assert rows1 == rows + [row];
      assert forall i :: 0 <= i < |rows1| && Matches(rows1[i], kwargs) ==> i == |rows|;
      assert Matches(rows1[|rows|], kwargs);
    }
  }

  // ---------------------------------------------------------------------
  // The table invariant
  // ---------------------------------------------------------------------

  /**
   * What a table of the model holds after any sequence of accepted commits:
   * each row has the model's columns, ids are positive and increase in
   * insertion order, NOT NULL columns hold values and UNIQUE columns hold no
   * repeated non-NULL value.
   */
  ghost predicate TableValid(m: Model, rows: seq<Row>)
  {
    (forall i :: 0 <= i < |rows| ==> rows[i].attrs.Keys == Columns(m) && rows[i].id >= 1) &&
    (forall i, j :: 0 <= i < j < |rows| ==> rows[i].id < rows[j].id) &&
    (forall i, c :: 0 <= i < |rows| && c in rows[i].attrs && !Nullable(m, c) ==> rows[i].attrs[c] != Null) &&
    (forall i, j, c ::
       (0 <= i < j < |rows| && c in Migration.Unique(TableOf(m)) &&
        c in rows[i].attrs && c in rows[j].attrs && rows[i].attrs[c] != Null) ==>
       rows[i].attrs[c] != rows[j].attrs[c])
  }

  /** The UNIQUE columns of a mapped table are NOT NULL. */
  lemma UniqueNotNull(m: Model, c: ColumnName)
    requires c in Migration.Unique(TableOf(m))
    ensures c in Columns(m) && !Nullable(m, c)
  {
  }

  /** Appending an admissible row with the model's columns and a larger id keeps the table valid. */
  lemma AppendKeepsValid(m: Model, rows: seq<Row>, row: Row)
    requires TableValid(m, rows)
    requires row.attrs.Keys == Columns(m) && row.id >= 1
    requires forall i :: 0 <= i < |rows| ==> rows[i].id < row.id
    requires Admissible(m, rows, row.attrs)
    ensures TableValid(m, rows + [row])
  {
    var rows1 := rows + [row];
    assert forall i :: 0 <= i < |rows| ==> rows1[i] == rows[i];
    assert rows1[|rows|] == row;
    assert forall i, j :: 0 <= i < j < |rows1| ==> rows1[i].id < rows1[j].id by {
      forall i, j | 0 <= i < j < |rows1| ensures rows1[i].id < rows1[j].id {
        if j == |rows| {
          assert rows1[i] == rows[i];
        }
      }
    }
    forall i, j, c | 0 <= i < j < |rows1| && c in Migration.Unique(TableOf(m)) &&
        c in rows1[i].attrs && c in rows1[j].attrs && rows1[i].attrs[c] != Null
      ensures rows1[i].attrs[c] != rows1[j].attrs[c]
    {
      if j == |rows| {
        UniqueNotNull(m, c);
        assert rows1[i] == rows[i];
      }
    }
  }

  /** An accepted `create_element` keeps the table valid. */
  lemma CreateKeepsValid(m: Model, rows: seq<Row>, kwargs: Attrs)
    requires TableValid(m, rows)
    requires CreateIn(m, rows, kwargs).Success?
    ensures TableValid(m, CreateIn(m, rows, kwargs).value.0)
  {
    var (rows1, row) := CreateIn(m, rows, kwargs).value;
    assert Admissible(m, rows, row.attrs);
    AppendKeepsValid(m, rows, row);
  }

  /** An accepted `get_or_create` keeps the table valid. */
  lemma GetOrCreateKeepsValid(m: Model, rows: seq<Row>, kwargs: Attrs)
    requires TableValid(m, rows)
    requires GetOrCreateIn(m, rows, kwargs).Success?
    ensures TableValid(m, GetOrCreateIn(m, rows, kwargs).value.0)
  {
    if One(m, rows, kwargs).Failure? {
      CreateKeepsValid(m, rows, kwargs);
    }
  }

  /** The rows of table `rows` whose column `c` holds `v`. */
  ghost predicate Holds(rows: seq<Row>, c: ColumnName, v: Value)
  {
    exists i :: 0 <= i < |rows| && c in rows[i].attrs && rows[i].attrs[c] == v
  }

  /** A single-column filter matches the rows holding that value. */
  lemma MatchesSingle(r: Row, c: ColumnName, v: Value)
    ensures Matches(r, map[c := v]) <==> c in r.attrs && r.attrs[c] == v
  {
    assert c in map[c := v];
  }

  /** In a valid table a value present in a UNIQUE column is found by `.one()`. */
  lemma UniqueLookup(m: Model, rows: seq<Row>, c: ColumnName, v: Value)
    requires TableValid(m, rows)
    requires c in Migration.Unique(TableOf(m))
    requires Holds(rows, c, v)
    ensures One(m, rows, map[c := v]).Success?
    ensures One(m, rows, map[c := v]).value.attrs[c] == v
  {
    UniqueNotNull(m, c);
    var k :| 0 <= k < |rows| && c in rows[k].attrs && rows[k].attrs[c] == v;
    MatchesSingle(rows[k], c, v);
    AtMostOneMatch(m, rows, c, v);
    var r := One(m, rows, map[c := v]);
    MatchesSingle(r.value, c, v);
  }

  /** In a valid table no two rows hold the same non-NULL value in a UNIQUE column. */
  lemma AtMostOneMatch(m: Model, rows: seq<Row>, c: ColumnName, v: Value)
    requires TableValid(m, rows)
    requires c in Migration.Unique(TableOf(m)) && v != Null
    ensures forall i, j :: 0 <= i < j < |rows| ==> !(Matches(rows[i], map[c := v]) && Matches(rows[j], map[c := v]))
  {
    forall i, j | 0 <= i < j < |rows| ensures !(Matches(rows[i], map[c := v]) && Matches(rows[j], map[c := v])) {
      MatchesSingle(rows[i], c, v);
      MatchesSingle(rows[j], c, v);
    }
  }

  // ---------------------------------------------------------------------
  // The two loaders, as functions of the table they run against
  // ---------------------------------------------------------------------

  /** One configuration entry, read as a mapping. */
  type Entry = Config.Entry

  /** The two loaders of `TriDataLoader`. */
  datatype Loader = ActivityLoader | AdditiveLoader

  /** The table each loader fills. */
  function ModelOf(k: Loader): Model
  {
    match k
    case ActivityLoader => ChemicalActivityModel
    case AdditiveLoader => AdditiveModel
  }

  /** What a loader leaves behind: the table, including the rows committed before an exception, and that exception. */
  datatype Outcome = Outcome(rows: seq<Row>, error: Option<DbError>)

  /** `entry.get(key)`: the value, or None when the key is absent. */
  function Get(e: Entry, key: string): Value
  {
    if key in e then e[key] else Null
  }

  /** The configured columns that are not general-information columns, in order. */
  function ActivityEntries(cols: seq<Entry>): (r: seq<Entry>)
    ensures forall e :: e in r <==> e in cols && "is_general_info" !in e
    ensures |r| <= |cols|
    ensures (forall i :: 0 <= i < |cols| ==> "is_general_info" !in cols[i]) ==> r == cols
  {
    if cols == [] then []
    else
      var rest := ActivityEntries(cols[..|cols| - 1]);
      var e := cols[|cols| - 1];
      assert cols == cols[..|cols| - 1] + [e];
      if "is_general_info" in e then rest else rest + [e]
  }

  /** The filter keeps a single entry exactly when it has no `is_general_info` key. */
  lemma ActivityEntriesSingle(e: Entry)
    ensures ActivityEntries([e]) == if "is_general_info" in e then [] else [e]
  {
    assert [e][..0] == [];
  }

  /** The filter works entry by entry, so it keeps the kept entries in list order. */
  lemma {:induction false} ActivityEntriesAppend(a: seq<Entry>, b: seq<Entry>)
    ensures ActivityEntries(a + b) == ActivityEntries(a) + ActivityEntries(b)
    decreases |b|
  {
    if b == [] {
      assert a + b == a;
    } else {
      var b', x := b[..|b| - 1], b[|b| - 1];
      assert (a + b)[..|a + b| - 1] == a + b' && (a + b)[|a + b| - 1] == x;
      ActivityEntriesAppend(a, b');
    }
  }

  /**
   * The parent of an activity entry: get-or-created by name alone when the
   * entry names one in `depends_on`, and None otherwise. Yields the table
   * afterwards and the value stored as `parent_chemical_activity_id`.
   */
  function ResolveParent(rows: seq<Row>, e: Entry): (r: Result<(seq<Row>, Value), DbError>)
    ensures r.Success? ==> rows <= r.value.0 && |r.value.0| <= |rows| + 1
    ensures r.Failure? ==> Get(e, "depends_on") != Null
    ensures r.Success? && Get(e, "depends_on") == Null ==> r.value == (rows, Null)
    ensures r.Success? && Get(e, "depends_on") != Null ==>
              exists j :: 0 <= j < |r.value.0| && r.value.1 == Int(r.value.0[j].id) &&
                          Matches(r.value.0[j], map[Name := Get(e, "depends_on")])
    ensures r.Success? && |r.value.0| == |rows| + 1 ==>
              r.value.0[|rows|].attrs ==
                map[Name := Get(e, "depends_on"), Description := Null, ParentChemicalActivityId := Null]
  {
    var d := Get(e, "depends_on");
    if d != Null then
      match GetOrCreateIn(ChemicalActivityModel, rows, map[Name := d])
      case Success((rows1, parent)) =>
        var j :| 0 <= j < |rows1| && rows1[j] == parent;
        assert parent.id == rows1[j].id;
        Success((rows1, Int(parent.id)))
      case Failure(err) => Failure(err)
    else
      Success((rows, Null))
  }

  /** The row `load_chemical_activity` would create for an entry, given its resolved parent. */
  function ActivityKwargs(e: Entry, parentId: Value): Attrs
    requires "name" in e
  {
    map[Name := e["name"], Description := Get(e, "description"), ParentChemicalActivityId := parentId]
  }

  /**
   * One iteration of `load_chemical_activity`: resolve the parent, then
   * create the activity unless one with that name exists.
   */
  function ActivityStep(rows: seq<Row>, e: Entry): Outcome
  {
    match ResolveParent(rows, e)
    case Failure(err) => Outcome(rows, Some(err))
    case Success((rows1, parentId)) =>
      if "name" !in e then Outcome(rows1, Some(KeyError("name")))
      else
        match ExistsIn(ChemicalActivityModel, rows1, map[Name := e["name"]])
        case Failure(err) => Outcome(rows1, Some(err))
        case Success(true) => Outcome(rows1, None)
        case Success(false) =>
          match CreateIn(ChemicalActivityModel, rows1, ActivityKwargs(e, parentId))
          case Failure(err) => Outcome(rows1, Some(err))
          case Success((rows2, _)) => Outcome(rows2, None)
  }

  /**
   * One iteration of `load_plastic_additives`: create `{name, tri_chemical_id
   * = CASRN}` unless an additive with that CASRN exists.
   */
  function AdditiveStep(rows: seq<Row>, e: Entry): Outcome
  {
    if "CASRN" !in e then Outcome(rows, Some(KeyError("CASRN")))
    else
      match ExistsIn(AdditiveModel, rows, map[TriChemicalId := e["CASRN"]])
      case Failure(err) => Outcome(rows, Some(err))
      case Success(true) => Outcome(rows, None)
      case Success(false) =>
        if "name" !in e then Outcome(rows, Some(KeyError("name")))
        else
          match CreateIn(AdditiveModel, rows, map[Name := e["name"], TriChemicalId := e["CASRN"]])
          case Failure(err) => Outcome(rows, Some(err))
          case Success((rows1, _)) => Outcome(rows1, None)
  }

  function Step(k: Loader, rows: seq<Row>, e: Entry): Outcome
  {
    match k
    case ActivityLoader => ActivityStep(rows, e)
    case AdditiveLoader => AdditiveStep(rows, e)
  }

  /** The loader's `for` loop over its entries, stopped by the first exception. */
  function Run(k: Loader, rows: seq<Row>, es: seq<Entry>): Outcome
    decreases |es|
  {
    if es == [] then Outcome(rows, None)
    else
      var o := Step(k, rows, es[0]);
      if o.error.Some? then o else Run(k, o.rows, es[1..])
  }

  /** `load_chemical_activity` against the activity table. */
  function LoadActivities(rows: seq<Row>, cols: seq<Entry>): Outcome
  {
    Run(ActivityLoader, rows, ActivityEntries(cols))
  }

  /** `load_plastic_additives` against the additive table. */
  function LoadAdditives(rows: seq<Row>, additives: seq<Entry>): Outcome
  {
    Run(AdditiveLoader, rows, additives)
  }

  // ---------------------------------------------------------------------
  // What one iteration does
  // ---------------------------------------------------------------------

  /** The attributes of a parent created from `depends_on`: its name, and NULL description and parent. */
  function BareActivity(name: Value): Attrs
  {
    map[Name := name, Description := Null, ParentChemicalActivityId := Null]
  }

  /**
   * Row `i` links to the parent named `d` as `load_chemical_activity` sets
   * it: a NULL parent when there is no dependency, otherwise the id of an
   * earlier row bearing that name.
   */
  ghost predicate LinkedToParent(rows: seq<Row>, i: int, d: Value)
    requires 0 <= i < |rows|
  {
    (d == Null ==> Matches(rows[i], map[ParentChemicalActivityId := Null])) &&
    (d != Null ==> exists j :: 0 <= j < i && Matches(rows[i], map[ParentChemicalActivityId := Int(rows[j].id)]) &&
                               Matches(rows[j], map[Name := d]))
  }

  /**
   * An activity iteration only appends: at most a bare parent named by
   * `depends_on`, then the entry's own activity, and the latter only when no
   * earlier row has its name.
   */
  lemma ActivityStepShape(rows: seq<Row>, e: Entry)
    ensures var o := ActivityStep(rows, e);
            rows <= o.rows && |o.rows| <= |rows| + 2 &&
            forall i :: |rows| <= i < |o.rows| ==>
              o.rows[i].attrs == BareActivity(Get(e, "depends_on")) ||
              ("name" in e && Matches(o.rows[i], map[Name := e["name"], Description := Get(e, "description")]) &&
               LinkedToParent(o.rows, i, Get(e, "depends_on")) &&
               forall j :: 0 <= j < i ==> !Matches(o.rows[j], map[Name := e["name"]]))
  {
    var o := ActivityStep(rows, e);
    var rp := ResolveParent(rows, e);
    if rp.Failure? {
      assert o.rows == rows;
    } else {
      var (rows1, pid) := rp.value;
      assert forall i :: |rows| <= i < |rows1| ==> rows1[i].attrs == BareActivity(Get(e, "depends_on"));
      if "name" !in e || ExistsIn(ChemicalActivityModel, rows1, map[Name := e["name"]]) != Success(false) {
        assert o.rows == rows1;
      } else if CreateIn(ChemicalActivityModel, rows1, ActivityKwargs(e, pid)).Failure? {
        assert o.rows == rows1;
      } else {
        ActivityCreateShape(rows1, e, pid);
        var row := CreateIn(ChemicalActivityModel, rows1, ActivityKwargs(e, pid)).value.1;
        assert o.rows == rows1 + [row];
        forall i | |rows| <= i < |o.rows|
          ensures o.rows[i].attrs == BareActivity(Get(e, "depends_on")) ||
                  ("name" in e && Matches(o.rows[i], map[Name := e["name"], Description := Get(e, "description")]) &&
                   LinkedToParent(o.rows, i, Get(e, "depends_on")) &&
                   forall j :: 0 <= j < i ==> !Matches(o.rows[j], map[Name := e["name"]]))
        {
          if i < |rows1| {
            assert o.rows[i] == rows1[i];
          } else {
            assert i == |rows1| && o.rows[i] == row;
          }
        }
      }
    }
  }

  /**
   * The activity an iteration creates: its name, its description and the
   * resolved parent, after rows none of which bears that name.
   */
  lemma ActivityCreateShape(rows1: seq<Row>, e: Entry, pid: Value)
    requires "name" in e
    requires ExistsIn(ChemicalActivityModel, rows1, map[Name := e["name"]]) == Success(false)
    requires CreateIn(ChemicalActivityModel, rows1, ActivityKwargs(e, pid)).Success?
    requires Get(e, "depends_on") == Null ==> pid == Null
    requires Get(e, "depends_on") != Null ==>
               exists j :: 0 <= j < |rows1| && pid == Int(rows1[j].id) && Matches(rows1[j], map[Name := Get(e, "depends_on")])
    ensures var (rows2, row) := CreateIn(ChemicalActivityModel, rows1, ActivityKwargs(e, pid)).value;
            rows2 == rows1 + [row] &&
            Matches(row, map[Name := e["name"], Description := Get(e, "description")]) &&
            LinkedToParent(rows2, |rows1|, Get(e, "depends_on")) &&
            forall j :: 0 <= j < |rows1| ==> !Matches(rows2[j], map[Name := e["name"]])
  {
    var (rows2, row) := CreateIn(ChemicalActivityModel, rows1, ActivityKwargs(e, pid)).value;
    forall j | 0 <= j < |rows1| ensures !Matches(rows2[j], map[Name := e["name"]]) {
      assert rows2[j] == rows1[j];
    }
    MatchesSingle(row, ParentChemicalActivityId, pid);
    var d := Get(e, "depends_on");
    if d != Null {
      var j :| 0 <= j < |rows1| && pid == Int(rows1[j].id) && Matches(rows1[j], map[Name := d]);
      assert rows2[j] == rows1[j];
    }
  }

  /**
   * An additive iteration appends at most `{name, tri_chemical_id = CASRN}`,
   * and only when no additive has that CASRN; when one has, the table is
   * left alone.
   */
  lemma AdditiveStepShape(rows: seq<Row>, e: Entry)
    ensures var o := AdditiveStep(rows, e);
            rows <= o.rows && |o.rows| <= |rows| + 1 &&
            (|o.rows| == |rows| + 1 ==>
               "CASRN" in e && "name" in e &&
               o.rows[|rows|].attrs == map[Name := e["name"], TriChemicalId := e["CASRN"]] &&
               forall i :: 0 <= i < |rows| ==> !Matches(rows[i], map[TriChemicalId := e["CASRN"]])) &&
            ("CASRN" in e && (exists i :: 0 <= i < |rows| && Matches(rows[i], map[TriChemicalId := e["CASRN"]])) ==>
               o.rows == rows)
  {
    if "CASRN" in e && "name" in e {
      var kw := map[Name := e["name"], TriChemicalId := e["CASRN"]];
      if ExistsIn(AdditiveModel, rows, map[TriChemicalId := e["CASRN"]]) == Success(false) {
        var cr := CreateIn(AdditiveModel, rows, kw);
        if cr.Success? {
          assert cr.value.1.attrs.Keys == Columns(AdditiveModel) == kw.Keys;
          assert cr.value.1.attrs == kw;
        }
      }
    }
  }

  /** The bound on the rows one iteration adds. */
  function Growth(k: Loader): nat
  {
    match k
    case ActivityLoader => 2
    case AdditiveLoader => 1
  }

  /** Every iteration keeps the existing rows, untouched and in place. */
  lemma StepExtends(k: Loader, rows: seq<Row>, e: Entry)
    ensures rows <= Step(k, rows, e).rows
    ensures |Step(k, rows, e).rows| <= |rows| + Growth(k)
  {
    match k
    case ActivityLoader => ActivityStepShape(rows, e);
    case AdditiveLoader => AdditiveStepShape(rows, e);
  }

  /** Every iteration keeps the table valid. */
  lemma StepKeepsValid(k: Loader, rows: seq<Row>, e: Entry)
    requires TableValid(ModelOf(k), rows)
    ensures TableValid(ModelOf(k), Step(k, rows, e).rows)
  {
    match k
    case ActivityLoader =>
      var rp := ResolveParent(rows, e);
      if rp.Success? {
        var rows1 := rp.value.0;
        var d := Get(e, "depends_on");
        if d != Null {
          GetOrCreateKeepsValid(ChemicalActivityModel, rows, map[Name := d]);
        }
        assert TableValid(ChemicalActivityModel, rows1);
        if "name" in e && ExistsIn(ChemicalActivityModel, rows1, map[Name := e["name"]]) == Success(false) {
          var cr := CreateIn(ChemicalActivityModel, rows1, ActivityKwargs(e, rp.value.1));
          if cr.Success? {
            CreateKeepsValid(ChemicalActivityModel, rows1, ActivityKwargs(e, rp.value.1));
          }
        }
      }
    case AdditiveLoader =>
      if "CASRN" in e && "name" in e {
        var kw := map[Name := e["name"], TriChemicalId := e["CASRN"]];
        if CreateIn(AdditiveModel, rows, kw).Success? {
          CreateKeepsValid(AdditiveModel, rows, kw);
        }
      }
  }

  /**
   * The rows an entry looks up are present: for an activity its name and
   * its `depends_on`, for an additive its CASRN.
   */
  ghost predicate Settled(k: Loader, rows: seq<Row>, e: Entry)
  {
    match k
    case ActivityLoader =>
      "name" in e && Holds(rows, Name, e["name"]) &&
      (Get(e, "depends_on") != Null ==> Holds(rows, Name, Get(e, "depends_on")))
    case AdditiveLoader =>
      "CASRN" in e && Holds(rows, TriChemicalId, e["CASRN"])
  }

  /** A value held by a row stays held when rows are appended. */
  lemma HoldsExtends(rows: seq<Row>, more: seq<Row>, c: ColumnName, v: Value)
    requires Holds(rows, c, v) && rows <= more
    ensures Holds(more, c, v)
  {
    var i :| 0 <= i < |rows| && c in rows[i].attrs && rows[i].attrs[c] == v;
    assert more[i] == rows[i];
  }

  /** Rows added after an entry was settled do not unsettle it. */
  lemma SettledExtends(k: Loader, rows: seq<Row>, more: seq<Row>, e: Entry)
    requires Settled(k, rows, e) && rows <= more
    ensures Settled(k, more, e)
  {
    match k
    case ActivityLoader =>
      HoldsExtends(rows, more, Name, e["name"]);
      if Get(e, "depends_on") != Null {
        HoldsExtends(rows, more, Name, Get(e, "depends_on"));
      }
    case AdditiveLoader =>
      HoldsExtends(rows, more, TriChemicalId, e["CASRN"]);
  }

  /** An activity iteration that raises nothing leaves its name and its parent's name in the table. */
  lemma ActivityStepSettles(rows: seq<Row>, e: Entry)
    requires ActivityStep(rows, e).error == None
    ensures Settled(ActivityLoader, ActivityStep(rows, e).rows, e)
  {
    var o := ActivityStep(rows, e);
    var rp := ResolveParent(rows, e);
    assert rp.Success?;
    var (rows1, pid) := rp.value;
    assert "name" in e;
    var d := Get(e, "depends_on");
    if d != Null {
      var j :| 0 <= j < |rows1| && pid == Int(rows1[j].id) && Matches(rows1[j], map[Name := d]);
      MatchesSingle(rows1[j], Name, d);
      assert Holds(rows1, Name, d);
    }
    var f := map[Name := e["name"]];
    var ex := ExistsIn(ChemicalActivityModel, rows1, f);
    if ex == Success(true) {
      assert o.rows == rows1;
      var i :| 0 <= i < |rows1| && Matches(rows1[i], f);
      MatchesSingle(rows1[i], Name, e["name"]);
    } else {
      assert ex == Success(false);
      var cr := CreateIn(ChemicalActivityModel, rows1, ActivityKwargs(e, pid));
      assert cr.Success? && o.rows == cr.value.0;
      CreatedActivityHolds(rows1, e, pid);
      if d != Null {
        HoldsExtends(rows1, cr.value.0, Name, d);
      }
    }
  }

  /** A created activity bears the entry's name, after the rows that were there. */
  lemma CreatedActivityHolds(rows1: seq<Row>, e: Entry, pid: Value)
    requires "name" in e
    requires CreateIn(ChemicalActivityModel, rows1, ActivityKwargs(e, pid)).Success?
    ensures var rows2 := CreateIn(ChemicalActivityModel, rows1, ActivityKwargs(e, pid)).value.0;
            rows1 <= rows2 && Holds(rows2, Name, e["name"])
  {
    var (rows2, row) := CreateIn(ChemicalActivityModel, rows1, ActivityKwargs(e, pid)).value;
    assert rows2[|rows1|] == row;
    MatchesSingle(row, Name, e["name"]);
  }

  /** An additive iteration that raises nothing leaves its CASRN in the table. */
  lemma AdditiveStepSettles(rows: seq<Row>, e: Entry)
    requires AdditiveStep(rows, e).error == None
    ensures Settled(AdditiveLoader, AdditiveStep(rows, e).rows, e)
  {
    assert "CASRN" in e;
    var f := map[TriChemicalId := e["CASRN"]];
    var ex := ExistsIn(AdditiveModel, rows, f);
    if ex == Success(true) {
      var i :| 0 <= i < |rows| && Matches(rows[i], f);
      MatchesSingle(rows[i], TriChemicalId, e["CASRN"]);
    } else {
      var kw := map[Name := e["name"], TriChemicalId := e["CASRN"]];
      var cr := CreateIn(AdditiveModel, rows, kw);
      assert cr.Success?;
      var (rows1, row) := cr.value;
      assert rows1[|rows|] == row;
      MatchesSingle(row, TriChemicalId, e["CASRN"]);
    }
  }

  /** An iteration that raises nothing leaves its entry settled. */
  lemma StepSettles(k: Loader, rows: seq<Row>, e: Entry)
    requires Step(k, rows, e).error == None
    ensures Settled(k, Step(k, rows, e).rows, e)
  {
    match k
    case ActivityLoader => ActivityStepSettles(rows, e);
    case AdditiveLoader => AdditiveStepSettles(rows, e);
  }

  /** On a valid table that already settles an entry, an iteration changes nothing and raises nothing. */
  lemma StepStable(k: Loader, rows: seq<Row>, e: Entry)
    requires TableValid(ModelOf(k), rows) && Settled(k, rows, e)
    ensures Step(k, rows, e) == Outcome(rows, None)
  {
    match k
    case ActivityLoader =>
      var d := Get(e, "depends_on");
      if d != Null {
        UniqueLookup(ChemicalActivityModel, rows, Name, d);
        assert ResolveParent(rows, e).value.0 == rows;
      }
      UniqueLookup(ChemicalActivityModel, rows, Name, e["name"]);
    case AdditiveLoader =>
      UniqueLookup(AdditiveModel, rows, TriChemicalId, e["CASRN"]);
  }

  /**
   * Every non-NULL `parent_chemical_activity_id` is the id of an activity
   * stored earlier in the table.
   */
  ghost predicate ParentsEarlier(rows: seq<Row>)
  {
    forall i :: 0 <= i < |rows| && ParentChemicalActivityId in rows[i].attrs &&
                rows[i].attrs[ParentChemicalActivityId] != Null ==>
      exists j :: 0 <= j < i && rows[i].attrs[ParentChemicalActivityId] == Int(rows[j].id)
  }

  /** Appending a row whose parent is NULL, absent, or an existing row keeps parents earlier. */
  lemma ParentsEarlierAppend(rows: seq<Row>, row: Row)
    requires ParentsEarlier(rows)
    requires ParentChemicalActivityId in row.attrs && row.attrs[ParentChemicalActivityId] != Null ==>
               exists j :: 0 <= j < |rows| && row.attrs[ParentChemicalActivityId] == Int(rows[j].id)
    ensures ParentsEarlier(rows + [row])
  {
    var rows1 := rows + [row];
    forall i | 0 <= i < |rows1| && ParentChemicalActivityId in rows1[i].attrs &&
               rows1[i].attrs[ParentChemicalActivityId] != Null
      ensures exists j :: 0 <= j < i && rows1[i].attrs[ParentChemicalActivityId] == Int(rows1[j].id)
    {
      if i < |rows| {
        assert rows1[i] == rows[i];
        var j :| 0 <= j < i && rows[i].attrs[ParentChemicalActivityId] == Int(rows[j].id);
        assert rows1[j] == rows[j];
      } else {
        var j :| 0 <= j < |rows| && row.attrs[ParentChemicalActivityId] == Int(rows[j].id);
        assert rows1[j] == rows[j];
      }
    }
  }

  /** Resolving a parent keeps parents earlier: a created parent has none. */
  lemma ResolveParentKeepsParents(rows: seq<Row>, e: Entry)
    requires ParentsEarlier(rows)
    requires ResolveParent(rows, e).Success?
    ensures ParentsEarlier(ResolveParent(rows, e).value.0)
  {
    var rows1 := ResolveParent(rows, e).value.0;
    if |rows1| == |rows| + 1 {
      assert rows1 == rows + [rows1[|rows|]];
      ParentsEarlierAppend(rows, rows1[|rows|]);
    } else {
      assert rows1 == rows;
    }
  }

  /** An activity iteration keeps every parent reference pointing at an earlier row. */
  lemma ActivityStepKeepsParents(rows: seq<Row>, e: Entry)
    requires ParentsEarlier(rows)
    ensures ParentsEarlier(ActivityStep(rows, e).rows)
  {
    var o := ActivityStep(rows, e);
    var rp := ResolveParent(rows, e);
    if rp.Success? {
      var (rows1, pid) := rp.value;
      ResolveParentKeepsParents(rows, e);
      if "name" in e && ExistsIn(ChemicalActivityModel, rows1, map[Name := e["name"]]) == Success(false) {
        var cr := CreateIn(ChemicalActivityModel, rows1, ActivityKwargs(e, pid));
        if cr.Success? {
          var (rows2, row) := cr.value;
          assert Matches(row, ActivityKwargs(e, pid));
          assert row.attrs[ParentChemicalActivityId] == pid;
          ParentsEarlierAppend(rows1, row);
          assert o.rows == rows1 + [row];
        } else {
          assert o.rows == rows1;
        }
      } else {
        assert o.rows == rows1;
      }
    } else {
      assert o.rows == rows;
    }
  }

  // ---------------------------------------------------------------------
  // What a whole run does
  // ---------------------------------------------------------------------

  /** A run keeps every existing row, untouched and in place, and adds a bounded number of rows. */
  lemma {:induction false} RunExtends(k: Loader, rows: seq<Row>, es: seq<Entry>)
    ensures rows <= Run(k, rows, es).rows
    ensures |Run(k, rows, es).rows| <= |rows| + Growth(k) * |es|
    decreases |es|
  {
    if es != [] {
      var o := Step(k, rows, es[0]);
      StepExtends(k, rows, es[0]);
      if o.error.None? {
        RunExtends(k, o.rows, es[1..]);
      }
    }
  }

  /** A run keeps the table valid. */
  lemma {:induction false} RunKeepsValid(k: Loader, rows: seq<Row>, es: seq<Entry>)
    requires TableValid(ModelOf(k), rows)
    ensures TableValid(ModelOf(k), Run(k, rows, es).rows)
    decreases |es|
  {
    if es != [] {
      var o := Step(k, rows, es[0]);
      StepKeepsValid(k, rows, es[0]);
      if o.error.None? {
        RunKeepsValid(k, o.rows, es[1..]);
      }
    }
  }

  /** An activity run keeps every parent reference pointing at an earlier row. */
  lemma {:induction false} RunKeepsParents(rows: seq<Row>, es: seq<Entry>)
    requires ParentsEarlier(rows)
    ensures ParentsEarlier(Run(ActivityLoader, rows, es).rows)
    decreases |es|
  {
    if es != [] {
      var o := Step(ActivityLoader, rows, es[0]);
      ActivityStepKeepsParents(rows, es[0]);
      if o.error.None? {
        RunKeepsParents(o.rows, es[1..]);
      }
    }
  }

  /** A run that raises nothing leaves every one of its entries settled. */
  lemma {:induction false} RunSettles(k: Loader, rows: seq<Row>, es: seq<Entry>)
    requires Run(k, rows, es).error == None
    ensures forall e :: e in es ==> Settled(k, Run(k, rows, es).rows, e)
    decreases |es|
  {
    if es != [] {
      var o := Step(k, rows, es[0]);
      StepSettles(k, rows, es[0]);
      RunSettles(k, o.rows, es[1..]);
      RunExtends(k, o.rows, es[1..]);
      SettledExtends(k, o.rows, Run(k, o.rows, es[1..]).rows, es[0]);
      assert forall e :: e in es ==> e == es[0] || e in es[1..];
    }
  }

  /** On a valid table that settles every entry, a run changes nothing and raises nothing. */
  lemma {:induction false} RunStable(k: Loader, rows: seq<Row>, es: seq<Entry>)
    requires TableValid(ModelOf(k), rows)
    requires forall e :: e in es ==> Settled(k, rows, e)
    ensures Run(k, rows, es) == Outcome(rows, None)
    decreases |es|
  {
    if es != [] {
      assert es[0] in es;
      StepStable(k, rows, es[0]);
      assert forall e :: e in es[1..] ==> e in es;
      RunStable(k, rows, es[1..]);
    }
  }

  /** Running a loader again after a run that raised nothing adds no row and raises nothing. */
  lemma RunIdempotent(k: Loader, rows: seq<Row>, es: seq<Entry>)
    requires TableValid(ModelOf(k), rows)
    requires Run(k, rows, es).error == None
    ensures Run(k, Run(k, rows, es).rows, es) == Outcome(Run(k, rows, es).rows, None)
  {
    RunKeepsValid(k, rows, es);
    RunSettles(k, rows, es);
    RunStable(k, Run(k, rows, es).rows, es);
  }

  /** A second `load_chemical_activity` with the same configuration adds nothing. */
  lemma LoadActivitiesIdempotent(rows: seq<Row>, cols: seq<Entry>)
    requires TableValid(ChemicalActivityModel, rows)
    requires LoadActivities(rows, cols).error == None
    ensures LoadActivities(LoadActivities(rows, cols).rows, cols) == Outcome(LoadActivities(rows, cols).rows, None)
  {
    RunIdempotent(ActivityLoader, rows, ActivityEntries(cols));
  }

  /** A second `load_plastic_additives` with the same configuration adds nothing. */
  lemma LoadAdditivesIdempotent(rows: seq<Row>, additives: seq<Entry>)
    requires TableValid(AdditiveModel, rows)
    requires LoadAdditives(rows, additives).error == None
    ensures LoadAdditives(LoadAdditives(rows, additives).rows, additives) ==
            Outcome(LoadAdditives(rows, additives).rows, None)
  {
    RunIdempotent(AdditiveLoader, rows, additives);
  }

  /** A full set of keyword arguments is taken as it is. */
  lemma ConstructAll(m: Model, kwargs: Attrs)
    requires kwargs.Keys == Columns(m)
    ensures Construct(m, kwargs) == Success(kwargs)
  {
    var r := Construct(m, kwargs).value;
    assert r == kwargs;
  }

  /** `ChemicalActivity(name=...)` leaves the description and the parent NULL. */
  lemma ConstructBare(name: Value)
    ensures Construct(ChemicalActivityModel, map[Name := name]) == Success(BareActivity(name))
  {
    var kw := map[Name := name];
    assert kw.Keys <= Columns(ChemicalActivityModel);
    var r := Construct(ChemicalActivityModel, kw).value;
    assert r.Keys == BareActivity(name).Keys;
    forall c | c in r ensures r[c] == BareActivity(name)[c] {
      if c != Name {
        assert c !in kw;
      }
    }
    assert r == BareActivity(name);
  }

  /** The activity rows of the two examples below. */
  function ExampleParent(): Row
  {
    Row(1, BareActivity(Text("A")))
  }

  function ExampleChild(): Row
  {
    Row(2, map[Name := Text("B"), Description := Null, ParentChemicalActivityId := Int(1)])
  }

  /** From an empty table, looking up "A" finds nothing and creating it by name alone stores the bare parent. */
  lemma ExampleCreateParent()
    ensures ExistsIn(ChemicalActivityModel, [], map[Name := Text("A")]) == Success(false)
    ensures CreateIn(ChemicalActivityModel, [], map[Name := Text("A")]) == Success(([ExampleParent()], ExampleParent()))
    ensures GetOrCreateIn(ChemicalActivityModel, [], map[Name := Text("A")]) == Success(([ExampleParent()], ExampleParent()))
  {
    ConstructBare(Text("A"));
    assert Admissible(ChemicalActivityModel, [], BareActivity(Text("A")));
    assert NextId([]) == 1;
    assert [] + [ExampleParent()] == [ExampleParent()];
  }

  /** With the parent stored, "A" is found and "B" is created pointing at it. */
  lemma ExampleCreateChild(b: Entry)
    requires b == map["name" := Text("B"), "depends_on" := Text("A")]
    ensures ResolveParent([ExampleParent()], b) == Success(([ExampleParent()], Int(1)))
    ensures ExistsIn(ChemicalActivityModel, [ExampleParent()], map[Name := Text("B")]) == Success(false)
    ensures CreateIn(ChemicalActivityModel, [ExampleParent()], ActivityKwargs(b, Int(1))) ==
            Success(([ExampleParent(), ExampleChild()], ExampleChild()))
  {
    var p := ExampleParent();
    ExampleFindParent(b);
    MatchesSingle(p, Name, Text("B"));
    ExampleInsertChild(b);
  }

  /** With the parent stored, the dependency "A" resolves to its id. */
  lemma ExampleFindParent(b: Entry)
    requires b == map["name" := Text("B"), "depends_on" := Text("A")]
    ensures ResolveParent([ExampleParent()], b) == Success(([ExampleParent()], Int(1)))
  {
    var p := ExampleParent();
    MatchesSingle(p, Name, Text("A"));
    assert One(ChemicalActivityModel, [p], map[Name := Text("A")]) == Success(p);
  }

  /** Inserting "B" after the parent gives it id 2 and parent 1. */
  lemma ExampleInsertChild(b: Entry)
    requires b == map["name" := Text("B"), "depends_on" := Text("A")]
    ensures CreateIn(ChemicalActivityModel, [ExampleParent()], ActivityKwargs(b, Int(1))) ==
            Success(([ExampleParent(), ExampleChild()], ExampleChild()))
  {
    var p := ExampleParent();
    ConstructAll(ChemicalActivityModel, ActivityKwargs(b, Int(1)));
    assert ActivityKwargs(b, Int(1)) == ExampleChild().attrs;
    assert MaxId([p]) == 1;
    assert Admissible(ChemicalActivityModel, [p], ExampleChild().attrs);
    assert [p] + [ExampleChild()] == [p, ExampleChild()];
  }

  /** A two-entry run is its two iterations in order. */
  lemma RunTwo(k: Loader, rows: seq<Row>, x: Entry, y: Entry)
    requires Step(k, rows, x).error == None
    ensures Run(k, rows, [x, y]) == Step(k, Step(k, rows, x).rows, y)
  {
    var o := Step(k, rows, x);
    assert [x, y][1..] == [y];
    assert [y][1..] == [];
    assert Run(k, o.rows, [y]) == Step(k, o.rows, y);
  }

  /** The entries of the two examples. */
  function EntryA(): Entry
  {
    map["name" := Text("A")]
  }

  function EntryAWithDescription(): Entry
  {
    map["name" := Text("A"), "description" := Text("D")]
  }

  function EntryBOnA(): Entry
  {
    map["name" := Text("B"), "depends_on" := Text("A")]
  }

  lemma ExampleStepA()
    ensures ActivityStep([], EntryA()) == Outcome([ExampleParent()], None)
  {
    var a := EntryA();
    assert "depends_on" !in a && "description" !in a;
    assert ResolveParent([], a) == Success(([], Null));
    ExampleCreateParent();
    assert ActivityKwargs(a, Null) == BareActivity(Text("A"));
    ConstructAll(ChemicalActivityModel, BareActivity(Text("A")));
    assert CreateIn(ChemicalActivityModel, [], ActivityKwargs(a, Null)) == Success(([ExampleParent()], ExampleParent()));
  }

  lemma ExampleStepB()
    ensures ActivityStep([ExampleParent()], EntryBOnA()) == Outcome([ExampleParent(), ExampleChild()], None)
  {
    ExampleCreateChild(EntryBOnA());
  }

  lemma ExampleStepBFirst()
    ensures ActivityStep([], EntryBOnA()) == Outcome([ExampleParent(), ExampleChild()], None)
  {
    var b := EntryBOnA();
    assert Get(b, "depends_on") == Text("A");
    ExampleCreateParent();
    assert ResolveParent([], b) == Success(([ExampleParent()], Int(1)));
    ExampleCreateChild(b);
  }

  lemma ExampleStepALater()
    ensures ActivityStep([ExampleParent(), ExampleChild()], EntryAWithDescription()) ==
            Outcome([ExampleParent(), ExampleChild()], None)
  {
    var a := EntryAWithDescription();
    assert "depends_on" !in a;
    var rows := [ExampleParent(), ExampleChild()];
    assert ResolveParent(rows, a) == Success((rows, Null));
    MatchesSingle(rows[0], Name, Text("A"));
    MatchesSingle(rows[1], Name, Text("A"));
    assert One(ChemicalActivityModel, rows, map[Name := Text("A")]) == Success(ExampleParent());
  }

  /** A child listed after its parent: both are created, the child pointing at the parent. */
  lemma ParentFirstExample()
    ensures LoadActivities([], [EntryA(), EntryBOnA()]) == Outcome([ExampleParent(), ExampleChild()], None)
  {
    assert ActivityEntries([EntryA(), EntryBOnA()]) == [EntryA(), EntryBOnA()];
    ExampleStepA();
    ExampleStepB();
    RunTwo(ActivityLoader, [], EntryA(), EntryBOnA());
  }

  /**
   * A child listed before its parent: the parent is created bare through
   * `depends_on`, and its own later entry, found by name, changes nothing,
   * so the description it supplies is never stored.
   */
  lemma ForwardReferenceExample()
    ensures LoadActivities([], [EntryBOnA(), EntryAWithDescription()]) ==
            Outcome([ExampleParent(), ExampleChild()], None)
  {
    assert ActivityEntries([EntryBOnA(), EntryAWithDescription()]) == [EntryBOnA(), EntryAWithDescription()];
    ExampleStepBFirst();
    ExampleStepALater();
    RunTwo(ActivityLoader, [], EntryBOnA(), EntryAWithDescription());
  }

  /** An activity entry without `depends_on` adds at most its own row, with a NULL parent. */
  lemma NoDependsStep(rows: seq<Row>, e: Entry)
    requires "depends_on" !in e
    ensures var o := ActivityStep(rows, e);
            rows <= o.rows && |o.rows| <= |rows| + 1 &&
            (|o.rows| == |rows| + 1 ==> "name" in e && o.rows[|rows|].attrs == ActivityKwargs(e, Null))
  {
    var o := ActivityStep(rows, e);
    assert ResolveParent(rows, e) == Success((rows, Null));
    if "name" in e && ExistsIn(ChemicalActivityModel, rows, map[Name := e["name"]]) == Success(false) {
      var cr := CreateIn(ChemicalActivityModel, rows, ActivityKwargs(e, Null));
      if cr.Success? {
        assert o.rows == cr.value.0 == rows + [cr.value.1];
        assert cr.value.1.attrs == ActivityKwargs(e, Null);
      }
    }
  }

  /**
   * Entries that are views of the typed `NeededColumn` dataclass have no
   * `depends_on` key, so every activity created from them has a NULL parent.
   */
  lemma {:induction false} TypedColumnsHaveNoParents(rows: seq<Row>, es: seq<Entry>)
    requires forall e :: e in es ==> "depends_on" !in e
    ensures forall i :: |rows| <= i < |Run(ActivityLoader, rows, es).rows| ==>
              Matches(Run(ActivityLoader, rows, es).rows[i], map[ParentChemicalActivityId := Null])
    decreases |es|
  {
    if es != [] {
      var o := ActivityStep(rows, es[0]);
      assert es[0] in es;
      NoDependsStep(rows, es[0]);
      if |o.rows| == |rows| + 1 {
        MatchesSingle(o.rows[|rows|], ParentChemicalActivityId, Null);
      }
      if o.error.None? {
        assert forall e :: e in es[1..] ==> e in es;
        TypedColumnsHaveNoParents(o.rows, es[1..]);
        RunExtends(ActivityLoader, o.rows, es[1..]);
        var final := Run(ActivityLoader, o.rows, es[1..]).rows;
        forall i | |rows| <= i < |final| ensures Matches(final[i], map[ParentChemicalActivityId := Null]) {
          if i < |o.rows| {
            assert final[i] == o.rows[i];
          }
        }
      }
    }
  }

  /** The typed configuration entries are all loaded: none is a general-information column. */
  lemma TypedColumnsAreLoaded(ncs: seq<Config.NeededColumn>)
    ensures var es := seq(|ncs|, i requires 0 <= i < |ncs| => Config.NeededColumnEntry(ncs[i]));
            ActivityEntries(es) == es && forall e :: e in es ==> "depends_on" !in e
  {
  }

  /** One turn of a loader's loop over the entries from position `i` on. */
  lemma RunUnfold(k: Loader, rows: seq<Row>, es: seq<Entry>, i: int)
    requires 0 <= i < |es|
    ensures Run(k, rows, es[i..]) ==
            var o := Step(k, rows, es[i]);
            if o.error.Some? then o else Run(k, o.rows, es[i + 1..])
  {
    assert es[i..][0] == es[i] && es[i..][1..] == es[i + 1..];
  }

  /** Updating one table twice leaves only the second update. */
  lemma UpdateTwice(t: map<Model, seq<Row>>, m: Model, a: seq<Row>, b: seq<Row>)
    ensures t[m := a][m := b] == t[m := b]
  {
  }

  // ---------------------------------------------------------------------
  // The session and the loader object
  // ---------------------------------------------------------------------

  /** The row an insert-or-lookup result hands back to the caller. */
  function RowOf(r: Result<(seq<Row>, Row), DbError>): Result<Row, DbError>
  {
    match r
    case Success((_, row)) => Success(row)
    case Failure(e) => Failure(e)
  }

  /** The table after an insert-or-lookup: the new table on success, the old one otherwise. */
  function TableAfter(rows: seq<Row>, r: Result<(seq<Row>, Row), DbError>): seq<Row>
  {
    if r.Success? then r.value.0 else rows
  }

  /** The database session: the rows of every mapped table. */
  class Session {
    var tables: map<Model, seq<Row>>

    /** Every mapped table is present and valid. */
    ghost predicate Valid()
      reads this
    {
      forall m: Model :: m in tables && TableValid(m, tables[m])
    }

    /** A session on a freshly created database: every table empty. */
    constructor ()
      ensures Valid()
      ensures forall m: Model :: m in tables && tables[m] == []
    {
      tables := map[AdditiveModel := [], IndustrySectorModel := [], ChemicalActivityModel := [],
                    EndOfLifeActivityModel := [], ReleaseTypeModel := [], RecordModel := []];
      new;
      forall m: Model ensures m in tables && tables[m] == [] {
        match m
        case AdditiveModel =>
        case IndustrySectorModel =>
        case ChemicalActivityModel =>
        case EndOfLifeActivityModel =>
        case ReleaseTypeModel =>
        case RecordModel =>
      }
    }

    /** `query(model).filter_by(**f).one()`. */
    method QueryOne(m: Model, f: Attrs) returns (r: Result<Row, DbError>)
      requires Valid()
      ensures r == One(m, tables[m], f)
    {
      r := One(m, tables[m], f);
    }

    /**
     * `add(element)` followed by `commit()`: the element is stored under the
     * next id, unless the commit is refused, which changes nothing.
     */
    method AddAndCommit(m: Model, attrs: Attrs) returns (r: Result<Row, DbError>)
      requires Valid()
      requires attrs.Keys == Columns(m)
      modifies this
      ensures Valid()
      ensures r.Success? <==> Admissible(m, old(tables[m]), attrs)
      ensures r.Success? ==> r.value == Row(NextId(old(tables[m])), attrs) &&
                             tables == old(tables)[m := old(tables[m]) + [r.value]]
      ensures r.Failure? ==> r.error == IntegrityError && tables == old(tables)
    {
      var rows := tables[m];
      if Admissible(m, rows, attrs) {
        var row := Row(NextId(rows), attrs);
        ConstructAll(m, attrs);
        CreateKeepsValid(m, rows, attrs);
        tables := tables[m := rows + [row]];
        r := Success(row);
      } else {
        r := Failure(IntegrityError);
      }
    }
  }

  /**
   * The parts of the configuration the loader reads: the columns of TRI
   * file 1b (`tri_files.file_1b.needed_columns`) and the configured
   * additives (`plastic_additives.tri_chem_id`).
   */
  datatype LoaderConfig = LoaderConfig(activityColumns: seq<Entry>, plasticAdditives: seq<Entry>)

  /** `TriDataLoader`: a configuration and the session it loads through. */
  class TriDataLoader {
    const config: LoaderConfig
    const session: Session

    constructor (config: LoaderConfig, session: Session)
      ensures this.config == config && this.session == session
    {
      this.config := config;
      this.session := session;
    }

    /** `element_exists`. */
    method ElementExists(m: Model, kwargs: Attrs) returns (r: Result<bool, DbError>)
      requires session.Valid()
      ensures r == ExistsIn(m, session.tables[m], kwargs)
    {
      var one := session.QueryOne(m, kwargs);
      match one
      case Success(_) => r := Success(true);
      case Failure(NoResultFound) => r := Success(false);
      case Failure(e) => r := Failure(e);
    }

    /** `create_element`. */
    method CreateElement(m: Model, kwargs: Attrs) returns (r: Result<Row, DbError>)
      requires session.Valid()
      modifies session
      ensures session.Valid()
      ensures r == RowOf(CreateIn(m, old(session.tables[m]), kwargs))
      ensures session.tables ==
              old(session.tables)[m := TableAfter(old(session.tables[m]), CreateIn(m, old(session.tables[m]), kwargs))]
    {
      var element := Construct(m, kwargs);
      if element.Failure? {
        assert session.tables == session.tables[m := session.tables[m]];
        return Failure(element.error);
      }
      r := session.AddAndCommit(m, element.value);
      if r.Failure? {
        assert session.tables == session.tables[m := session.tables[m]];
      }
    }

    /** `get_or_create`. */
    method GetOrCreate(m: Model, kwargs: Attrs) returns (r: Result<Row, DbError>)
      requires session.Valid()
      modifies session
      ensures session.Valid()
      ensures r == RowOf(GetOrCreateIn(m, old(session.tables[m]), kwargs))
      ensures session.tables ==
              old(session.tables)[m := TableAfter(old(session.tables[m]), GetOrCreateIn(m, old(session.tables[m]), kwargs))]
    {
      var element := session.QueryOne(m, kwargs);
      if element == Failure(NoResultFound) {
        r := CreateElement(m, kwargs);
      } else {
        assert session.tables == session.tables[m := session.tables[m]];
        r := element;
      }
    }

    /** The body of the `load_chemical_activity` loop, for one entry. */
    method LoadActivity(activity: Entry) returns (error: Option<DbError>)
      requires session.Valid()
      modifies session
      ensures session.Valid()
      ensures var o := ActivityStep(old(session.tables[ChemicalActivityModel]), activity);
              session.tables == old(session.tables)[ChemicalActivityModel := o.rows] && error == o.error
    {
      ghost var t0 := session.tables;
      ghost var cur := t0[ChemicalActivityModel];
      assert t0 == t0[ChemicalActivityModel := cur];
      ghost var o := ActivityStep(cur, activity);
      ghost var rp := ResolveParent(cur, activity);
      var dependencyId := Null;
      var dependencyName := Get(activity, "depends_on");
      if dependencyName != Null {
        // `dependency.id if dependency else None`: a stored element is always truthy.
        var dependency := GetOrCreate(ChemicalActivityModel, map[Name := dependencyName]);
        if dependency.Failure? {
          assert rp == Failure(dependency.error);
          assert o == Outcome(cur, Some(dependency.error));
          return Some(dependency.error);
        }
        dependencyId := Int(dependency.value.id);
      }
      ghost var rows1 := session.tables[ChemicalActivityModel];
      assert session.tables == t0[ChemicalActivityModel := rows1];
      assert rp == Success((rows1, dependencyId));
      if "name" !in activity {
        assert o == Outcome(rows1, Some(KeyError("name")));
        return Some(KeyError("name"));
      }
      var found := ElementExists(ChemicalActivityModel, map[Name := activity["name"]]);
      if found.Failure? {
        assert o == Outcome(rows1, Some(found.error));
        return Some(found.error);
      }
      if !found.value {
        var created := CreateElement(ChemicalActivityModel, ActivityKwargs(activity, dependencyId));
        UpdateTwice(t0, ChemicalActivityModel, rows1, session.tables[ChemicalActivityModel]);
        if created.Failure? {
          assert o == Outcome(rows1, Some(created.error));
          return Some(created.error);
        }
        assert o == Outcome(session.tables[ChemicalActivityModel], None);
      } else {
        assert o == Outcome(rows1, None);
      }
      return None;
    }

    /** `load_chemical_activity`: the activity table ends as the activity loader function says. */
    method LoadChemicalActivity() returns (error: Option<DbError>)
      requires session.Valid()
      modifies session
      ensures session.Valid()
      ensures var o := LoadActivities(old(session.tables[ChemicalActivityModel]), config.activityColumns);
              session.tables == old(session.tables)[ChemicalActivityModel := o.rows] && error == o.error
    {
      var activities := ActivityEntries(config.activityColumns);
      ghost var t0 := session.tables;
      ghost var rows0 := t0[ChemicalActivityModel];
      assert t0 == t0[ChemicalActivityModel := rows0];
      for i := 0 to |activities|
        invariant session.Valid()
        invariant session.tables == t0[ChemicalActivityModel := session.tables[ChemicalActivityModel]]
        invariant Run(ActivityLoader, rows0, activities) ==
                  Run(ActivityLoader, session.tables[ChemicalActivityModel], activities[i..])
      {
        ghost var cur := session.tables[ChemicalActivityModel];
        RunUnfold(ActivityLoader, cur, activities, i);
        error := LoadActivity(activities[i]);
        UpdateTwice(t0, ChemicalActivityModel, cur, session.tables[ChemicalActivityModel]);
        if error.Some? {
          return;
        }
      }
      assert activities[|activities|..] == [];
      return None;
    }

    /** The body of the `load_plastic_additives` loop, for one additive. */
    method LoadAdditive(additive: Entry) returns (error: Option<DbError>)
      requires session.Valid()
      modifies session
      ensures session.Valid()
      ensures var o := AdditiveStep(old(session.tables[AdditiveModel]), additive);
              session.tables == old(session.tables)[AdditiveModel := o.rows] && error == o.error
    {
      assert session.tables == old(session.tables)[AdditiveModel := session.tables[AdditiveModel]];
      if "CASRN" !in additive {
        return Some(KeyError("CASRN"));
      }
      var found := ElementExists(AdditiveModel, map[TriChemicalId := additive["CASRN"]]);
      if found.Failure? {
        return Some(found.error);
      }
      if !found.value {
        if "name" !in additive {
          return Some(KeyError("name"));
        }
        var created := CreateElement(AdditiveModel, map[Name := additive["name"], TriChemicalId := additive["CASRN"]]);
        if created.Failure? {
          return Some(created.error);
        }
      }
      return None;
    }

    /** `load_plastic_additives`: the additive table ends as the additive loader function says. */
    method LoadPlasticAdditives() returns (error: Option<DbError>)
      requires session.Valid()
      modifies session
      ensures session.Valid()
      ensures var o := LoadAdditives(old(session.tables[AdditiveModel]), config.plasticAdditives);
              session.tables == old(session.tables)[AdditiveModel := o.rows] && error == o.error
    {
      var additives := config.plasticAdditives;
      ghost var t0 := session.tables;
      ghost var rows0 := t0[AdditiveModel];
      assert t0 == t0[AdditiveModel := rows0];
      for i := 0 to |additives|
        invariant session.Valid()
        invariant session.tables == t0[AdditiveModel := session.tables[AdditiveModel]]
        invariant Run(AdditiveLoader, rows0, additives) == Run(AdditiveLoader, session.tables[AdditiveModel], additives[i..])
      {
        ghost var cur := session.tables[AdditiveModel];
        RunUnfold(AdditiveLoader, cur, additives, i);
        error := LoadAdditive(additives[i]);
        UpdateTwice(t0, AdditiveModel, cur, session.tables[AdditiveModel]);
        if error.Some? {
          return;
        }
      }
      assert additives[|additives|..] == [];
      return None;
    }
  }
}
