/** The frame the sync job moves: rows read from the source `admin` table as a list of
    column-to-value maps, the audit-column backfill, and the `dtype_mapping`-driven
    type coercion that runs before the rows are appended to the target. */
module SyncFrame {
  import opened Common

  type ColName = string

  /** A cell as pandas holds it: missing (None, NaN or NaT), an integer, a number, a
      string or a datetime. */
  datatype Value = Null | Int(i: int) | Real(x: real) | Text(s: string) | Time(t: Timestamp)

  type Row = map<ColName, Value>

  /** A DataFrame: its column labels and its rows. */
  datatype Frame = Frame(columns: set<ColName>, rows: seq<Row>)

  /** Every row has a cell for every column and for nothing else. */
  predicate WellFormed(f: Frame) {
    forall j :: 0 <= j < |f.rows| ==> f.rows[j].Keys == f.columns
  }

  /** The SQLAlchemy column types `dtype_mapping` uses. */
  datatype Dtype = IntegerT | FloatT | StringT(length: nat) | DateTimeT

  /** `dtype_mapping`: the declared type of every known column of `admin`. */
  const DTYPE_MAPPING: map<ColName, Dtype> := map[
    "Udise_code" := IntegerT,
    "State_ID" := IntegerT,
    "State_Name" := StringT(200),
    "District_ID" := IntegerT,
    "District_name" := StringT(200),
    "Block_ID" := IntegerT,
    "Block_name" := StringT(200),
    "Cluster_ID" := IntegerT,
    "Cluster_name" := StringT(200),
    "School_location_type" := IntegerT,
    "School_Name" := StringT(300),
    "Latitude" := FloatT,
    "Longitude" := FloatT,
    "School_management_type" := StringT(150),
    "Type_of_school" := IntegerT,
    "School_category_code" := IntegerT,
    "Is_Active" := StringT(10),
    "School_classification" := IntegerT,
    "Minority_managed" := IntegerT,
    "lowest_class_in_school" := IntegerT,
    "Highest_class_in_school" := IntegerT,
    "Total_Students" := IntegerT,
    "Total_Students_Boys" := IntegerT,
    "Total_Students_girls" := IntegerT,
    "Total_Teachers" := IntegerT,
    "Total_Teachers_Male" := IntegerT,
    "Total_Teachers_Female" := IntegerT,
    "Total_Teachers_Transgender" := IntegerT,
    "Internet_Availability" := IntegerT,
    "Electricity_Availability" := IntegerT,
    "Smart_Classrooms_Availability" := IntegerT,
    "Toilet_Availability" := IntegerT,
    "Total_Boys_Toilet" := IntegerT,
    "Total_Girls_Toilet" := IntegerT,
    "Drinking_Water_Availability" := IntegerT,
    "Boundary_wall_type" := IntegerT,
    "Fire_extinguisher_available" := IntegerT,
    "year_of_establishment" := DateTimeT,
    "Free_uniform" := IntegerT,
    "Free_Textbook_primary" := IntegerT,
    "Free_Textbook_upper_primary" := IntegerT,
    "Actual_Teaching_Days" := IntegerT,
    "SMC_Formation_date" := DateTimeT,
    "SMC_Status" := StringT(50),
    "Total_SMC_Members" := IntegerT,
    "Is_ICT_lab" := IntegerT,
    "Total_Laptops" := IntegerT,
    "Total_Functional_desktops" := IntegerT,
    "Total_Functional_laptops" := IntegerT,
    "Total_Functional_Tablets" := IntegerT,
    "Total_Functional_digital_boards" := IntegerT,
    "Total_Functional_projectors" := IntegerT,
    "created_at" := DateTimeT,
    "updated_at" := DateTimeT,
    "ingested_at" := DateTimeT,
    "Timestamp" := DateTimeT
  ]

  /** The primary-key column and the incremental-sync cursor column. */
  const KEY_COLUMN: ColName := "Udise_code"
  const TIMESTAMP_COLUMN: ColName := "Timestamp"

  /** The audit columns the job adds when the source does not carry them, in order. */
  const AUDIT_COLUMNS: seq<ColName> := ["created_at", "updated_at", "ingested_at"]

  // ---------------------------------------------------------------------------
  // Audit-column backfill.

  /** Every row with cell `c` set to `v`. */
  function SetColumn(rows: seq<Row>, c: ColName, v: Value): (r: seq<Row>)
    ensures |r| == |rows|
    ensures forall j :: 0 <= j < |rows| ==> r[j] == rows[j][c := v]
  {
    if |rows| == 0 then [] else [rows[0][c := v]] + SetColumn(rows[1..], c, v)
  }

  /** `df[c] = v` for a column `c` the frame does not carry yet. */
  function AddColumn(f: Frame, c: ColName, v: Value): (r: Frame)
    requires WellFormed(f) && c !in f.columns
    ensures WellFormed(r) && r.columns == f.columns + {c} && |r.rows| == |f.rows|
    ensures forall j, d :: 0 <= j < |f.rows| && d in f.columns ==> r.rows[j][d] == f.rows[j][d]
    ensures forall j :: 0 <= j < |f.rows| ==> r.rows[j][c] == v
  {
    Frame(f.columns + {c}, SetColumn(f.rows, c, v))
  }

  /** `for col in cols: if col not in df.columns: df[col] = datetime.utcnow()`, where
      `clock(col)` is the instant `utcnow()` returns when column `col` is filled. */
  function BackfillFrom(f: Frame, cols: seq<ColName>, clock: ColName -> Timestamp): (r: Frame)
    requires WellFormed(f)
    ensures WellFormed(r)
    ensures r.columns == f.columns + (set c | c in cols)
    ensures |r.rows| == |f.rows|
    ensures forall j, c :: 0 <= j < |f.rows| && c in f.columns ==> r.rows[j][c] == f.rows[j][c]
    ensures forall j, c :: 0 <= j < |f.rows| && c in cols && c !in f.columns ==> r.rows[j][c] == Time(clock(c))
    decreases |cols|
  {
    if |cols| == 0 then f
    else
      var c := cols[0];
      assert forall d :: d in cols <==> d == c || d in cols[1..];
      if c in f.columns then BackfillFrom(f, cols[1..], clock)
      else
        var g := AddColumn(f, c, Time(clock(c)));
        var r := BackfillFrom(g, cols[1..], clock);
        assert forall j :: 0 <= j < |f.rows| ==> r.rows[j][c] == Time(clock(c)) by {
          assert forall j :: 0 <= j < |f.rows| ==> r.rows[j][c] == g.rows[j][c];
        }
        r
  }

  /** The audit-column step of the job. */
  function Backfill(f: Frame, clock: ColName -> Timestamp): (r: Frame)
    requires WellFormed(f)
  {
    BackfillFrom(f, AUDIT_COLUMNS, clock)
  }

  /** Backfill leaves the rows' count and every cell the source carried as they were,
      adds each audit column the source lacked, filled in every row with the instant
      it was added, and adds nothing else. */
  lemma BackfillKeepsPresentColumns(f: Frame, clock: ColName -> Timestamp)
    requires WellFormed(f)
    ensures var r := Backfill(f, clock);
            && WellFormed(r)
            && r.columns == f.columns + {"created_at", "updated_at", "ingested_at"}
            && |r.rows| == |f.rows|
            && (forall j, c :: 0 <= j < |f.rows| && c in f.columns ==> r.rows[j][c] == f.rows[j][c])
            && (forall j, c :: 0 <= j < |f.rows| && c in AUDIT_COLUMNS && c !in f.columns ==>
                  r.rows[j][c] == Time(clock(c)))
  {
    assert (set c | c in AUDIT_COLUMNS) == {"created_at", "updated_at", "ingested_at"};
  }

  // ---------------------------------------------------------------------------
  // Type coercion.

  /** The pandas conversions the job calls, left abstract: `to_numeric` and
      `to_datetime` with `errors="coerce"` (no value when the cell does not parse)
      and `astype(str)` (always a string; a missing cell becomes a string too). */
  datatype Parsers = Parsers(toNumeric: Value -> Option<real>, toDatetime: Value -> Option<Timestamp>, toText: Value -> string)

  /** `astype(int)` on a finite number: truncation toward zero. */
  function Truncate(x: real): (n: int)
    ensures 0.0 <= x ==> n as real <= x < n as real + 1.0
    ensures x < 0.0 ==> n as real - 1.0 < x <= n as real
  {
    if 0.0 <= x then x.Floor else -((-x).Floor)
  }

  /** The shape a cell of a column of type `dt` has once it has been coerced. */
  predicate Conforms(dt: Dtype, v: Value) {
    match dt
    case IntegerT => v.Int?
    case FloatT => v.Real? || v.Null?
    case StringT(_) => v.Text?
    case DateTimeT => v.Time? || v.Null?
  }

  /** One cell through the conversion for its column's type: integers default to 0
      and floats and datetimes to missing when the cell does not parse. */
  function CoerceCell(dt: Dtype, v: Value, p: Parsers): (r: Value)
    ensures Conforms(dt, r)
  {
    match dt
    case IntegerT => Int(Truncate(p.toNumeric(v).GetOr(0.0)))
    case FloatT => (match p.toNumeric(v) case Some(x) => Real(x) case None => Null)
    case StringT(_) => Text(p.toText(v))
    case DateTimeT => (match p.toDatetime(v) case Some(t) => Time(t) case None => Null)
  }

  /** A cell that does not parse takes the default of its column's type: 0 for
      integers, missing for floats and datetimes. */
  lemma UnparseableDefaults(v: Value, p: Parsers)
    ensures p.toNumeric(v) == None ==> CoerceCell(IntegerT, v, p) == Int(0) && CoerceCell(FloatT, v, p) == Null
    ensures p.toDatetime(v) == None ==> CoerceCell(DateTimeT, v, p) == Null
  {
  }

  /** The cell of column `c` after the coercion loop over the declared types
      `schema`: converted when the column has a declared type and its conversion did
      not raise; left as it was otherwise. */
  function CellAfter(schema: map<ColName, Dtype>, c: ColName, v: Value, p: Parsers, raises: ColName -> bool): Value {
    if c in schema && !raises(c) then CoerceCell(schema[c], v, p) else v
  }

  /** Column `c` of every row converted to type `dt`. */
  function CoerceColumn(rows: seq<Row>, c: ColName, dt: Dtype, p: Parsers): (r: seq<Row>)
    requires forall j :: 0 <= j < |rows| ==> c in rows[j]
    ensures |r| == |rows|
    ensures forall j :: 0 <= j < |rows| ==> r[j] == rows[j][c := CoerceCell(dt, rows[j][c], p)]
  {
    if |rows| == 0 then [] else [rows[0][c := CoerceCell(dt, rows[0][c], p)]] + CoerceColumn(rows[1..], c, dt, p)
  }

  /** A row after the coercion loop, cell by cell. */
  function CoerceRow(row: Row, schema: map<ColName, Dtype>, p: Parsers, raises: ColName -> bool): (r: Row)
    ensures r.Keys == row.Keys
  {
    map c | c in row :: CellAfter(schema, c, row[c], p, raises)
  }

  /** The frame the coercion loop produces, defined row by row: the reference the
      loop in `CoerceTypes` is proved against. */
  function Coerced(f: Frame, schema: map<ColName, Dtype>, p: Parsers, raises: ColName -> bool): (r: Frame)
    ensures r.columns == f.columns && |r.rows| == |f.rows|
    ensures WellFormed(f) ==> WellFormed(r)
  {
    Frame(f.columns, seq(|f.rows|, j requires 0 <= j < |f.rows| => CoerceRow(f.rows[j], schema, p, raises)))
  }

  /** The columns whose conversion raised, which the loop reports. */
  function ConversionErrors(f: Frame, schema: map<ColName, Dtype>, raises: ColName -> bool): set<ColName> {
    set c | c in f.columns && c in schema && raises(c)
  }

  /** One pass of the loop body for column `c`: converted unless it is absent or
      its conversion raises. */
  function CoerceStep(g: Frame, c: ColName, schema: map<ColName, Dtype>, p: Parsers, raises: ColName -> bool): Frame
    requires WellFormed(g) && c in schema
  {
    if c in g.columns && !raises(c) then Frame(g.columns, CoerceColumn(g.rows, c, schema[c], p)) else g
  }

  /** The loop's state with the columns of `remaining` still to do: the columns
      already done hold their converted cells, the others their original ones. */
  predicate CoercedExcept(f: Frame, g: Frame, schema: map<ColName, Dtype>, p: Parsers, raises: ColName -> bool, remaining: set<ColName>) {
    && WellFormed(f) && WellFormed(g) && g.columns == f.columns && |g.rows| == |f.rows|
    && forall j, c :: 0 <= j < |f.rows| && c in f.columns ==>
         g.rows[j][c] == if c in remaining then f.rows[j][c] else CellAfter(schema, c, f.rows[j][c], p, raises)
  }

  /** Doing column `c` moves it from the columns still to do to the columns done. */
  lemma CoerceStepAdvances(f: Frame, g: Frame, c: ColName, schema: map<ColName, Dtype>, p: Parsers, raises: ColName -> bool, remaining: set<ColName>)
    requires c in remaining && c in schema
    requires CoercedExcept(f, g, schema, p, raises, remaining)
    ensures CoercedExcept(f, CoerceStep(g, c, schema, p, raises), schema, p, raises, remaining - {c})
  {
  }

  /** The conversion loop `for col in dtype_mapping` (the job passes `DTYPE_MAPPING`
      as `schema`): every declared column the frame carries is converted in turn; a
      conversion that raises leaves its column as it was and is reported (`errors`),
      and the loop goes on with the next column. Columns are independent, so the
      order of the loop does not matter. */
  method CoerceTypes(f: Frame, schema: map<ColName, Dtype>, p: Parsers, raises: ColName -> bool)
    returns (g: Frame, errors: set<ColName>)
    requires WellFormed(f)
    ensures WellFormed(g) && g.columns == f.columns && |g.rows| == |f.rows|
    ensures forall j, c :: 0 <= j < |f.rows| && c in f.columns ==>
              g.rows[j][c] == CellAfter(schema, c, f.rows[j][c], p, raises)
    ensures errors == ConversionErrors(f, schema, raises)
    ensures g == Coerced(f, schema, p, raises)
  {
    g := f;
    errors := {};
    var remaining := schema.Keys;
    while remaining != {}
      invariant remaining <= schema.Keys
      invariant CoercedExcept(f, g, schema, p, raises, remaining)
      invariant errors == set c | c in f.columns && c in schema && c !in remaining && raises(c)
      decreases |remaining|
    {
      var c :| c in remaining;
      CoerceStepAdvances(f, g, c, schema, p, raises, remaining);
      if c in g.columns && raises(c) {
        errors := errors + {c};
      }
      g := CoerceStep(g, c, schema, p, raises);
      remaining := remaining - {c};
    }
    forall j | 0 <= j < |g.rows|
      ensures g.rows[j] == Coerced(f, schema, p, raises).rows[j]
    {
      assert g.rows[j].Keys == f.rows[j].Keys;
    }
  }

  /** After the loop every column with a declared type whose conversion did not raise
      holds only cells of that type's shape: integers never missing, strings never
      missing, floats and datetimes a value or missing. */
  lemma CoercedConforms(f: Frame, g: Frame, schema: map<ColName, Dtype>, p: Parsers, raises: ColName -> bool)
    requires WellFormed(f) && WellFormed(g) && g.columns == f.columns && |g.rows| == |f.rows|
    requires forall j, c :: 0 <= j < |f.rows| && c in f.columns ==>
               g.rows[j][c] == CellAfter(schema, c, f.rows[j][c], p, raises)
    ensures forall j, c :: 0 <= j < |g.rows| && c in g.columns && c in schema && !raises(c) ==>
              Conforms(schema[c], g.rows[j][c])
  {
  }
}
