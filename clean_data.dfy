// The transformer (src/clean_data.py): raw records -> schema guard ->
// timestamp parsing -> lenient numeric repair -> Eco-Score -> four-column
// projection -> outlier filter. The pipeline is a method over the record
// sequence; each step is a pure function that the method is proved against.

module CleanData {
  import opened Table

  /** One record of the API's `records` array after flattening: column name to cell. */
  type Record = map<string, Cell>

  const REQUIRED_COLUMNS: seq<string> :=
    ["HourUTC", "HourDK", "PriceArea", "ProductionType", "CO2PerkWh", "CH4PerkWh", "N2OPerkWh"]

  /** 100-year global-warming potentials of methane and nitrous oxide. */
  const GWP_CH4: real := 28.0
  const GWP_N2O: real := 265.0

  /** Rows scoring at or above this are dropped as outliers. */
  const OUTLIER_LIMIT: real := 20000.0

  /** A record after the required columns are selected and their types converted. */
  datatype CleanRow = CleanRow(hourUtc: Stamp, hourDk: Stamp, priceArea: Cell, productionType: Cell,
                               co2: real, ch4: real, n2o: real)

  /** A clean row with the engineered `gCO2e_per_kWh` column added. */
  datatype ScoredRow = ScoredRow(clean: CleanRow, score: real)

  /** One line of the processed file: HourDK, PriceArea, ProductionType, gCO2e_per_kWh. */
  datatype OutputRow = OutputRow(hourDk: Stamp, priceArea: Cell, productionType: Cell, score: real)

  datatype Failure =
    | InputNotFound
    | ColumnsMissing(names: seq<string>)
    | BadTimestamp(column: string)

  /** How one run of the transformer ends. */
  datatype Outcome =
    | NoRecords                      // empty input: message, nothing written, success
    | Written(rows: seq<OutputRow>)  // the processed file was written with these rows
    | Failed(reason: Failure)        // message on stderr, nothing written
  {
    function ExitStatus(): int {
      if Failed? then 1 else 0
    }
  }

  // ---- Flattening and the schema guard ----

  /** The columns pandas builds from the records: every key some record has. */
  function Columns(records: seq<Record>): (cols: set<string>)
    ensures forall r :: r in records ==> r.Keys <= cols
    ensures forall c :: c in cols ==> exists r :: r in records && c in r
  {
    if records == [] then {}
    else records[0].Keys + Columns(records[1..])
  }

  /** `df.empty`: no rows, or rows but not a single column. */
  predicate IsEmptyFrame(records: seq<Record>) {
    |records| == 0 || Columns(records) == {}
  }

  lemma EmptyFrameIffNoKeys(records: seq<Record>)
    ensures IsEmptyFrame(records) <==> forall r :: r in records ==> r.Keys == {}
  {
    if !IsEmptyFrame(records) {
      var c :| c in Columns(records);
      var r :| r in records && c in r;
      assert c in r.Keys;
    }
  }

  /** The required names absent from the frame's columns, in the order of `required`. */
  function MissingColumns(required: seq<string>, present: set<string>): (missing: seq<string>)
    ensures forall i :: 0 <= i < |missing| ==> missing[i] in required && missing[i] !in present
    ensures forall i :: 0 <= i < |required| && required[i] !in present ==> required[i] in missing
    ensures SubsequenceOf(missing, required)
    ensures missing == [] <==> forall i :: 0 <= i < |required| ==> required[i] in present
  {
    Filter(required, c => c !in present)
  }

  /** The cell of `column` in one record; an absent key reads as a missing value. */
  function CellAt(r: Record, column: string): Cell {
    if column in r then r[column] else Null
  }

  // ---- Type conversion ----

  /** `pd.to_datetime` on one cell: a missing value becomes NaT; anything else goes to
      the parser, which may itself read a cell as NaT (an empty or "NaT" string), and a
      parser refusal is the exception pandas raises. */
  function ToDatetime(c: Cell, parseTime: Cell -> Option<Stamp>): (t: Option<Stamp>)
    ensures c.Null? ==> t == Some(NaT)
    ensures !c.Null? ==> (t.None? <==> parseTime(c).None?)
    ensures !c.Null? && t.Some? ==> t.value == parseTime(c).value
    ensures t == Some(NaT) <==> c.Null? || parseTime(c) == Some(NaT)
  {
    if c.Null? then Some(NaT) else parseTime(c)
  }

  /** Every cell of `column` converts without raising. */
  predicate ColumnParses(records: seq<Record>, column: string, parseTime: Cell -> Option<Stamp>) {
    forall k :: 0 <= k < |records| ==> ToDatetime(CellAt(records[k], column), parseTime).Some?
  }

  /** `pd.to_numeric(errors='coerce')`: a number, or None where it cannot parse. */
  function ToNumeric(c: Cell, parseNumber: string -> Option<real>): Option<real> {
    match c
    case Num(x) => Some(x)
    case Text(s) => parseNumber(s)
    case Null => None
  }

  /** Coercion followed by `fillna(0)`. */
  function Repair(c: Cell, parseNumber: string -> Option<real>): (v: real)
    ensures ToNumeric(c, parseNumber).Some? ==> v == ToNumeric(c, parseNumber).value
    ensures ToNumeric(c, parseNumber).None? ==> v == 0.0
    ensures c.Num? ==> v == c.number
    ensures c.Null? ==> v == 0.0
  {
    match ToNumeric(c, parseNumber)
    case Some(x) => x
    case None => 0.0
  }

  // ---- Eco-Score ----

  datatype Gas = CO2 | CH4 | N2O

  /** The 100-year global-warming potential of each gas, relative to CO2. */
  function Gwp(g: Gas): real {
    match g
    case CO2 => 1.0
    case CH4 => GWP_CH4
    case N2O => GWP_N2O
  }

  /** Sum of rate times potential over a list of gases. */
  function Equivalent(gases: seq<Gas>, rate: Gas -> real): real {
    if gases == [] then 0.0 else Gwp(gases[0]) * rate(gases[0]) + Equivalent(gases[1..], rate)
  }

  /** The three per-gas rates of a record, by gas. */
  function Rates(co2: real, ch4: real, n2o: real): Gas -> real {
    (g: Gas) => match g case CO2 => co2 case CH4 => ch4 case N2O => n2o
  }

  /** grams CO2-equivalent per kWh: every gas's rate weighted by its warming potential. */
  function EcoScore(co2: real, ch4: real, n2o: real): (score: real)
    ensures score == Equivalent([CO2, CH4, N2O], Rates(co2, ch4, n2o))
  {
    var rate := Rates(co2, ch4, n2o);
    assert [N2O][1..] == [];
    assert Equivalent([N2O], rate) == GWP_N2O * n2o;
    assert [CH4, N2O][1..] == [N2O];
    assert Equivalent([CH4, N2O], rate) == GWP_CH4 * ch4 + GWP_N2O * n2o;
    assert [CO2, CH4, N2O][1..] == [CH4, N2O];
    co2 + ch4 * GWP_CH4 + n2o * GWP_N2O
  }

  lemma EcoScoreNonNegative(co2: real, ch4: real, n2o: real)
    requires co2 >= 0.0 && ch4 >= 0.0 && n2o >= 0.0
    ensures EcoScore(co2, ch4, n2o) >= co2
  {
  }

  // ---- The row steps ----

  /** Select the required columns of a record and convert their types. */
  function Clean(r: Record, parseTime: Cell -> Option<Stamp>, parseNumber: string -> Option<real>): (c: CleanRow)
    requires ToDatetime(CellAt(r, "HourUTC"), parseTime).Some?
    requires ToDatetime(CellAt(r, "HourDK"), parseTime).Some?
  {
    CleanRow(ToDatetime(CellAt(r, "HourUTC"), parseTime).value,
             ToDatetime(CellAt(r, "HourDK"), parseTime).value,
             CellAt(r, "PriceArea"), CellAt(r, "ProductionType"),
             Repair(CellAt(r, "CO2PerkWh"), parseNumber),
             Repair(CellAt(r, "CH4PerkWh"), parseNumber),
             Repair(CellAt(r, "N2OPerkWh"), parseNumber))
  }

  /** Add the Eco-Score column, leaving the other columns as they are. */
  function Score(c: CleanRow): (s: ScoredRow) {
    ScoredRow(c, EcoScore(c.co2, c.ch4, c.n2o))
  }

  /** Keep HourDK, PriceArea, ProductionType and the score. */
  function Project(s: ScoredRow): (o: OutputRow) {
    OutputRow(s.clean.hourDk, s.clean.priceArea, s.clean.productionType, s.score)
  }

  /** One record through cleaning, scoring and projection. */
  function Engineer(r: Record, parseTime: Cell -> Option<Stamp>, parseNumber: string -> Option<real>): (o: OutputRow)
    requires ToDatetime(CellAt(r, "HourUTC"), parseTime).Some?
    requires ToDatetime(CellAt(r, "HourDK"), parseTime).Some?
    ensures o.hourDk == ToDatetime(CellAt(r, "HourDK"), parseTime).value
    ensures o.priceArea == CellAt(r, "PriceArea") && o.productionType == CellAt(r, "ProductionType")
    ensures o.score == Repair(CellAt(r, "CO2PerkWh"), parseNumber)
                       + 28.0 * Repair(CellAt(r, "CH4PerkWh"), parseNumber)
                       + 265.0 * Repair(CellAt(r, "N2OPerkWh"), parseNumber)
  {
    Project(Score(Clean(r, parseTime, parseNumber)))
  }

  /** All records engineered, in input order. */
  function EngineerAll(records: seq<Record>, parseTime: Cell -> Option<Stamp>, parseNumber: string -> Option<real>)
    : (rows: seq<OutputRow>)
    requires ColumnParses(records, "HourUTC", parseTime) && ColumnParses(records, "HourDK", parseTime)
  {
    seq(|records|, k requires 0 <= k < |records| => Engineer(records[k], parseTime, parseNumber))
  }

  predicate BelowLimit(o: OutputRow) {
    o.score < OUTLIER_LIMIT
  }

  /** The outlier filter: rows scoring under the limit, in their original order. */
  function DropOutliers(rows: seq<OutputRow>): (kept: seq<OutputRow>)
    ensures forall i :: 0 <= i < |kept| ==> kept[i].score < OUTLIER_LIMIT && kept[i] in rows
    ensures forall i :: 0 <= i < |rows| && rows[i].score < OUTLIER_LIMIT ==> rows[i] in kept
    ensures SubsequenceOf(kept, rows)
    ensures |kept| <= |rows|
    ensures |kept| == |rows| <==> forall i :: 0 <= i < |rows| ==> rows[i].score < OUTLIER_LIMIT
  {
    Filter(rows, BelowLimit)
  }

  /** The outlier filter drops no copy of a row under the limit: each kept value occurs
      as often as in the input, and a value at or over the limit not at all. */
  lemma DropOutliersKeepsCopies(rows: seq<OutputRow>)
    ensures forall o :: multiset(DropOutliers(rows))[o] == if o.score < OUTLIER_LIMIT then multiset(rows)[o] else 0
  {
    FilterCounts(rows, BelowLimit);
  }

  // ---- The whole run ----

  /** What one run does, given the decoded input file (None: the file is absent). */
  function Process(input: Option<seq<Record>>, parseTime: Cell -> Option<Stamp>, parseNumber: string -> Option<real>)
    : (outcome: Outcome)
    ensures outcome.NoRecords? <==> input.Some? && IsEmptyFrame(input.value)
    ensures outcome.Written? <==>
              input.Some? && !IsEmptyFrame(input.value)
              && MissingColumns(REQUIRED_COLUMNS, Columns(input.value)) == []
              && ColumnParses(input.value, "HourUTC", parseTime) && ColumnParses(input.value, "HourDK", parseTime)
    ensures outcome.Written? ==>
              |outcome.rows| <= |input.value|
              && forall i :: 0 <= i < |outcome.rows| ==> outcome.rows[i].score < OUTLIER_LIMIT
  {
    match input
    case None => Failed(InputNotFound)
    case Some(records) =>
      if IsEmptyFrame(records) then NoRecords
      else
        var missing := MissingColumns(REQUIRED_COLUMNS, Columns(records));
        if missing != [] then Failed(ColumnsMissing(missing))
        else if !ColumnParses(records, "HourUTC", parseTime) then Failed(BadTimestamp("HourUTC"))
        else if !ColumnParses(records, "HourDK", parseTime) then Failed(BadTimestamp("HourDK"))
        else Written(DropOutliers(EngineerAll(records, parseTime, parseNumber)))
  }

  /** `pd.to_datetime` over one column: the parsed stamps, or None if some cell raises. */
  method ParseDates(records: seq<Record>, column: string, parseTime: Cell -> Option<Stamp>)
    returns (stamps: Option<seq<Stamp>>)
    ensures stamps.Some? <==> ColumnParses(records, column, parseTime)
    ensures stamps.Some? ==> |stamps.value| == |records|
    ensures stamps.Some? ==> forall k :: 0 <= k < |records| ==>
              stamps.value[k] == ToDatetime(CellAt(records[k], column), parseTime).value
  {
    var parsed: seq<Stamp> := [];
    var k := 0;
    while k < |records|
      invariant 0 <= k <= |records| && |parsed| == k
      invariant forall j :: 0 <= j < k ==> ToDatetime(CellAt(records[j], column), parseTime) == Some(parsed[j])
    {
      var t := ToDatetime(CellAt(records[k], column), parseTime);
      if t.None? {
        return None;
      }
      parsed := parsed + [t.value];
      k := k + 1;
    }
    return Some(parsed);
  }

  /** `process_and_engineer_data`: the transformer run, step by step. */
  method ProcessAndEngineerData(input: Option<seq<Record>>, parseTime: Cell -> Option<Stamp>,
                                parseNumber: string -> Option<real>)
    returns (outcome: Outcome)
    ensures outcome == Process(input, parseTime, parseNumber)
  {
    if input.None? {
      return Failed(InputNotFound);
    }
    var records := input.value;
    var columns := Columns(records);
    if |records| == 0 || columns == {} {
      return NoRecords;
    }
    var missing := MissingColumns(REQUIRED_COLUMNS, columns);
    if missing != [] {
      return Failed(ColumnsMissing(missing));
    }

    var hourUtc := ParseDates(records, "HourUTC", parseTime);
    if hourUtc.None? {
      return Failed(BadTimestamp("HourUTC"));
    }
    var hourDk := ParseDates(records, "HourDK", parseTime);
    if hourDk.None? {
      return Failed(BadTimestamp("HourDK"));
    }

    var rows := EngineerRows(records, hourUtc.value, hourDk.value, parseTime, parseNumber);
    var kept := KeepBelowLimit(rows);
    return Written(kept);
  }

  /** Lines 46-69: coerce the three rates (unparseable or null becomes 0), add the
      Eco-Score and keep the four output columns, record by record. */
  method EngineerRows(records: seq<Record>, hourUtc: seq<Stamp>, hourDk: seq<Stamp>,
                      parseTime: Cell -> Option<Stamp>, parseNumber: string -> Option<real>)
    returns (rows: seq<OutputRow>)
    requires ColumnParses(records, "HourUTC", parseTime) && ColumnParses(records, "HourDK", parseTime)
    requires |hourUtc| == |records| == |hourDk|
    requires forall k :: 0 <= k < |records| ==> hourUtc[k] == ToDatetime(CellAt(records[k], "HourUTC"), parseTime).value
    requires forall k :: 0 <= k < |records| ==> hourDk[k] == ToDatetime(CellAt(records[k], "HourDK"), parseTime).value
    ensures rows == EngineerAll(records, parseTime, parseNumber)
  {
    rows := [];
    for k := 0 to |records|
      invariant |rows| == k
      invariant forall j :: 0 <= j < k ==> rows[j] == Engineer(records[j], parseTime, parseNumber)
    {
      var r := records[k];
      var clean := CleanRow(hourUtc[k], hourDk[k], CellAt(r, "PriceArea"), CellAt(r, "ProductionType"),
                            Repair(CellAt(r, "CO2PerkWh"), parseNumber),
                            Repair(CellAt(r, "CH4PerkWh"), parseNumber),
                            Repair(CellAt(r, "N2OPerkWh"), parseNumber));
      var score := clean.co2 + clean.ch4 * GWP_CH4 + clean.n2o * GWP_N2O;
      rows := rows + [OutputRow(clean.hourDk, clean.priceArea, clean.productionType, score)];
    }
  }

  /** Line 73: the boolean mask `gCO2e_per_kWh < 20000`. */
  method KeepBelowLimit(rows: seq<OutputRow>) returns (kept: seq<OutputRow>)
    ensures kept == DropOutliers(rows)
  {
    kept := [];
    for k := 0 to |rows|
      invariant kept == DropOutliers(rows[..k])
    {
      assert rows[..k + 1] == rows[..k] + [rows[k]];
      FilterAppend(rows[..k], [rows[k]], BelowLimit);
      if rows[k].score < OUTLIER_LIMIT {
        kept := kept + [rows[k]];
      }
    }
    assert rows[..|rows|] == rows;
  }

  // ---- What a run promises ----

  lemma AbsentInputFails(parseTime: Cell -> Option<Stamp>, parseNumber: string -> Option<real>)
    ensures Process(None, parseTime, parseNumber) == Failed(InputNotFound)
    ensures Process(None, parseTime, parseNumber).ExitStatus() == 1
  {
  }

  lemma EmptyInputWritesNothing(records: seq<Record>, parseTime: Cell -> Option<Stamp>, parseNumber: string -> Option<real>)
    requires IsEmptyFrame(records)
    ensures Process(Some(records), parseTime, parseNumber) == NoRecords
    ensures Process(Some(records), parseTime, parseNumber).ExitStatus() == 0
  {
  }

  /** The schema guard names exactly the required columns that no record has. */
  lemma MissingAreAbsentEverywhere(records: seq<Record>)
    ensures var missing := MissingColumns(REQUIRED_COLUMNS, Columns(records));
            forall c :: c in missing <==> c in REQUIRED_COLUMNS && forall r :: r in records ==> c !in r
  {
    var cols := Columns(records);
    var missing := MissingColumns(REQUIRED_COLUMNS, cols);
    forall c ensures c in missing <==> c in REQUIRED_COLUMNS && forall r :: r in records ==> c !in r {
      if c in missing {
        var i :| 0 <= i < |missing| && missing[i] == c;
        forall r | r in records ensures c !in r {
          assert r.Keys <= cols;
        }
      }
      if c in REQUIRED_COLUMNS && forall r :: r in records ==> c !in r {
        var i :| 0 <= i < |REQUIRED_COLUMNS| && REQUIRED_COLUMNS[i] == c;
        assert c !in cols;
      }
    }
  }

  /** With records present, the run fails on the schema guard exactly when some
      required column is missing; it then exits 1 and writes nothing. */
  lemma SchemaGuardFails(records: seq<Record>, parseTime: Cell -> Option<Stamp>, parseNumber: string -> Option<real>)
    requires !IsEmptyFrame(records)
    ensures var missing := MissingColumns(REQUIRED_COLUMNS, Columns(records));
            && (missing != [] <==> Process(Some(records), parseTime, parseNumber) == Failed(ColumnsMissing(missing)))
            && (missing != [] ==> Process(Some(records), parseTime, parseNumber).ExitStatus() == 1)
  {
  }

  /** A date-time pandas refuses in HourUTC stops a run that passed the schema guard. */
  lemma BadHourUtcFails(records: seq<Record>, parseTime: Cell -> Option<Stamp>, parseNumber: string -> Option<real>)
    requires !IsEmptyFrame(records) && MissingColumns(REQUIRED_COLUMNS, Columns(records)) == []
    requires !ColumnParses(records, "HourUTC", parseTime)
    ensures Process(Some(records), parseTime, parseNumber) == Failed(BadTimestamp("HourUTC"))
    ensures Process(Some(records), parseTime, parseNumber).ExitStatus() == 1
  {
  }

  /** A written file holds the engineered records that pass the outlier filter. */
  lemma WrittenIsFilteredEngineering(records: seq<Record>, parseTime: Cell -> Option<Stamp>,
                                     parseNumber: string -> Option<real>, out: seq<OutputRow>)
    requires Process(Some(records), parseTime, parseNumber) == Written(out)
    ensures ColumnParses(records, "HourUTC", parseTime) && ColumnParses(records, "HourDK", parseTime)
    ensures out == DropOutliers(EngineerAll(records, parseTime, parseNumber))
  {
  }

  /** Records that engineer to the same row are all written: a row under the limit
      occurs in the file as often as among the engineered records. */
  lemma KeptRecordCopies(records: seq<Record>, parseTime: Cell -> Option<Stamp>, parseNumber: string -> Option<real>,
                         out: seq<OutputRow>)
    requires ColumnParses(records, "HourUTC", parseTime) && ColumnParses(records, "HourDK", parseTime)
    requires out == DropOutliers(EngineerAll(records, parseTime, parseNumber))
    ensures forall o :: multiset(out)[o]
              == if o.score < OUTLIER_LIMIT then multiset(EngineerAll(records, parseTime, parseNumber))[o] else 0
  {
    DropOutliersKeepsCopies(EngineerAll(records, parseTime, parseNumber));
  }

  /** What the filtered output keeps, stated per input record. */
  lemma KeptRecords(records: seq<Record>, parseTime: Cell -> Option<Stamp>, parseNumber: string -> Option<real>,
                    out: seq<OutputRow>)
    requires ColumnParses(records, "HourUTC", parseTime) && ColumnParses(records, "HourDK", parseTime)
    requires out == DropOutliers(EngineerAll(records, parseTime, parseNumber))
    ensures forall i :: 0 <= i < |out| ==> out[i].score < OUTLIER_LIMIT
    ensures SubsequenceOf(out, EngineerAll(records, parseTime, parseNumber))
    ensures forall k :: 0 <= k < |records| && Engineer(records[k], parseTime, parseNumber).score < OUTLIER_LIMIT
              ==> Engineer(records[k], parseTime, parseNumber) in out
    ensures |out| <= |records|
    ensures |out| == |records| <==>
              forall k :: 0 <= k < |records| ==> Engineer(records[k], parseTime, parseNumber).score < OUTLIER_LIMIT
  {
    var all := EngineerAll(records, parseTime, parseNumber);
    forall k | 0 <= k < |records| ensures all[k] == Engineer(records[k], parseTime, parseNumber) {
    }
  }

  /** A raw record with CO2 100, CH4 1 and N2O 0.1 scores 154.5. */
  lemma ScenarioScore(r: Record, parseTime: Cell -> Option<Stamp>, parseNumber: string -> Option<real>)
    requires ToDatetime(CellAt(r, "HourUTC"), parseTime).Some?
    requires ToDatetime(CellAt(r, "HourDK"), parseTime).Some?
    requires CellAt(r, "CO2PerkWh") == Num(100.0)
    requires CellAt(r, "CH4PerkWh") == Num(1.0)
    requires CellAt(r, "N2OPerkWh") == Num(0.1)
    ensures Engineer(r, parseTime, parseNumber).score == 154.5
  {
  }

  /** A record whose rates are text the parser refuses, or null, scores 0. */
  lemma UnparseableRatesScoreZero(r: Record, parseTime: Cell -> Option<Stamp>, parseNumber: string -> Option<real>)
    requires ToDatetime(CellAt(r, "HourUTC"), parseTime).Some?
    requires ToDatetime(CellAt(r, "HourDK"), parseTime).Some?
    requires forall g :: g in ["CO2PerkWh", "CH4PerkWh", "N2OPerkWh"] ==> ToNumeric(CellAt(r, g), parseNumber).None?
    ensures Engineer(r, parseTime, parseNumber).score == 0.0
  {
    assert "CO2PerkWh" in ["CO2PerkWh", "CH4PerkWh", "N2OPerkWh"];
    assert "CH4PerkWh" in ["CO2PerkWh", "CH4PerkWh", "N2OPerkWh"];
    assert "N2OPerkWh" in ["CO2PerkWh", "CH4PerkWh", "N2OPerkWh"];
  }

  /** Raw data without a ProductionType column fails with exit status 1, and the
      error names ProductionType and nothing else. */
  lemma ScenarioMissingProductionType(parseTime: Cell -> Option<Stamp>, parseNumber: string -> Option<real>)
    ensures var out := Process(Some([WithoutProductionType()]), parseTime, parseNumber);
            && out.Failed? && out.reason.ColumnsMissing? && out.ExitStatus() == 1
            && "ProductionType" in out.reason.names
            && forall i :: 0 <= i < |out.reason.names| ==> out.reason.names[i] == "ProductionType"
  {
    var r := WithoutProductionType();
    ColumnsOfOne(r);
    KeysWithoutProductionType();
    OnlyProductionTypeMissing(r.Keys);
    SchemaGuardFails([r], parseTime, parseNumber);
  }

  /** A record that has every required column except ProductionType. */
  function WithoutProductionType(): Record {
    map["HourUTC" := Text("2025-01-01T00:00:00"), "HourDK" := Text("2025-01-01T01:00:00"),
        "PriceArea" := Text("DK1"), "CO2PerkWh" := Num(100.0), "CH4PerkWh" := Num(1.0), "N2OPerkWh" := Num(0.1)]
  }

  lemma ColumnsOfOne(r: Record)
    ensures Columns([r]) == r.Keys
  {
    assert [r][1..] == [];
  }

  lemma KeysWithoutProductionType()
    ensures "ProductionType" !in WithoutProductionType().Keys
    ensures forall k :: 0 <= k < |REQUIRED_COLUMNS| && k != 3 ==> REQUIRED_COLUMNS[k] in WithoutProductionType().Keys
  {
  }

  lemma OnlyProductionTypeMissing(cols: set<string>)
    requires "ProductionType" !in cols
    requires forall k :: 0 <= k < |REQUIRED_COLUMNS| && k != 3 ==> REQUIRED_COLUMNS[k] in cols
    ensures var missing := MissingColumns(REQUIRED_COLUMNS, cols);
            "ProductionType" in missing && forall i :: 0 <= i < |missing| ==> missing[i] == "ProductionType"
  {
    var missing := MissingColumns(REQUIRED_COLUMNS, cols);
    assert REQUIRED_COLUMNS[3] == "ProductionType";
    assert REQUIRED_COLUMNS[3] in missing;
    forall i | 0 <= i < |missing| ensures missing[i] == "ProductionType" {
      assert missing[i] in REQUIRED_COLUMNS && missing[i] !in cols;
      var k :| 0 <= k < |REQUIRED_COLUMNS| && REQUIRED_COLUMNS[k] == missing[i];
      assert k == 3;
    }
  }
}
