// The dashboard's current-status logic (app.py): the processed rows are sorted
// by local hour, each region's last two rows give the current reading and its
// change, and the reading is classified into one of three tiers.

module Dashboard {
  import opened Table
  import opened CleanData

  /** Upper bounds (inclusive) of the two lower tiers, in gCO2e per kWh. */
  const EXCELLENT_MAX: real := 75.0
  const GOOD_MAX: real := 150.0

  /** The two price areas shown, in display order. */
  const REGIONS: seq<string> := ["DK1", "DK2"]

  /** The alert box kind a recommendation is shown with. */
  datatype Alert = Success | Info | Warning

  /** The recommendation tiers, each with its message and alert kind. */
  datatype Tier = Excellent | Good | High {
    function Message(): string {
      match this
      case Excellent => "✅ **Excellent!** A great time for high-load tasks."
      case Good => "\U{1F44D} **Good.** A reasonable time to use energy."
      case High => "⚠️ **High.** Consider waiting for a greener time if you can."
    }

    function Kind(): Alert {
      match this
      case Excellent => Success
      case Good => Info
      case High => Warning
    }

    /** Position from greenest to most carbon-intensive. */
    function Rank(): nat {
      match this
      case Excellent => 0
      case Good => 1
      case High => 2
    }
  }

  // ---- The three-tier policy ----

  function Classify(score: real): (t: Tier)
    ensures t == Excellent <==> score <= EXCELLENT_MAX
    ensures t == Good <==> EXCELLENT_MAX < score <= GOOD_MAX
    ensures t == High <==> GOOD_MAX < score
  {
    if score <= EXCELLENT_MAX then Excellent
    else if score <= GOOD_MAX then Good
    else High
  }

  /** `get_recommendation_and_color`: the message and the alert kind for a score. */
  function Recommendation(score: real): (rec: (string, Alert))
    ensures rec.1 == Success <==> score <= EXCELLENT_MAX
    ensures rec.1 == Info <==> EXCELLENT_MAX < score <= GOOD_MAX
    ensures rec.1 == Warning <==> GOOD_MAX < score
    ensures rec.0 == Excellent.Message() <==> rec.1 == Success
    ensures rec.0 == Good.Message() <==> rec.1 == Info
    ensures rec.0 == High.Message() <==> rec.1 == Warning
  {
    var t := Classify(score);
    (t.Message(), t.Kind())
  }

  /** Each tier has its own alert kind and its own message. */
  lemma TiersAreDistinguishable(t: Tier, u: Tier)
    ensures t.Kind() == u.Kind() <==> t == u
    ensures t.Message() == u.Message() <==> t == u
  {
  }

  /** A higher score never gets a greener tier. */
  lemma ClassifyMonotone(a: real, b: real)
    requires a <= b
    ensures Classify(a).Rank() <= Classify(b).Rank()
  {
  }

  /** The worked example: CO2 100, CH4 1, N2O 0.1 scores 154.5, which is in the high tier. */
  lemma ScenarioHighTier()
    ensures EcoScore(100.0, 1.0, 0.1) == 154.5
    ensures Recommendation(EcoScore(100.0, 1.0, 0.1)) == (High.Message(), Warning)
  {
  }

  // ---- Loading: sort by local hour ----

  predicate SortedByHour(rows: seq<OutputRow>) {
    forall i, j :: 0 <= i < j < |rows| ==> StampLe(rows[i].hourDk, rows[j].hourDk)
  }

  function InsertByHour(x: OutputRow, rows: seq<OutputRow>): (r: seq<OutputRow>)
    requires SortedByHour(rows)
    ensures SortedByHour(r)
    ensures multiset(r) == multiset(rows) + multiset{x}
  {
    if rows == [] || StampLe(x.hourDk, rows[0].hourDk) then
      PrependSorted(x, rows);
      [x] + rows
    else
      var rest := InsertByHour(x, rows[1..]);
      assert rows == [rows[0]] + rows[1..];
      HeadBoundsInsertion(x, rows, rest);
      PrependSorted(rows[0], rest);
      [rows[0]] + rest
  }

  /** A row no later than every row of a sorted sequence can go in front of it. */
  lemma PrependSorted(h: OutputRow, rows: seq<OutputRow>)
    requires SortedByHour(rows)
    requires forall y :: y in rows ==> StampLe(h.hourDk, y.hourDk)
    ensures SortedByHour([h] + rows)
  {
    forall i, j | 0 <= i < j < |[h] + rows| ensures StampLe(([h] + rows)[i].hourDk, ([h] + rows)[j].hourDk) {
      if i > 0 {
        assert ([h] + rows)[i] == rows[i - 1] && ([h] + rows)[j] == rows[j - 1];
      } else {
        assert ([h] + rows)[j] in rows;
      }
    }
  }

  /** The head of a sorted sequence is no later than anything inserted after it. */
  lemma HeadBoundsInsertion(x: OutputRow, rows: seq<OutputRow>, rest: seq<OutputRow>)
    requires SortedByHour(rows) && rows != [] && !StampLe(x.hourDk, rows[0].hourDk)
    requires multiset(rest) == multiset(rows[1..]) + multiset{x}
    ensures forall y :: y in rest ==> StampLe(rows[0].hourDk, y.hourDk)
  {
    forall y | y in rest ensures StampLe(rows[0].hourDk, y.hourDk) {
      assert y in multiset(rest);
      if y != x {
        assert y in multiset(rows[1..]);
        assert y in rows[1..];
        var j :| 0 <= j < |rows[1..]| && rows[1..][j] == y;
        assert rows[j + 1] == y;
      } else {
        StampLeIsTotalOrder(x.hourDk, rows[0].hourDk, x.hourDk);
      }
    }
  }

  /** `sort_values(by='HourDK')`: ascending local hour, missing hours last. */
  function SortByHour(rows: seq<OutputRow>): (r: seq<OutputRow>)
    ensures SortedByHour(r)
    ensures multiset(r) == multiset(rows)
  {
    if rows == [] then []
    else
      assert rows == [rows[0]] + rows[1..];
      InsertByHour(rows[0], SortByHour(rows[1..]))
  }

  lemma {:induction false} SubsequenceKeepsSorted(a: seq<OutputRow>, b: seq<OutputRow>)
    requires SubsequenceOf(a, b) && SortedByHour(b)
    ensures SortedByHour(a)
    decreases |b|
  {
    if b != [] {
      if a != [] && a[0] == b[0] && SubsequenceOf(a[1..], b[1..]) {
        SubsequenceKeepsSorted(a[1..], b[1..]);
        SubsequenceMembers(a[1..], b[1..]);
        forall j | 0 < j < |a| ensures StampLe(a[0].hourDk, a[j].hourDk) {
          assert a[j] == a[1..][j - 1];
          assert a[j] in b[1..];
        }
      } else {
        SubsequenceKeepsSorted(a, b[1..]);
      }
    }
  }

  // ---- The per-region snapshot ----

  /** `df[df['PriceArea'] == region]`: that region's rows, in their original order. */
  function RegionRows(data: seq<OutputRow>, region: string): (rows: seq<OutputRow>)
    ensures forall i :: 0 <= i < |rows| ==> rows[i].priceArea == Text(region) && rows[i] in data
    ensures forall i :: 0 <= i < |data| && data[i].priceArea == Text(region) ==> data[i] in rows
    ensures SubsequenceOf(rows, data)
    ensures (forall i :: 0 <= i < |data| ==> data[i].priceArea == Text(region)) ==> rows == data
  {
    Filter(data, InRegion(region))
  }

  /** The region's rows as a filter predicate. */
  function InRegion(region: string): OutputRow -> bool {
    (r: OutputRow) => r.priceArea == Text(region)
  }

  /** Region filtering drops no copy of a region row: each occurs as often as in the
      data, and rows of other regions not at all. */
  lemma RegionRowsKeepsCopies(data: seq<OutputRow>, region: string)
    ensures forall r :: multiset(RegionRows(data, region))[r] == if r.priceArea == Text(region) then multiset(data)[r] else 0
  {
    FilterCounts(data, InRegion(region));
  }

  datatype Snapshot =
    | Current(latest: OutputRow, previous: OutputRow)
    | InsufficientData
  {
    /** The change shown beside the current reading. */
    function Delta(): real
      requires Current?
    {
      latest.score - previous.score
    }
  }

  /** `iloc[-1]` and `iloc[-2]` of the region's rows; an IndexError is insufficient data. */
  function RegionSnapshot(data: seq<OutputRow>, region: string): (s: Snapshot)
    ensures s.InsufficientData? <==> |RegionRows(data, region)| < 2
    ensures s.Current? ==> var rows := RegionRows(data, region);
              s.latest == rows[|rows| - 1] && s.previous == rows[|rows| - 2]
    ensures s.Current? ==> s.latest.priceArea == Text(region) && s.previous.priceArea == Text(region)
    ensures s.Current? ==> s.latest in data && s.previous in data
  {
    var rows := RegionRows(data, region);
    if |rows| < 2 then InsufficientData
    else Current(rows[|rows| - 1], rows[|rows| - 2])
  }

  /** The last row of a sorted sequence has the greatest hour. */
  lemma LastIsNewest(rows: seq<OutputRow>)
    requires SortedByHour(rows) && rows != []
    ensures forall r :: r in rows ==> StampLe(r.hourDk, rows[|rows| - 1].hourDk)
  {
    forall r | r in rows ensures StampLe(r.hourDk, rows[|rows| - 1].hourDk) {
      var j :| 0 <= j < |rows| && rows[j] == r;
      if j == |rows| - 1 {
        StampLeIsTotalOrder(r.hourDk, r.hourDk, r.hourDk);
      }
    }
  }

  /** On sorted data the snapshot's latest row is the region's newest reading, and the
      previous row is no newer. */
  lemma SnapshotOfSortedIsNewest(data: seq<OutputRow>, region: string)
    requires SortedByHour(data)
    ensures var s := RegionSnapshot(data, region);
            s.Current? ==>
              StampLe(s.previous.hourDk, s.latest.hourDk)
              && forall r :: r in data && r.priceArea == Text(region) ==> StampLe(r.hourDk, s.latest.hourDk)
  {
    var rows := RegionRows(data, region);
    if |rows| >= 2 {
      SubsequenceKeepsSorted(rows, data);
      LastIsNewest(rows);
      forall r | r in data && r.priceArea == Text(region) ensures r in rows {
        var i :| 0 <= i < |data| && data[i] == r;
      }
    }
  }

  // ---- The status section ----

  /** One thing the status section shows: a region's metric with its recommendation,
      or the insufficient-data message. */
  datatype Panel =
    | Metric(region: string, value: real, delta: real, tier: Tier, updated: Stamp)
    | NotEnoughData

  function MetricOf(region: string, s: Snapshot): (p: Panel)
    requires s.Current?
    ensures p.Metric? && p.region == region && p.value == s.latest.score && p.updated == s.latest.hourDk
    ensures p.value - p.delta == s.previous.score
    ensures p.tier == Classify(p.value)
  {
    Metric(region, s.latest.score, s.Delta(), Classify(s.latest.score), s.latest.hourDk)
  }

  /** Both regions in one try block: DK1 first; an IndexError stops the block there
      and the insufficient-data message follows whatever was already shown. */
  function StatusSection(data: seq<OutputRow>): (panels: seq<Panel>)
    ensures 1 <= |panels| <= 2
    ensures RegionSnapshot(data, "DK1").InsufficientData? ==> panels == [NotEnoughData]
    ensures panels[|panels| - 1] == NotEnoughData
            <==> RegionSnapshot(data, "DK1").InsufficientData? || RegionSnapshot(data, "DK2").InsufficientData?
    ensures forall i :: 0 <= i < |panels| && panels[i].Metric? ==>
              panels[i].region == REGIONS[i]
              && panels[i] == MetricOf(REGIONS[i], RegionSnapshot(data, REGIONS[i]))
    ensures RegionSnapshot(data, "DK1").Current? ==>
              |panels| == 2 && panels[0] == MetricOf("DK1", RegionSnapshot(data, "DK1"))
              && panels[1] == (if RegionSnapshot(data, "DK2").Current?
                               then MetricOf("DK2", RegionSnapshot(data, "DK2")) else NotEnoughData)
  {
    var dk1 := RegionSnapshot(data, "DK1");
    if dk1.InsufficientData? then [NotEnoughData]
    else
      var dk2 := RegionSnapshot(data, "DK2");
      if dk2.InsufficientData? then [MetricOf("DK1", dk1), NotEnoughData]
      else [MetricOf("DK1", dk1), MetricOf("DK2", dk2)]
  }

  /** The page's status section for the processed rows as loaded. Whether a region has
      enough data does not depend on the load order: it is decided by the processed rows. */
  function CurrentGridStatus(processed: seq<OutputRow>): (panels: seq<Panel>)
    ensures 1 <= |panels| <= 2
    ensures |RegionRows(processed, "DK1")| < 2 ==> panels == [NotEnoughData]
    ensures panels[|panels| - 1] == NotEnoughData
            <==> |RegionRows(processed, "DK1")| < 2 || |RegionRows(processed, "DK2")| < 2
  {
    var data := SortByHour(processed);
    FilterOfPermutation(data, processed, InRegion("DK1"));
    FilterOfPermutation(data, processed, InRegion("DK2"));
    StatusSection(data)
  }

  /** After loading, a region's snapshot shows its newest reading among the processed rows. */
  lemma LoadedSnapshotIsNewest(processed: seq<OutputRow>, region: string)
    ensures var s := RegionSnapshot(SortByHour(processed), region);
            s.Current? ==> forall r :: r in processed && r.priceArea == Text(region) ==> StampLe(r.hourDk, s.latest.hourDk)
  {
    var data := SortByHour(processed);
    SnapshotOfSortedIsNewest(data, region);
    forall r | r in processed ensures r in data {
      assert r in multiset(processed);
    }
  }

  /** Every metric shown is the newest reading of its region in the processed rows,
      classified by its own score. */
  lemma ShownMetricIsNewest(processed: seq<OutputRow>)
    ensures var panels := CurrentGridStatus(processed);
            forall i :: 0 <= i < |panels| && panels[i].Metric? ==>
              panels[i].region in REGIONS && panels[i].tier == Classify(panels[i].value)
              && (exists r :: r in processed && r.priceArea == Text(panels[i].region)
                                && r.hourDk == panels[i].updated && r.score == panels[i].value)
              && forall r :: r in processed && r.priceArea == Text(panels[i].region) ==> StampLe(r.hourDk, panels[i].updated)
  {
    var data := SortByHour(processed);
    var dk1 := RegionSnapshot(data, "DK1");
    if dk1.Current? {
      MetricIsNewest(processed, "DK1", MetricOf("DK1", dk1));
      var dk2 := RegionSnapshot(data, "DK2");
      if dk2.Current? {
        MetricIsNewest(processed, "DK2", MetricOf("DK2", dk2));
      }
    }
  }

  lemma MetricIsNewest(processed: seq<OutputRow>, region: string, p: Panel)
    requires RegionSnapshot(SortByHour(processed), region).Current?
    requires p == MetricOf(region, RegionSnapshot(SortByHour(processed), region))
    ensures p.region == region && p.tier == Classify(p.value)
    ensures exists r :: r in processed && r.priceArea == Text(region) && r.hourDk == p.updated && r.score == p.value
    ensures forall r :: r in processed && r.priceArea == Text(p.region) ==> StampLe(r.hourDk, p.updated)
  {
    LoadedSnapshotIsNewest(processed, region);
    var s := RegionSnapshot(SortByHour(processed), region);
    assert s.latest in multiset(SortByHour(processed));
    assert s.latest in processed;
  }

  // ---- Hour-over-hour change ----

  /** A row of the same production type as `latest`, from a strictly earlier hour. */
  predicate IsEarlierReading(r: OutputRow, latest: OutputRow) {
    r.productionType == latest.productionType && StampLt(r.hourDk, latest.hourDk)
  }

  /** Index of the last row that is an earlier reading of `latest`'s series. */
  function LastEarlierReading(rows: seq<OutputRow>, latest: OutputRow): (i: Option<nat>)
    ensures i.Some? ==> (i.value < |rows| && IsEarlierReading(rows[i.value], latest)
                         && forall j :: i.value < j < |rows| ==> !IsEarlierReading(rows[j], latest))
    ensures i.None? ==> forall j :: 0 <= j < |rows| ==> !IsEarlierReading(rows[j], latest)
    decreases |rows|
  {
    if rows == [] then None
    else if IsEarlierReading(rows[|rows| - 1], latest) then Some(|rows| - 1)
    else LastEarlierReading(rows[..|rows| - 1], latest)
  }

  /** The snapshot the "vs. prev. hour" label describes: the region's last row, compared
      with the last earlier-hour row of the same production type. */
  function HourOverHourSnapshot(data: seq<OutputRow>, region: string): (s: Snapshot)
    ensures s.Current? ==> var rows := RegionRows(data, region);
              rows != [] && s.latest == rows[|rows| - 1] && s.previous in rows
              && IsEarlierReading(s.previous, s.latest)
    ensures s.InsufficientData? <==> var rows := RegionRows(data, region);
              rows == [] || forall j :: 0 <= j < |rows| ==> !IsEarlierReading(rows[j], rows[|rows| - 1])
  {
    var rows := RegionRows(data, region);
    if rows == [] then InsufficientData
    else match LastEarlierReading(rows, rows[|rows| - 1])
      case None => InsufficientData
      case Some(i) => Current(rows[|rows| - 1], rows[i])
  }

  /** On sorted data the comparison row is the newest earlier reading of the series. */
  lemma HourOverHourComparesNewestEarlier(data: seq<OutputRow>, region: string)
    requires SortedByHour(data)
    ensures var s := HourOverHourSnapshot(data, region);
            s.Current? ==>
              forall r :: r in data && r.priceArea == Text(region) && IsEarlierReading(r, s.latest)
                ==> StampLe(r.hourDk, s.previous.hourDk)
  {
    var rows := RegionRows(data, region);
    if rows != [] {
      var latest := rows[|rows| - 1];
      var found := LastEarlierReading(rows, latest);
      if found.Some? {
        var i := found.value;
        assert HourOverHourSnapshot(data, region) == Current(latest, rows[i]);
        SubsequenceKeepsSorted(rows, data);
        forall r | r in data && r.priceArea == Text(region) && IsEarlierReading(r, latest)
          ensures StampLe(r.hourDk, rows[i].hourDk)
        {
          var k :| 0 <= k < |data| && data[k] == r;
          assert r in rows;
          var j :| 0 <= j < |rows| && rows[j] == r;
          assert j <= i;
          if j == i {
            StampLeIsTotalOrder(r.hourDk, r.hourDk, r.hourDk);
          } else {
            assert StampLe(rows[j].hourDk, rows[i].hourDk);
          }
        }
      }
    }
  }

  /** Three sorted DK1 rows, two production types in the latest hour: the as-written
      snapshot compares Solar with Wind within that hour. */
  lemma SnapshotComparesWithinOneHour()
    ensures var data := WindSolarHours();
            && SortedByHour(data)
            && RegionSnapshot(data, "DK1") == Current(data[2], data[1])
            && data[2].hourDk == data[1].hourDk && data[2].productionType != data[1].productionType
            && RegionSnapshot(data, "DK1").Delta() == 20.0
  {
    WindSolarHoursAreSortedDK1();
  }

  lemma WindSolarHoursAreSortedDK1()
    ensures SortedByHour(WindSolarHours())
    ensures RegionRows(WindSolarHours(), "DK1") == WindSolarHours()
  {
    var data := WindSolarHours();
    forall i, j | 0 <= i < j < |data| ensures StampLe(data[i].hourDk, data[j].hourDk) {
      assert data[i].hourDk.At? && data[j].hourDk.At?;
    }
    assert forall i :: 0 <= i < |data| ==> data[i].priceArea == Text("DK1");
  }

  /** On the same rows the hour-over-hour snapshot compares Solar with Solar an hour earlier. */
  lemma HourOverHourOnWindSolarHours()
    ensures var data := WindSolarHours();
            && HourOverHourSnapshot(data, "DK1") == Current(data[2], data[0])
            && data[0].hourDk == At(0) && data[2].hourDk == At(1)
            && HourOverHourSnapshot(data, "DK1").Delta() == 5.0
  {
    WindSolarHoursAreSortedDK1();
    WindSolarLastEarlier();
  }

  function WindSolarHours(): seq<OutputRow> {
    [OutputRow(At(0), Text("DK1"), Text("Solar"), 25.0),
     OutputRow(At(1), Text("DK1"), Text("Wind"), 10.0),
     OutputRow(At(1), Text("DK1"), Text("Solar"), 30.0)]
  }

  lemma WindSolarLastEarlier()
    ensures LastEarlierReading(WindSolarHours(), WindSolarHours()[2]) == Some(0)
  {
    var data := WindSolarHours();
    assert data[..2][..1] == data[..1];
    assert !IsEarlierReading(data[2], data[2]);
    assert !IsEarlierReading(data[1], data[2]);
    assert IsEarlierReading(data[0], data[2]);
    assert LastEarlierReading(data[..1], data[2]) == Some(0);
    assert LastEarlierReading(data[..2], data[2]) == Some(0);
  }
}
