/**
 * cars.py as a whole: the stages run one after another on a rebound frame,
 * and what the exported table then holds, stated vehicle by vehicle.
 */
module Script {
  import opened Options
  import Text
  import Extractors
  import opened Frames

  /** The columns kept after the electric filter, in their order. */
  const Keep: seq<string> := [
    "Vehicle",
    "Passenger Doors",
    "EPA Class",
    "Body Style",
    "Drivetrain",
    "Engine",
    "Engine Type",
    "Displacement",
    "SAE Net Horsepower @ RPM",
    "SAE Net Torque @ RPM",
    "Transmission",
    "First Gear Ratio (:1)",
    "Second Gear Ratio (:1)",
    "Third Gear Ratio (:1)",
    "Fourth Gear Ratio (:1)",
    "Reverse Ratio (:1)",
    "Front Brake Rotor Diam x Thickness (in)",
    "Rear Brake Rotor Diam x Thickness (in)",
    "Turning Diameter - Curb to Curb (ft)",
    "Front Tire Size",
    "Rear Tire Size",
    "Front Wheel Size (in)",
    "Rear Wheel Size (in)",
    "Suspension Type - Front",
    "Suspension Type - Rear",
    "Fuel Tank Capacity, Approx (gal)",
    "EPA Fuel Economy Est - City (MPG)",
    "EPA Fuel Economy Est - Hwy (MPG)"
  ]

  const DisplacementColumn := "Displacement"
  const HorsepowerColumn := "SAE Net Horsepower @ RPM"
  const TorqueColumn := "SAE Net Torque @ RPM"

  /** One line of the exported table. */
  datatype Engine = Engine(vehicle: string, engineType: string, engineConfig: string, cylinders: nat, displacement: string, hp: nat, tq: nat)

  /** `pd.to_numeric` of a string of decimal digits. */
  function Number(d: string): (n: nat)
    requires Text.AllDigits(d)
    ensures |d| <= 1 ==> n < 10
    ensures |d| <= 2 ==> n < 100
    ensures |d| <= 3 ==> n < 1000
    ensures |d| <= 4 ==> n < 10000
    decreases |d|
  {
    if d == [] then 0 else Number(d[..|d| - 1]) * 10 + (d[|d| - 1] as int - '0' as int)
  }

  /** The decimal digit of `k` below ten. */
  function DigitChar(k: nat): (c: char)
    requires k < 10
    ensures Text.IsDigit(c) && c as int - '0' as int == k
  {
    ('0' as int + k) as char
  }

  /** `str(n)` for a natural number: its decimal digits, most significant first, with no leading zero. */
  function Digits(n: nat): (s: string)
    ensures Text.AllDigits(s) && s != []
    ensures n >= 10 ==> s[0] != '0'
    decreases n
  {
    if n < 10 then [DigitChar(n)] else Digits(n / 10) + [DigitChar(n % 10)]
  }

  /** `pd.to_numeric(str(n)) == n`: reading back the printed number gives the number. */
  lemma {:induction false} NumberDigits(n: nat)
    ensures Number(Digits(n)) == n
    decreases n
  {
    if n >= 10 {
      NumberDigits(n / 10);
      var s := Digits(n);
      assert s[..|s| - 1] == Digits(n / 10);
    }
  }

  /** A digit string that does not start with zero reads as a positive number. */
  lemma {:induction false} NumberPositive(d: string)
    requires Text.AllDigits(d) && d != [] && d[0] != '0'
    ensures Number(d) > 0
    decreases |d|
  {
    if |d| > 1 {
      NumberPositive(d[..|d| - 1]);
    }
  }

  /** Printing what was read gives back the digits, when they have no leading zero. */
  lemma {:induction false} DigitsNumber(d: string)
    requires Text.AllDigits(d) && d != [] && (|d| > 1 ==> d[0] != '0')
    ensures Digits(Number(d)) == d
    decreases |d|
  {
    if |d| > 1 {
      var p := d[..|d| - 1];
      NumberPositive(p);
      DigitsNumber(p);
      assert d == p + [d[|d| - 1]];
    } else {
      assert d == [d[0]];
    }
  }

  /** A run of zeros reads as zero. */
  lemma {:induction false} NumberZeros(z: string)
    requires forall k :: 0 <= k < |z| ==> z[k] == '0'
    ensures Text.AllDigits(z) && Number(z) == 0
    decreases |z|
  {
    if z != [] {
      NumberZeros(z[..|z| - 1]);
    }
  }

  /** Leading zeros do not change the value: "0450" reads as 450. */
  lemma {:induction false} NumberLeadingZeros(z: string, d: string)
    requires forall k :: 0 <= k < |z| ==> z[k] == '0'
    requires Text.AllDigits(d)
    ensures Text.AllDigits(z + d) && Number(z + d) == Number(d)
    decreases |d|
  {
    NumberZeros(z);
    var s := z + d;
    assert forall k :: 0 <= k < |s| ==> Text.IsDigit(s[k]) by {
      forall k | 0 <= k < |s| ensures Text.IsDigit(s[k]) {
        if k < |z| { assert s[k] == z[k]; } else { assert s[k] == d[k - |z|]; }
      }
    }
    if d == [] {
      assert s == z;
    } else {
      NumberLeadingZeros(z, d[..|d| - 1]);
      assert s[..|s| - 1] == z + d[..|d| - 1];
      assert s[|s| - 1] == d[|d| - 1];
    }
  }

  // ---------------------------------------------------------------- the reference: vehicle by vehicle

  /** The extractors of the numeric columns yield decimal digits, as `pd.to_numeric` needs. */
  ghost predicate Numeric(ex: Extractor)
  {
    forall c :: (ex(Extractors.Cylinders, c).Some? ==> Text.AllDigits(ex(Extractors.Cylinders, c).value)) &&
                (ex(Extractors.Power, c).Some? ==> Text.AllDigits(ex(Extractors.Power, c).value))
  }

  lemma ExtractIsNumeric()
    ensures Numeric(Extractors.Extract)
  {
  }

  /** The engine line a row yields, if every extraction succeeds on it. */
  function EngineOf(row: Row, ex: Extractor): Option<Engine>
    requires Numeric(ex)
  {
    var displacement := ex(Extractors.Displacement, Lookup(row, DisplacementColumn));
    var engineType := ex(Extractors.EngineType, Lookup(row, EngineTypeColumn));
    var cylinders := ex(Extractors.Cylinders, engineType);
    var config := ex(Extractors.EngineConfig, engineType);
    var hp := ex(Extractors.Power, Lookup(row, HorsepowerColumn));
    var tq := ex(Extractors.Power, Lookup(row, TorqueColumn));
    var vehicle := Lookup(row, VehicleColumn);
    if vehicle.Some? && displacement.Some? && engineType.Some? && cylinders.Some? && config.Some? && hp.Some? && tq.Some? then
      Some(Engine(vehicle.value, engineType.value, config.value, Number(cylinders.value), displacement.value, Number(hp.value), Number(tq.value)))
    else None
  }

  /** What vehicle `j` of the input contributes to the exported table. */
  function VehicleEngine(w: Wide, j: nat, ex: Extractor): Option<Engine>
    requires WellFormed(w) && j < |w.vehicles| && Numeric(ex)
  {
    var row := VehicleRow(w, j);
    if IsElectric(Lookup(row, EngineTypeColumn)) then None else EngineOf(row, ex)
  }

  function ExpectedFrom(w: Wide, k: nat, ex: Extractor): seq<Engine>
    requires WellFormed(w) && k <= |w.vehicles| && Numeric(ex)
    decreases |w.vehicles| - k
  {
    if k == |w.vehicles| then [] else Line(w, k, ex) + ExpectedFrom(w, k + 1, ex)
  }

  /** The line, if any, vehicle `k` contributes. */
  function Line(w: Wide, k: nat, ex: Extractor): seq<Engine>
    requires WellFormed(w) && k < |w.vehicles| && Numeric(ex)
  {
    match VehicleEngine(w, k, ex) case Some(e) => [e] case None => []
  }

  /** The exported table: the vehicles that yield an engine line under cars.py's extractors, in input order. */
  function Expected(w: Wide): seq<Engine>
    requires WellFormed(w)
  {
    ExtractIsNumeric();
    ExpectedFrom(w, 0, Extractors.Extract)
  }

  /** What cars.py's extractors guarantee of every exported engine line. */
  predicate EngineShaped(e: Engine)
  {
    Extractors.IsEngineCode(e.engineType) && e.engineConfig == [e.engineType[0]] &&
    e.cylinders < 100 && Extractors.DisplacementShaped(e.displacement) && e.hp < 10000 && e.tq < 10000
  }

  /** Every engine line that `ex` reads off a row is shaped as cars.py's extractors promise. */
  ghost predicate ShapesEngines(ex: Extractor)
    requires Numeric(ex)
  {
    forall row :: EngineOf(row, ex).Some? ==> EngineShaped(EngineOf(row, ex).value)
  }

  /** An engine line read off any row by cars.py's extractors has that shape. */
  lemma ExtractShapesEngines()
    ensures Numeric(Extractors.Extract) && ShapesEngines(Extractors.Extract)
  {
    ExtractIsNumeric();
    forall row: Row | EngineOf(row, Extractors.Extract).Some?
      ensures EngineShaped(EngineOf(row, Extractors.Extract).value)
    {
      var t := Extractors.Extract(Extractors.EngineType, Lookup(row, EngineTypeColumn));
      Extractors.EngineCodeFields(t.value);
    }
  }

  /**
   * The exported table from vehicle `k` on: at most one line per vehicle, each
   * naming one of those vehicles, and shaped as `ex` shapes engine lines.
   */
  lemma {:induction false} ExpectedFromShaped(w: Wide, k: nat, ex: Extractor)
    requires WellFormed(w) && k <= |w.vehicles| && Numeric(ex) && ShapesEngines(ex)
    ensures |ExpectedFrom(w, k, ex)| <= |w.vehicles| - k
    ensures ShapedLines(ExpectedFrom(w, k, ex), w.vehicles[k..])
    decreases |w.vehicles| - k
  {
    if k < |w.vehicles| {
      SliceCons(w.vehicles, k);
      ExpectedFromShaped(w, k + 1, ex);
      LineShaped(w, k, ex);
      ShapedLinesAppend(Line(w, k, ex), ExpectedFrom(w, k + 1, ex), [w.vehicles[k]], w.vehicles[k + 1..]);
    }
  }

  lemma SliceCons<T>(s: seq<T>, k: nat)
    requires k < |s|
    ensures s[k..] == [s[k]] + s[k + 1..]
  {
  }

  /** Every line of `out` is shaped as the extractors promise and names one of `vehicles`. */
  predicate ShapedLines(out: seq<Engine>, vehicles: seq<string>)
  {
    forall e :: e in out ==> EngineShaped(e) && e.vehicle in vehicles
  }

  lemma ShapedLinesAppend(a: seq<Engine>, b: seq<Engine>, va: seq<string>, vb: seq<string>)
    requires ShapedLines(a, va) && ShapedLines(b, vb)
    ensures ShapedLines(a + b, va + vb)
  {
  }

  /** Vehicle `k` contributes at most one line, shaped as `ex` shapes engine lines and naming that vehicle. */
  lemma LineShaped(w: Wide, k: nat, ex: Extractor)
    requires WellFormed(w) && k < |w.vehicles| && Numeric(ex) && ShapesEngines(ex)
    ensures |Line(w, k, ex)| <= 1 && ShapedLines(Line(w, k, ex), [w.vehicles[k]])
  {
    assert Lookup(VehicleRow(w, k), VehicleColumn) == Some(w.vehicles[k]);
  }

  /** The exported table has at most one line per vehicle, each shaped as the extractors promise. */
  lemma ExpectedShaped(w: Wide)
    requires WellFormed(w)
    ensures |Expected(w)| <= |w.vehicles|
    ensures ShapedLines(Expected(w), w.vehicles)
  {
    ExtractShapesEngines();
    ExpectedFromShaped(w, 0, Extractors.Extract);
    assert w.vehicles[0..] == w.vehicles;
  }

  // ---------------------------------------------------------------- the stages as row operations

  /** cars.py lines 65-66, 86-87, 100-101, 114-115 and 128-130, in order. */
  const Extraction: seq<RowOp> := [
    Put("displacement", DisplacementColumn, Extractors.Displacement),
    Complete(["displacement"]),
    Put("engine_type", EngineTypeColumn, Extractors.EngineType),
    Complete(["engine_type"]),
    Put("cylinders", "engine_type", Extractors.Cylinders),
    Complete(["cylinders"]),
    Put("engine_config", "engine_type", Extractors.EngineConfig),
    Complete(["engine_config"]),
    Put("hp", HorsepowerColumn, Extractors.Power),
    Put("tq", TorqueColumn, Extractors.Power),
    Complete(["hp", "tq"])
  ]

  /** Everything after the reshape, given the columns that the NA filter kept. */
  function ScriptOps(keep: seq<string>): seq<RowOp>
  {
    [Project(keep), NotElectric, Project(Keep)] + Extraction
  }

  /** A final row has every column the export reads, with digits where numbers are expected. */
  predicate Exportable(x: Row)
  {
    Lookup(x, VehicleColumn).Some? && Lookup(x, "engine_type").Some? && Lookup(x, "engine_config").Some? &&
    Lookup(x, "cylinders").Some? && Text.AllDigits(Lookup(x, "cylinders").value) &&
    Lookup(x, "displacement").Some? &&
    Lookup(x, "hp").Some? && Text.AllDigits(Lookup(x, "hp").value) &&
    Lookup(x, "tq").Some? && Text.AllDigits(Lookup(x, "tq").value)
  }

  function ToEngine(x: Row): Engine
    requires Exportable(x)
  {
    Engine(Lookup(x, VehicleColumn).value, Lookup(x, "engine_type").value, Lookup(x, "engine_config").value,
           Number(Lookup(x, "cylinders").value), Lookup(x, "displacement").value,
           Number(Lookup(x, "hp").value), Number(Lookup(x, "tq").value))
  }

  /**
   * `df[['Vehicle', 'engine_type', 'engine_config', 'cylinders', 'displacement', 'hp', 'tq']].to_csv(...)`,
   * minus the file: one engine line per row, in row order, each field the cell of its column.
   */
  function Export(rows: seq<Row>): (out: seq<Engine>)
    requires forall x :: x in rows ==> Exportable(x)
    ensures |out| == |rows|
    ensures forall i :: 0 <= i < |rows| ==>
      Exportable(rows[i]) &&
      out[i].vehicle == Lookup(rows[i], VehicleColumn).value &&
      out[i].engineType == Lookup(rows[i], "engine_type").value &&
      out[i].engineConfig == Lookup(rows[i], "engine_config").value &&
      out[i].displacement == Lookup(rows[i], "displacement").value &&
      out[i].cylinders == Number(Lookup(rows[i], "cylinders").value) &&
      out[i].hp == Number(Lookup(rows[i], "hp").value) &&
      out[i].tq == Number(Lookup(rows[i], "tq").value)
  {
    seq(|rows|, i requires 0 <= i < |rows| => ToEngine(rows[i]))
  }

  // ---------------------------------------------------------------- the pipeline meets the reference

  lemma {:induction false} ThroughAppend(a: seq<RowOp>, b: seq<RowOp>, row: Row, ex: Extractor)
    ensures Through(a + b, row, ex) == match Through(a, row, ex) case None => None case Some(x) => Through(b, x, ex)
    decreases |b|
  {
    if b == [] {
      assert a + b == a;
    } else {
      assert (a + b)[..|a + b| - 1] == a + b[..|b| - 1];
      ThroughAppend(a, b[..|b| - 1], row, ex);
    }
  }

  lemma ThroughPut(ops: seq<RowOp>, row: Row, x: Row, dst: string, src: string, f: Extractors.Field, ex: Extractor)
    requires Through(ops, row, ex) == Some(x)
    ensures Through(ops + [Put(dst, src, f)], row, ex) == Some(x[dst := ex(f, Lookup(x, src))])
  {
    assert (ops + [Put(dst, src, f)])[..|ops|] == ops;
  }

  lemma ThroughComplete(ops: seq<RowOp>, row: Row, x: Row, subset: seq<string>, ex: Extractor)
    requires Through(ops, row, ex) == Some(x)
    ensures Through(ops + [Complete(subset)], row, ex) == if HasAll(x, subset) then Some(x) else None
  {
    assert (ops + [Complete(subset)])[..|ops|] == ops;
  }

  lemma ThroughNone(ops: seq<RowOp>, more: seq<RowOp>, row: Row, ex: Extractor)
    requires Through(ops, row, ex) == None
    ensures Through(ops + more, row, ex) == None
  {
    ThroughAppend(ops, more, row, ex);
  }

  /** `df[dst] = df[src].apply(...)` followed by `df.dropna(subset=[dst])`, on one row. */
  lemma PutThenDrop(ops: seq<RowOp>, row: Row, x: Row, dst: string, src: string, f: Extractors.Field, ex: Extractor)
    requires Through(ops, row, ex) == Some(x)
    ensures var v := ex(f, Lookup(x, src));
      Through(ops + [Put(dst, src, f), Complete([dst])], row, ex) == if v.Some? then Some(x[dst := v]) else None
  {
    var v := ex(f, Lookup(x, src));
    ThroughPut(ops, row, x, dst, src, f, ex);
    ThroughComplete(ops + [Put(dst, src, f)], row, x[dst := v], [dst], ex);
    assert ops + [Put(dst, src, f)] + [Complete([dst])] == ops + [Put(dst, src, f), Complete([dst])];
    assert HasAll(x[dst := v], [dst]) <==> v.Some? by {
      assert dst in [dst];
    }
  }

  /** The row the extraction stages leave behind, when none of them drops it. */
  function Staged(r: Row, ex: Extractor): Row
  {
    var d := ex(Extractors.Displacement, Lookup(r, DisplacementColumn));
    var t := ex(Extractors.EngineType, Lookup(r, EngineTypeColumn));
    r["displacement" := d]["engine_type" := t]
     ["cylinders" := ex(Extractors.Cylinders, t)]
     ["engine_config" := ex(Extractors.EngineConfig, t)]
     ["hp" := ex(Extractors.Power, Lookup(r, HorsepowerColumn))]
     ["tq" := ex(Extractors.Power, Lookup(r, TorqueColumn))]
  }

  predicate Survives(x: Row)
  {
    Lookup(x, "displacement").Some? && Lookup(x, "engine_type").Some? && Lookup(x, "cylinders").Some? &&
    Lookup(x, "engine_config").Some? && Lookup(x, "hp").Some? && Lookup(x, "tq").Some?
  }

  /** The first four extraction stages: displacement, then engine type, each followed by its dropna. */
  lemma FrontStages(r: Row, ex: Extractor)
    ensures var d := ex(Extractors.Displacement, Lookup(r, DisplacementColumn));
      var t := ex(Extractors.EngineType, Lookup(r, EngineTypeColumn));
      Through(Extraction[..4], r, ex) == if d.Some? && t.Some? then Some(r["displacement" := d]["engine_type" := t]) else None
  {
    var e := Extraction;
    var d := ex(Extractors.Displacement, Lookup(r, DisplacementColumn));
    var r1 := r["displacement" := d];
    assert e[..2] == [] + [Put("displacement", DisplacementColumn, Extractors.Displacement), Complete(["displacement"])];
    PutThenDrop([], r, r, "displacement", DisplacementColumn, Extractors.Displacement, ex);
    if d.None? {
      ThroughNone(e[..2], e[2..4], r, ex);
      assert e[..2] + e[2..4] == e[..4];
    } else {
      assert e[..4] == e[..2] + [Put("engine_type", EngineTypeColumn, Extractors.EngineType), Complete(["engine_type"])];
      assert Lookup(r1, EngineTypeColumn) == Lookup(r, EngineTypeColumn);
      PutThenDrop(e[..2], r, r1, "engine_type", EngineTypeColumn, Extractors.EngineType, ex);
    }
  }

  /** The remaining seven stages, on what the first four left. */
  lemma BackStages(r: Row, x: Row, ex: Extractor)
    requires Through(Extraction[..4], r, ex) == Some(x)
    ensures var t := Lookup(x, "engine_type");
      var c := ex(Extractors.Cylinders, t);
      var g := ex(Extractors.EngineConfig, t);
      var h := ex(Extractors.Power, Lookup(x, HorsepowerColumn));
      var q := ex(Extractors.Power, Lookup(x, TorqueColumn));
      Through(Extraction, r, ex) ==
        if c.Some? && g.Some? && h.Some? && q.Some? then Some(x["cylinders" := c]["engine_config" := g]["hp" := h]["tq" := q]) else None
  {
    var e := Extraction;
    var t := Lookup(x, "engine_type");
    var c := ex(Extractors.Cylinders, t);
    var g := ex(Extractors.EngineConfig, t);
    MiddleStages(r, x, ex);
    if c.Some? && g.Some? {
      var x4 := x["cylinders" := c]["engine_config" := g];
      assert Lookup(x4, HorsepowerColumn) == Lookup(x, HorsepowerColumn);
      assert Lookup(x4, TorqueColumn) == Lookup(x, TorqueColumn);
      PowerStages(r, x4, ex);
    } else {
      ThroughNone(e[..8], e[8..], r, ex);
      assert e[..8] + e[8..] == e;
    }
  }

  /** Cylinders, then the engine configuration, each read off the engine code and followed by its dropna. */
  lemma MiddleStages(r: Row, x: Row, ex: Extractor)
    requires Through(Extraction[..4], r, ex) == Some(x)
    ensures var t := Lookup(x, "engine_type");
      var c := ex(Extractors.Cylinders, t);
      var g := ex(Extractors.EngineConfig, t);
      Through(Extraction[..8], r, ex) == if c.Some? && g.Some? then Some(x["cylinders" := c]["engine_config" := g]) else None
  {
    var e := Extraction;
    var t := Lookup(x, "engine_type");
    var c := ex(Extractors.Cylinders, t);
    var x3 := x["cylinders" := c];
    assert e[..6] == e[..4] + [Put("cylinders", "engine_type", Extractors.Cylinders), Complete(["cylinders"])];
    PutThenDrop(e[..4], r, x, "cylinders", "engine_type", Extractors.Cylinders, ex);
    assert e[..8] == e[..6] + [Put("engine_config", "engine_type", Extractors.EngineConfig), Complete(["engine_config"])];
    if c.None? {
      ThroughNone(e[..6], e[6..8], r, ex);
    } else {
      assert Lookup(x3, "engine_type") == t;
      PutThenDrop(e[..6], r, x3, "engine_config", "engine_type", Extractors.EngineConfig, ex);
    }
  }

  /** Horsepower and torque, then one dropna over both. */
  lemma PowerStages(r: Row, x: Row, ex: Extractor)
    requires Through(Extraction[..8], r, ex) == Some(x)
    ensures var h := ex(Extractors.Power, Lookup(x, HorsepowerColumn));
      var q := ex(Extractors.Power, Lookup(x, TorqueColumn));
      Through(Extraction, r, ex) == if h.Some? && q.Some? then Some(x["hp" := h]["tq" := q]) else None
  {
    var e := Extraction;
    var h := ex(Extractors.Power, Lookup(x, HorsepowerColumn));
    var x5 := x["hp" := h];
    var q := ex(Extractors.Power, Lookup(x, TorqueColumn));
    var x6 := x5["tq" := q];
    ThroughPut(e[..8], r, x, "hp", HorsepowerColumn, Extractors.Power, ex);
    assert e[..9] == e[..8] + [e[8]];
    assert Lookup(x5, TorqueColumn) == Lookup(x, TorqueColumn);
    ThroughPut(e[..9], r, x5, "tq", TorqueColumn, Extractors.Power, ex);
    assert e[..10] == e[..9] + [e[9]];
    ThroughComplete(e[..10], r, x6, ["hp", "tq"], ex);
    assert e == e[..10] + [e[10]];
    assert HasAll(x6, ["hp", "tq"]) <==> h.Some? && q.Some? by {
      assert "hp" in ["hp", "tq"] && "tq" in ["hp", "tq"];
    }
  }

  /** Whatever the extractors compute, the stages keep a row exactly when every extraction succeeds. */
  lemma StagesRow(r: Row, ex: Extractor)
    ensures Through(Extraction, r, ex) == if Survives(Staged(r, ex)) then Some(Staged(r, ex)) else None
  {
    FrontStages(r, ex);
    var e := Extraction;
    var x := Staged(r, ex);
    var d := Lookup(x, "displacement");
    var t := Lookup(x, "engine_type");
    if d.Some? && t.Some? {
      var x2 := r["displacement" := d]["engine_type" := t];
      BackStages(r, x2, ex);
      assert Lookup(x2, HorsepowerColumn) == Lookup(r, HorsepowerColumn);
      assert Lookup(x2, TorqueColumn) == Lookup(r, TorqueColumn);
    } else {
      ThroughNone(e[..4], e[4..], r, ex);
      assert e[..4] + e[4..] == e;
    }
  }

  /** The eleven extraction stages take a row exactly where `EngineOf` says. */
  lemma ExtractionRow(r: Row, ex: Extractor)
    requires Numeric(ex) && Lookup(r, VehicleColumn).Some?
    ensures match Through(Extraction, r, ex)
      case None => EngineOf(r, ex).None?
      case Some(x) => Exportable(x) && EngineOf(r, ex) == Some(ToEngine(x))
  {
    StagesRow(r, ex);
  }

  /** The columns the reference reads are among those kept. */
  lemma KeepHasSources()
    ensures VehicleColumn in Keep && DisplacementColumn in Keep && EngineTypeColumn in Keep
    ensures HorsepowerColumn in Keep && TorqueColumn in Keep
  {
    assert Keep[0] == VehicleColumn && Keep[6] == EngineTypeColumn && Keep[7] == DisplacementColumn;
    assert Keep[8] == HorsepowerColumn && Keep[9] == TorqueColumn;
  }

  /** The NA filter's projection, the electric filter and the projection onto `names`, on one row. */
  lemma FrontRow(r0: Row, keep: seq<string>, names: seq<string>, ex: Extractor)
    requires EngineTypeColumn in keep
    ensures var r := Restrict(Restrict(r0, keep), names);
      Through([Project(keep), NotElectric, Project(names)], r0, ex) ==
        if IsElectric(Lookup(r0, EngineTypeColumn)) then None else Some(r)
  {
    var front := [Project(keep), NotElectric, Project(names)];
    var r1 := Restrict(r0, keep);
    RestrictLookup(r0, keep, EngineTypeColumn);
    assert Through(front[..1], r0, ex) == Some(r1) by {
      assert front[..1][..0] == [];
    }
    assert Through(front[..2], r0, ex) == if IsElectric(Lookup(r0, EngineTypeColumn)) then None else Some(r1) by {
      assert front[..2][..1] == front[..1];
    }
    assert front[..2] == front[..|front| - 1];
  }

  /** Any row, taken through every stage after the reshape, yields what the reference says of it. */
  lemma ScriptRow(r0: Row, keep: seq<string>, ex: Extractor)
    requires Numeric(ex) && Lookup(r0, VehicleColumn).Some?
    requires forall n :: n in Keep ==> n in keep
    ensures match Through(ScriptOps(keep), r0, ex)
      case None => IsElectric(Lookup(r0, EngineTypeColumn)) || EngineOf(r0, ex).None?
      case Some(x) => Exportable(x) && !IsElectric(Lookup(r0, EngineTypeColumn)) && EngineOf(r0, ex) == Some(ToEngine(x))
  {
    var front := [Project(keep), NotElectric, Project(Keep)];
    var r1 := Restrict(r0, keep);
    var r := Restrict(r1, Keep);
    KeepHasSources();
    FrontRow(r0, keep, Keep, ex);
    ThroughAppend(front, Extraction, r0, ex);
    if !IsElectric(Lookup(r0, EngineTypeColumn)) {
      KeepHasSources();
      forall c | c in {VehicleColumn, DisplacementColumn, EngineTypeColumn, HorsepowerColumn, TorqueColumn}
        ensures Lookup(r, c) == Lookup(r0, c)
      {
        RestrictLookup(r0, keep, c);
        RestrictLookup(r1, Keep, c);
      }
      ExtractionRow(r, ex);
      assert EngineOf(r, ex) == EngineOf(r0, ex);
    }
  }

  /** The rows of the reshaped input, one per vehicle. */
  function VehicleRows(w: Wide): (rows: seq<Row>)
    requires WellFormed(w)
    ensures |rows| == |w.vehicles|
  {
    seq(|w.vehicles|, j requires 0 <= j < |w.vehicles| => VehicleRow(w, j))
  }

  /** Row `r0`, taken through `ops`, yields what the reference says of it. */
  ghost predicate Agrees(ops: seq<RowOp>, r0: Row, ex: Extractor)
    requires Numeric(ex)
  {
    match Through(ops, r0, ex)
    case None => IsElectric(Lookup(r0, EngineTypeColumn)) || EngineOf(r0, ex).None?
    case Some(x) => Exportable(x) && !IsElectric(Lookup(r0, EngineTypeColumn)) && EngineOf(r0, ex) == Some(ToEngine(x))
  }

  /** Every vehicle row of the input, taken through the script's stages, agrees with the reference. */
  lemma ScriptAgrees(w: Wide, keep: seq<string>, ex: Extractor)
    requires WellFormed(w) && Numeric(ex)
    requires forall n :: n in Keep ==> n in keep
    ensures forall j :: 0 <= j < |w.vehicles| ==> Agrees(ScriptOps(keep), VehicleRow(w, j), ex)
  {
    forall j | 0 <= j < |w.vehicles| ensures Agrees(ScriptOps(keep), VehicleRow(w, j), ex) {
      assert Lookup(VehicleRow(w, j), VehicleColumn) == Some(w.vehicles[j]);
      ScriptRow(VehicleRow(w, j), keep, ex);
    }
  }

  /** What stages that agree with the reference leave of the vehicles from `k` on exports as the reference says. */
  lemma {:induction false} ExportFrom(w: Wide, ops: seq<RowOp>, k: nat, ex: Extractor)
    requires WellFormed(w) && k <= |w.vehicles| && Numeric(ex)
    requires forall j :: k <= j < |w.vehicles| ==> Agrees(ops, VehicleRow(w, j), ex)
    ensures var out := Collect(ops, VehicleRows(w)[k..], ex);
      (forall x :: x in out ==> Exportable(x)) && Export(out) == ExpectedFrom(w, k, ex)
    decreases |w.vehicles| - k
  {
    var rows := VehicleRows(w);
    if k < |w.vehicles| {
      ExportFrom(w, ops, k + 1, ex);
      var row := VehicleRow(w, k);
      assert rows[k..][1..] == rows[k + 1..];
      assert rows[k..][0] == row;
      assert Agrees(ops, row, ex);
      var tail := Collect(ops, rows[k + 1..], ex);
      var rest := ExpectedFrom(w, k + 1, ex);
      match Through(ops, row, ex)
      case Some(x) =>
        assert Collect(ops, rows[k..], ex) == [x] + tail;
        assert ExpectedFrom(w, k, ex) == [ToEngine(x)] + rest;
        ExportCons(x, tail);
      case None =>
        assert Collect(ops, rows[k..], ex) == tail;
        assert ExpectedFrom(w, k, ex) == rest;
    } else {
      assert rows[k..] == [];
    }
  }

  lemma ExportCons(x: Row, tail: seq<Row>)
    requires Exportable(x) && forall y :: y in tail ==> Exportable(y)
    ensures forall y :: y in [x] + tail ==> Exportable(y)
    ensures Export([x] + tail) == [ToEngine(x)] + Export(tail)
  {
    assert forall y :: y in [x] + tail ==> y == x || y in tail;
  }



  // ---------------------------------------------------------------- the script

  /**
   * One extraction cell of cars.py: a new column from `src`, then `dropna` on
   * it. If the frame's rows are what `ops` leave of `base`, the new rows are
   * what `ops` and the cell's two stages leave of it.
   */
  method ExtractColumn(df: Frame, dst: string, src: string, f: Extractors.Field, ghost ops: seq<RowOp>, ghost base: seq<Row>)
    returns (r: Frame)
    requires src in df.columns
    requires df.rows == Collect(ops, base, Extractors.Extract)
    ensures dst in r.columns && forall c :: c in df.columns ==> c in r.columns
    ensures r.rows == Collect(ops + [Put(dst, src, f), Complete([dst])], base, Extractors.Extract)
  {
    r := Assign(df, dst, src, f);
    CollectStep(ops, Put(dst, src, f), base, Extractors.Extract);
    r := DropNa(r, [dst]);
    CollectStep(ops + [Put(dst, src, f)], Complete([dst]), base, Extractors.Extract);
    assert ops + [Put(dst, src, f)] + [Complete([dst])] == ops + [Put(dst, src, f), Complete([dst])];
  }

  /** The last extraction cell: horsepower and torque, then `dropna` on both. */
  method ExtractPowerColumns(df: Frame, ghost ops: seq<RowOp>, ghost base: seq<Row>) returns (r: Frame)
    requires HorsepowerColumn in df.columns && TorqueColumn in df.columns
    requires df.rows == Collect(ops, base, Extractors.Extract)
    ensures r.rows == Collect(ops + [Put("hp", HorsepowerColumn, Extractors.Power), Put("tq", TorqueColumn, Extractors.Power), Complete(["hp", "tq"])], base, Extractors.Extract)
  {
    var hp := Put("hp", HorsepowerColumn, Extractors.Power);
    var tq := Put("tq", TorqueColumn, Extractors.Power);
    r := Assign(df, "hp", HorsepowerColumn, Extractors.Power);
    CollectStep(ops, hp, base, Extractors.Extract);
    r := Assign(r, "tq", TorqueColumn, Extractors.Power);
    CollectStep(ops + [hp], tq, base, Extractors.Extract);
    r := DropNa(r, ["hp", "tq"]);
    CollectStep(ops + [hp] + [tq], Complete(["hp", "tq"]), base, Extractors.Extract);
    SnocThree(ops, hp, tq, Complete(["hp", "tq"]));
  }

  lemma SnocThree<T>(s: seq<T>, a: T, b: T, c: T)
    ensures s + [a] + [b] + [c] == s + [a, b, c]
  {
  }

  /** The stages of RunScript, one extraction cell at a time, make up ScriptOps. */
  lemma ScriptOpsSpelled(keep: seq<string>)
    ensures [Project(keep), NotElectric, Project(Keep)]
      + [Put("displacement", DisplacementColumn, Extractors.Displacement), Complete(["displacement"])]
      + [Put("engine_type", EngineTypeColumn, Extractors.EngineType), Complete(["engine_type"])]
      + [Put("cylinders", "engine_type", Extractors.Cylinders), Complete(["cylinders"])]
      + [Put("engine_config", "engine_type", Extractors.EngineConfig), Complete(["engine_config"])]
      + [Put("hp", HorsepowerColumn, Extractors.Power), Put("tq", TorqueColumn, Extractors.Power), Complete(["hp", "tq"])]
      == ScriptOps(keep)
  {
  }

  lemma Snoc(a: RowOp, b: RowOp, c: RowOp)
    ensures [a, b] + [c] == [a, b, c]
  {
  }

  /** The electric-vehicle filter as a stage of the script. */
  method DropElectricStage(df: Frame, ghost ops: seq<RowOp>, ghost base: seq<Row>) returns (r: Result<Frame, ScriptError>)
    requires df.rows == Collect(ops, base, Extractors.Extract)
    ensures r.Err? <==> EngineTypeColumn !in df.columns
    ensures r.Err? ==> r.error.MissingColumns?
    ensures r.Ok? ==> r.value.columns == df.columns
    ensures r.Ok? ==> r.value.rows == Collect(ops + [NotElectric], base, Extractors.Extract)
  {
    r := DropElectric(df);
    if r.Ok? {
      CollectStep(ops, NotElectric, base, Extractors.Extract);
    }
  }

  /** The column selection as a stage of the script. */
  method SelectStage(df: Frame, names: seq<string>, ghost ops: seq<RowOp>, ghost base: seq<Row>) returns (r: Result<Frame, ScriptError>)
    requires df.rows == Collect(ops, base, Extractors.Extract)
    ensures r.Err? <==> exists n :: n in names && n !in df.columns
    ensures r.Err? ==> r.error.MissingColumns?
    ensures r.Ok? ==> r.value.columns == names
    ensures r.Ok? ==> r.value.rows == Collect(ops + [Project(names)], base, Extractors.Extract)
  {
    r := Select(df, names);
    if r.Ok? {
      CollectStep(ops, Project(names), base, Extractors.Extract);
    }
  }

  /** The columns the NA filter keeps; none when it stops on an empty frame. */
  function KeptColumns(w: Wide): (keep: seq<string>)
    requires WellFormed(w)
    ensures |w.vehicles| == 0 ==> keep == []
    ensures |w.vehicles| > 0 ==> forall c :: c in keep <==> c in Reshape(w).columns && DenseEnough(Reshape(w), c)
  {
    match DropSparseColumns(Reshape(w))
      case Ok(df) => df.columns
      case Err(_) => []
  }

  /**
   * The first cells of cars.py: reshape, drop the sparse columns, drop the
   * electric vehicles, keep the listed columns. A ZeroDivisionError exactly
   * when there are no vehicles; otherwise a KeyError exactly when a listed
   * column did not survive the NA filter.
   */
  method Clean(w: Wide) returns (r: Result<Frame, ScriptError>, ghost keep: seq<string>)
    requires WellFormed(w)
    ensures keep == KeptColumns(w)
    ensures r == Err(ZeroDivision) <==> |w.vehicles| == 0
    ensures r.Err? <==> exists n :: n in Keep && n !in keep
    ensures r.Ok? ==> r.value.columns == Keep
    ensures r.Ok? ==> r.value.rows == Collect([Project(keep), NotElectric, Project(Keep)], VehicleRows(w), Extractors.Extract)
  {
    var df := Reshape(w);
    ghost var base := df.rows;
    var sparse := DropSparseColumns(df);
    if sparse.Err? {
      keep := [];
      KeepHasSources();
      return Err(ZeroDivision), keep;
    }
    df := sparse.value;
    keep := df.columns;
    CollectNothing(base, Extractors.Extract);
    CollectStep([], Project(keep), base, Extractors.Extract);
    assert [] + [Project(keep)] == [Project(keep)];
    r := Narrow(df, base);
  }

  /**
   * The cells after the NA filter: drop the electric vehicles, then keep the
   * listed columns, with a KeyError exactly when one of them is missing.
   */
  method Narrow(df: Frame, ghost base: seq<Row>) returns (r: Result<Frame, ScriptError>)
    requires df.rows == Collect([Project(df.columns)], base, Extractors.Extract)
    ensures r.Err? <==> exists n :: n in Keep && n !in df.columns
    ensures r.Err? ==> r.error.MissingColumns?
    ensures r.Ok? ==> r.value.columns == Keep
    ensures r.Ok? ==> r.value.rows == Collect([Project(df.columns), NotElectric, Project(Keep)], base, Extractors.Extract)
  {
    var dense := DropElectricStage(df, [Project(df.columns)], base);
    if dense.Err? {
      KeepHasSources();
      return Err(dense.error);
    }
    assert [Project(df.columns)] + [NotElectric] == [Project(df.columns), NotElectric];
    r := SelectStage(dense.value, Keep, [Project(df.columns), NotElectric], base);
    Snoc(Project(df.columns), NotElectric, Project(Keep));
  }

  /**
   * cars.py from the reshaped input to the exported table: a ZeroDivisionError
   * exactly when there are no vehicles, a KeyError exactly when the NA filter
   * dropped one of the kept columns, and otherwise the engine lines of the
   * reference, in input order.
   */
  method RunScript(w: Wide) returns (r: Result<seq<Engine>, ScriptError>)
    requires WellFormed(w)
    ensures r == Err(ZeroDivision) <==> |w.vehicles| == 0
    ensures r.Err? <==> |w.vehicles| == 0 || exists n :: n in Keep && n !in KeptColumns(w)
    ensures r.Ok? ==> r.value == Expected(w)
  {
    var cleaned, keep := Clean(w);
    if cleaned.Err? {
      return Err(cleaned.error);
    }
    var df := cleaned.value;
    ghost var base := VehicleRows(w);
    ghost var ops := [Project(keep), NotElectric, Project(Keep)];
    KeepHasSources();

    df := ExtractColumn(df, "displacement", DisplacementColumn, Extractors.Displacement, ops, base);
    ops := ops + [Put("displacement", DisplacementColumn, Extractors.Displacement), Complete(["displacement"])];
    df := ExtractColumn(df, "engine_type", EngineTypeColumn, Extractors.EngineType, ops, base);
    ops := ops + [Put("engine_type", EngineTypeColumn, Extractors.EngineType), Complete(["engine_type"])];
    df := ExtractColumn(df, "cylinders", "engine_type", Extractors.Cylinders, ops, base);
    ops := ops + [Put("cylinders", "engine_type", Extractors.Cylinders), Complete(["cylinders"])];
    df := ExtractColumn(df, "engine_config", "engine_type", Extractors.EngineConfig, ops, base);
    ops := ops + [Put("engine_config", "engine_type", Extractors.EngineConfig), Complete(["engine_config"])];
    df := ExtractPowerColumns(df, ops, base);
    ops := ops + [Put("hp", HorsepowerColumn, Extractors.Power), Put("tq", TorqueColumn, Extractors.Power), Complete(["hp", "tq"])];

    ScriptOpsSpelled(keep);
    ExtractIsNumeric();
    ScriptAgrees(w, keep, Extractors.Extract);
    ExportFrom(w, ScriptOps(keep), 0, Extractors.Extract);
    assert base[0..] == base;
    r := Ok(Export(df.rows));
  }
}
