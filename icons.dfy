/** Band selection for the tray icon (`GetIcon`) and the pair of text and icon
    that `UpdateVisuals` puts on the tray. */
module Icons {
  import opened Battery

  /** The six icons the tray can show. */
  datatype Band = Battery100 | Battery75 | Battery50 | Battery25 | Warning | Charging

  /** Lowest percentage a level band is shown for. */
  function Floor(b: Band): real
    requires b != Charging
  {
    match b
    case Battery100 => 75.0
    case Battery75 => 50.0
    case Battery50 => 25.0
    case Battery25 => 10.0
    case Warning => 0.0
  }

  /** Percentage from which the next higher level band takes over. */
  function Ceiling(b: Band): real
    requires b != Charging && b != Battery100
  {
    match b
    case Battery75 => 75.0
    case Battery50 => 50.0
    case Battery25 => 25.0
    case Warning => 10.0
  }

  /** Position of a level band, lowest (Warning) first; Charging is not a level. */
  function Rank(b: Band): nat
  {
    match b
    case Warning => 0
    case Battery25 => 1
    case Battery50 => 2
    case Battery75 => 3
    case Battery100 => 4
    case Charging => 5
  }

  /** `GetIcon`: charging below Full shows Charging; otherwise the level band
      whose interval [Floor, Ceiling) holds the percentage; a negative
      percentage falls back to Charging. */
  function GetIcon(battery: real, charging: bool): (b: Band)
    ensures charging && battery < Full ==> b == Charging
    ensures !(charging && battery < Full) ==> (b == Charging <==> battery < 0.0)
    ensures b != Charging ==> Floor(b) <= battery
    ensures b != Charging && b != Battery100 ==> battery < Ceiling(b)
  {
    if charging && battery < Full then Charging
    else if battery >= 75.0 then Battery100
    else if battery >= 50.0 then Battery75
    else if battery >= 25.0 then Battery50
    else if battery >= 10.0 then Battery25
    else if battery >= 0.0 then Warning
    else Charging
  }

  /** Not charging, a higher percentage never selects a lower band. */
  lemma BandMonotone(p: real, q: real)
    requires 0.0 <= p <= q
    ensures Rank(GetIcon(p, false)) <= Rank(GetIcon(q, false))
  {
  }

  /** The thresholds of `GetIcon` as a table, highest first. */
  const BandTable: seq<(real, Band)> :=
    [(75.0, Battery100), (50.0, Battery75), (25.0, Battery50), (10.0, Battery25), (0.0, Warning)]

  /** First entry of the table whose threshold the percentage reaches;
      Charging when it reaches none. */
  function SelectBand(table: seq<(real, Band)>, battery: real): Band
  {
    if table == [] then Charging
    else if battery >= table[0].0 then table[0].1
    else SelectBand(table[1..], battery)
  }

  ghost predicate Descending(table: seq<(real, Band)>)
  {
    forall i, j :: 0 <= i < j < |table| ==> table[i].0 > table[j].0
  }

  /** On a table sorted by descending threshold, the selected band is the one
      of the highest threshold at or below the percentage. */
  lemma {:induction false} SelectBandPicksHighest(table: seq<(real, Band)>, battery: real, k: nat)
    requires Descending(table)
    requires k < |table| && table[k].0 <= battery
    requires k == 0 || battery < table[k - 1].0
    ensures SelectBand(table, battery) == table[k].1
  {
    if k > 0 {
      assert battery < table[0].0;
      assert Descending(table[1..]) by {
        forall i, j | 0 <= i < j < |table[1..]| ensures table[1..][i].0 > table[1..][j].0 {
          assert table[1..][i] == table[i + 1] && table[1..][j] == table[j + 1];
        }
      }
      SelectBandPicksHighest(table[1..], battery, k - 1);
    }
  }

  /** When the percentage reaches no threshold of the table, the lookup falls
      back to Charging. */
  lemma {:induction false} SelectBandNoneReached(table: seq<(real, Band)>, battery: real)
    requires forall i :: 0 <= i < |table| ==> battery < table[i].0
    ensures SelectBand(table, battery) == Charging
  {
    if table != [] {
      assert forall i :: 0 <= i < |table[1..]| ==> table[1..][i] == table[i + 1];
      SelectBandNoneReached(table[1..], battery);
    }
  }

  /** The thresholds of `GetIcon` strictly decrease down the table. */
  lemma BandTableDescending()
    ensures Descending(BandTable)
  {
  }

  /** Without the charging override, `GetIcon` shows the band of the highest
      threshold of the table at or below the percentage, and Charging when
      the percentage is below every threshold. */
  lemma GetIconPicksHighestThreshold(battery: real, charging: bool, k: nat)
    requires !(charging && battery < Full)
    requires k < |BandTable| && BandTable[k].0 <= battery
    requires k == 0 || battery < BandTable[k - 1].0
    ensures GetIcon(battery, charging) == BandTable[k].1
  {
    GetIconIsTableLookup(battery, charging);
    BandTableDescending();
    SelectBandPicksHighest(BandTable, battery, k);
  }

  /** Below every threshold of the table (a negative percentage), `GetIcon`
      without the charging override shows Charging. */
  lemma GetIconBelowAllThresholds(battery: real, charging: bool)
    requires forall i :: 0 <= i < |BandTable| ==> battery < BandTable[i].0
    ensures GetIcon(battery, charging) == Charging
  {
    GetIconIsTableLookup(battery, charging);
    SelectBandNoneReached(BandTable, battery);
  }

  /** `GetIcon` is the charging override followed by a lookup in the band table. */
  lemma GetIconIsTableLookup(battery: real, charging: bool)
    ensures GetIcon(battery, charging)
      == if charging && battery < Full then Charging else SelectBand(BandTable, battery)
  {
    var t0 := BandTable;
    var t1, t2, t3, t4 := t0[1..], t0[2..], t0[3..], t0[4..];
    assert SelectBand(t4, battery) == if battery >= 0.0 then Warning else Charging by {
      assert t4[1..] == [];
    }
    assert SelectBand(t3, battery) == if battery >= 10.0 then Battery25 else SelectBand(t4, battery);
    assert SelectBand(t2, battery) == if battery >= 25.0 then Battery50 else SelectBand(t3, battery);
    assert SelectBand(t1, battery) == if battery >= 50.0 then Battery75 else SelectBand(t2, battery);
    assert SelectBand(t0, battery) == if battery >= 75.0 then Battery100 else SelectBand(t1, battery);
  }

  /** Charging at exactly Full shows the Battery100 icon, not Charging. */
  lemma FullWhileCharging()
    ensures GetIcon(Full, true) == Battery100
  {
  }

  /** The negative-percentage fallback is never reached by a ticked value:
      after any tick, Charging is shown only while charging below Full. */
  lemma FallbackUnreachableAfterTick(battery: real, charging: bool, nowCharging: bool)
    ensures GetIcon(TickValue(battery, charging), nowCharging) == Charging
      <==> nowCharging && TickValue(battery, charging) < Full
  {
  }

  /** Text of the tray tooltip: the charging label, or the level label for a
      percentage (its rounding to an integer is not modelled). */
  datatype Label = ChargingLabel | LevelLabel(percent: real)

  /** What `UpdateVisuals` shows: tooltip text and icon. */
  datatype Display = Display(text: Label, icon: Band)

  /** `UpdateVisuals`: the text uses the charging label exactly when charging,
      and the icon is the band of the current state. */
  function Visuals(battery: real, charging: bool): (d: Display)
    ensures d.text == ChargingLabel <==> charging
    ensures !charging ==> d.text.percent == battery
    ensures d.icon == GetIcon(battery, charging)
  {
    Display(if charging then ChargingLabel else LevelLabel(battery), GetIcon(battery, charging))
  }

  /** 20 % on battery becomes 19.95 % with the Battery25 icon; 99.5 % while
      charging becomes 100 % with the charging text and the Battery100 icon. */
  lemma DisplayScenarios()
    ensures Visuals(TickValue(20.0, false), false) == Display(LevelLabel(19.95), Battery25)
    ensures Visuals(TickValue(99.5, true), true) == Display(ChargingLabel, Battery100)
  {
    TickScenarios();
  }
}
