/** The persistence layer of `pirep_cli/db_ops.py` over an in-memory model of the
    three tables `airport`, `pirep` and `weather_phenomenon`. Each table is the
    sequence of its rows in insertion order, which is also id order. */
module Store {
  import opened Wrappers
  import opened Models

  // ---------------------------------------------------------------------
  // Rows and tables
  // ---------------------------------------------------------------------

  datatype AirportRow = AirportRow(id: nat, icaoCode: string, name: string)

  datatype PirepRow = PirepRow(
    id: nat,
    reportType: string,
    airportId: nat,
    time: string,
    altitude: string,
    aircraftType: string,
    temperature: Option<string>,
    wind: Option<string>,
    remarks: Option<string>)

  datatype PhenomenonRow = PhenomenonRow(id: nat, pirepId: nat, phenomenon: string)

  datatype Tables = Tables(airports: seq<AirportRow>, pireps: seq<PirepRow>,
                           phenomena: seq<PhenomenonRow>)

  function AirportIds(rows: seq<AirportRow>): (r: seq<nat>)
  {
    seq(|rows|, i requires 0 <= i < |rows| => rows[i].id)
  }

  function PirepIds(rows: seq<PirepRow>): (r: seq<nat>)
  {
    seq(|rows|, i requires 0 <= i < |rows| => rows[i].id)
  }

  function PhenomenonIds(rows: seq<PhenomenonRow>): (r: seq<nat>)
  {
    seq(|rows|, i requires 0 <= i < |rows| => rows[i].id)
  }

  /** Primary keys as SQLite hands them out: positive and growing with every row. */
  predicate Increasing(ids: seq<nat>)
  {
    (forall i :: 0 <= i < |ids| ==> 0 < ids[i])
    && (forall i, j :: 0 <= i < j < |ids| ==> ids[i] < ids[j])
  }

  function Max(ids: seq<nat>): (m: nat)
    ensures forall i :: 0 <= i < |ids| ==> ids[i] <= m
  {
    if ids == [] then 0
    else
      var m := Max(ids[..|ids| - 1]);
      if ids[|ids| - 1] > m then ids[|ids| - 1] else m
  }

  /** The key SQLite assigns to a new row of a table without `AUTOINCREMENT`: one
      above the largest key in use, and 1 in an empty table. */
  function NextId(ids: seq<nat>): (r: nat)
  {
    Max(ids) + 1
  }

  /** The first airport row with the given ICAO code, as `query(...).filter_by(...).first()`. */
  function FindAirport(rows: seq<AirportRow>, icao: string): (r: Option<AirportRow>)
    ensures r.Some? ==> r.value in rows && r.value.icaoCode == icao
    ensures r.None? ==> forall i :: 0 <= i < |rows| ==> rows[i].icaoCode != icao
  {
    if rows == [] then None
    else if rows[0].icaoCode == icao then Some(rows[0])
    else FindAirport(rows[1..], icao)
  }

  /** The airport row with the given key, as the `pirep.airport` relationship loads it. */
  function AirportById(rows: seq<AirportRow>, id: nat): (r: Option<AirportRow>)
    ensures r.Some? ==> r.value in rows && r.value.id == id
    ensures r.None? ==> forall i :: 0 <= i < |rows| ==> rows[i].id != id
  {
    if rows == [] then None
    else if rows[0].id == id then Some(rows[0])
    else AirportById(rows[1..], id)
  }

  /** No two airport rows share an ICAO code. */
  predicate UniqueCodes(rows: seq<AirportRow>)
  {
    forall i, j :: 0 <= i < j < |rows| ==> rows[i].icaoCode != rows[j].icaoCode
  }

  /** Whether some airport row carries the given ICAO code. */
  predicate HasCode(rows: seq<AirportRow>, icao: string)
  {
    exists i :: 0 <= i < |rows| && rows[i].icaoCode == icao
  }

  /** The invariant of the database as `save_pirep` leaves it: growing keys in each
      table, unique ICAO codes, and every foreign key pointing at an existing row. */
  predicate WellFormed(t: Tables)
  {
    Increasing(AirportIds(t.airports))
    && Increasing(PirepIds(t.pireps))
    && Increasing(PhenomenonIds(t.phenomena))
    && UniqueCodes(t.airports)
    && (forall i :: 0 <= i < |t.pireps| ==> AirportById(t.airports, t.pireps[i].airportId).Some?)
    && (forall i :: 0 <= i < |t.phenomena| ==> t.phenomena[i].pirepId in PirepIds(t.pireps))
  }

  // ---------------------------------------------------------------------
  // save_pirep, as a function of the tables
  // ---------------------------------------------------------------------

  /** The phenomenon rows of one report: consecutive keys from `firstId`, all
      pointing at pirep `pid`, in list order. */
  function PhenomenonRows(pid: nat, firstId: nat, phs: seq<string>): (r: seq<PhenomenonRow>)
  {
    seq(|phs|, i requires 0 <= i < |phs| => PhenomenonRow(firstId + i, pid, phs[i]))
  }

  /** The airport rows after the lookup-or-insert, and the key of the airport used. */
  datatype AirportChoice = AirportChoice(airports: seq<AirportRow>, id: nat)

  function ChooseAirport(rows: seq<AirportRow>, d: PirepData): (r: AirportChoice)
  {
    match FindAirport(rows, d.icaoCode)
    case Some(a) => AirportChoice(rows, a.id)
    case None =>
      var id := NextId(AirportIds(rows));
      AirportChoice(rows + [AirportRow(id, d.icaoCode, d.airportName)], id)
  }

  function NewPirepRow(t: Tables, d: PirepData): (r: PirepRow)
  {
    PirepRow(NextId(PirepIds(t.pireps)), d.reportType, ChooseAirport(t.airports, d).id,
             d.time, d.altitude, d.aircraftType, d.temperature, d.wind, d.remarks)
  }

  /** The tables after a committed `save_pirep(d)`. */
  function Committed(t: Tables, d: PirepData): (r: Tables)
  {
    var p := NewPirepRow(t, d);
    Tables(ChooseAirport(t.airports, d).airports,
           t.pireps + [p],
           t.phenomena + PhenomenonRows(p.id, NextId(PhenomenonIds(t.phenomena)), d.phenomena))
  }

  /** The number of engine round trips `save_pirep` makes: the airport query, the
      airport flush when the airport is new, the pirep flush, and the commit. */
  function EngineSteps(t: Tables, d: PirepData): (r: nat)
  {
    if FindAirport(t.airports, d.icaoCode).Some? then 3 else 4
  }

  // ---------------------------------------------------------------------
  // list_pireps, as a function of the tables
  // ---------------------------------------------------------------------

  /** The phenomena of pirep `pid`, in the order of their rows. */
  function PhenomenaOf(rows: seq<PhenomenonRow>, pid: nat): (r: seq<string>)
  {
    if rows == [] then []
    else
      var last := rows[|rows| - 1];
      PhenomenaOf(rows[..|rows| - 1], pid) + (if last.pirepId == pid then [last.phenomenon] else [])
  }

  /** The dictionary `list_pireps` rebuilds from a pirep row, its airport and its phenomena. */
  function Rebuild(t: Tables, p: PirepRow): (r: PirepData)
    requires AirportById(t.airports, p.airportId).Some?
  {
    var a := AirportById(t.airports, p.airportId).value;
    PirepData(p.reportType, a.icaoCode, a.name, p.time, p.altitude, p.aircraftType,
              PhenomenaOf(t.phenomena, p.id), p.temperature, p.wind, p.remarks)
  }

  /** `list_pireps`: one formatted report per pirep row, in retrieval order. */
  function ListPireps(t: Tables): (r: seq<string>)
    requires WellFormed(t)
  {
    seq(|t.pireps|, i requires 0 <= i < |t.pireps| => FormatPirep(Rebuild(t, t.pireps[i])))
  }

  // ---------------------------------------------------------------------
  // Facts about keys and lookups
  // ---------------------------------------------------------------------

  lemma NextIdFresh(ids: seq<nat>)
    ensures forall i :: 0 <= i < |ids| ==> ids[i] < NextId(ids)
    ensures Increasing(ids) ==> Increasing(ids + [NextId(ids)])
  {
  }

  lemma PirepIdsBelow(rows: seq<PirepRow>)
    ensures forall i :: 0 <= i < |rows| ==> rows[i].id < NextId(PirepIds(rows))
  {
    var ids := PirepIds(rows);
    NextIdFresh(ids);
    forall i | 0 <= i < |rows| ensures rows[i].id < NextId(ids) {
      assert ids[i] == rows[i].id;
    }
  }

  lemma PhenomenonIdsBelow(rows: seq<PhenomenonRow>)
    ensures forall i :: 0 <= i < |rows| ==> rows[i].id < NextId(PhenomenonIds(rows))
  {
    var ids := PhenomenonIds(rows);
    NextIdFresh(ids);
    forall i | 0 <= i < |rows| ensures rows[i].id < NextId(ids) {
      assert ids[i] == rows[i].id;
    }
  }

  lemma AirportIdsOrdered(rows: seq<AirportRow>)
    requires Increasing(AirportIds(rows))
    ensures forall i, j :: 0 <= i < j < |rows| ==> rows[i].id < rows[j].id
  {
    var ids := AirportIds(rows);
    forall i, j | 0 <= i < j < |rows| ensures rows[i].id < rows[j].id {
      assert ids[i] == rows[i].id && ids[j] == rows[j].id;
    }
  }

  lemma {:induction false} AirportByIdPrefix(rows: seq<AirportRow>, extra: seq<AirportRow>, id: nat)
    requires AirportById(rows, id).Some?
    ensures AirportById(rows + extra, id) == AirportById(rows, id)
  {
    if rows[0].id != id {
      assert (rows + extra)[1..] == rows[1..] + extra;
      AirportByIdPrefix(rows[1..], extra, id);
    }
  }

  /** With unique keys, the row found by key is the row at that key's position. */
  lemma {:induction false} AirportByIdAt(rows: seq<AirportRow>, k: nat)
    requires k < |rows|
    requires forall i :: 0 <= i < k ==> rows[i].id != rows[k].id
    ensures AirportById(rows, rows[k].id) == Some(rows[k])
  {
    if k > 0 {
      AirportByIdAt(rows[1..], k - 1);
    }
  }

  lemma {:induction false} PhenomenaOfAppend(a: seq<PhenomenonRow>, b: seq<PhenomenonRow>, pid: nat)
    ensures PhenomenaOf(a + b, pid) == PhenomenaOf(a, pid) + PhenomenaOf(b, pid)
  {
    if b != [] {
      var init := b[..|b| - 1];
      assert (a + b)[..|a + b| - 1] == a + init;
      var last := b[|b| - 1];
      var tail := if last.pirepId == pid then [last.phenomenon] else [];
      assert (a + b)[|a + b| - 1] == last;
      PhenomenaOfAppend(a, init, pid);
      calc {
        PhenomenaOf(a + b, pid);
        PhenomenaOf(a + init, pid) + tail;
        PhenomenaOf(a, pid) + PhenomenaOf(init, pid) + tail;
        PhenomenaOf(a, pid) + (PhenomenaOf(init, pid) + tail);
        PhenomenaOf(a, pid) + PhenomenaOf(b, pid);
      }
    } else {
      assert a + b == a;
    }
  }

  lemma {:induction false} PhenomenaOfNone(rows: seq<PhenomenonRow>, pid: nat)
    requires forall i :: 0 <= i < |rows| ==> rows[i].pirepId != pid
    ensures PhenomenaOf(rows, pid) == []
  {
    if rows != [] {
      PhenomenaOfNone(rows[..|rows| - 1], pid);
    }
  }

  /** The rows written for a report give back its phenomena, in order. */
  lemma {:induction false} PhenomenaOfRows(pid: nat, firstId: nat, phs: seq<string>)
    ensures PhenomenaOf(PhenomenonRows(pid, firstId, phs), pid) == phs
  {
    if phs != [] {
      var rows := PhenomenonRows(pid, firstId, phs);
      var init := phs[..|phs| - 1];
      assert rows[..|rows| - 1] == PhenomenonRows(pid, firstId, init);
      PhenomenaOfRows(pid, firstId, init);
    }
  }

  lemma PhenomenonRowsNotFor(pid: nat, firstId: nat, phs: seq<string>, other: nat)
    requires other != pid
    ensures PhenomenaOf(PhenomenonRows(pid, firstId, phs), other) == []
  {
    PhenomenaOfNone(PhenomenonRows(pid, firstId, phs), other);
  }

  // ---------------------------------------------------------------------
  // What a committed save does
  // ---------------------------------------------------------------------

  /** An airport with the report's ICAO code is reused, its row untouched; otherwise
      exactly one row is added. Either way ICAO codes stay unique, and the chosen
      key names an airport row with the report's ICAO code. */
  lemma SaveAirport(t: Tables, d: PirepData)
    requires WellFormed(t)
    ensures var c := ChooseAirport(t.airports, d);
      && |t.airports| <= |c.airports|
      && c.airports[..|t.airports|] == t.airports
      && |c.airports| == |t.airports| + (if HasCode(t.airports, d.icaoCode) then 0 else 1)
      && (!HasCode(t.airports, d.icaoCode) ==> c.airports[|t.airports|].name == d.airportName)
      && UniqueCodes(c.airports)
      && Increasing(AirportIds(c.airports))
      && AirportById(c.airports, c.id).Some?
      && AirportById(c.airports, c.id).value.icaoCode == d.icaoCode
  {
    var rows := t.airports;
    var c := ChooseAirport(rows, d);
    var ids := AirportIds(rows);
    match FindAirport(rows, d.icaoCode)
    case Some(a) =>
      var k :| 0 <= k < |rows| && rows[k] == a;
      AirportIdsOrdered(rows);
      AirportByIdAt(rows, k);
    case None =>
      var id := NextId(ids);
      var row := AirportRow(id, d.icaoCode, d.airportName);
      NextIdFresh(ids);
      assert AirportIds(c.airports) == ids + [id];
      assert c.airports[|rows|] == row;
      forall i | 0 <= i < |rows| ensures rows[i].id != id {
        assert ids[i] == rows[i].id;
      }
      AirportByIdAt(c.airports, |rows|);
  }

  /** Exactly one pirep row is added, with a key no existing row has, the report's
      fields copied into it, and linked to the airport with the report's ICAO code. */
  lemma SavePirep(t: Tables, d: PirepData)
    requires WellFormed(t)
    ensures var t' := Committed(t, d);
      var p := t'.pireps[|t.pireps|];
      && t'.pireps == t.pireps + [p]
      && (forall i :: 0 <= i < |t.pireps| ==> t.pireps[i].id < p.id)
      && p.reportType == d.reportType && p.time == d.time && p.altitude == d.altitude
      && p.aircraftType == d.aircraftType
      && p.temperature == d.temperature && p.wind == d.wind && p.remarks == d.remarks
      && AirportById(t'.airports, p.airportId).Some?
      && AirportById(t'.airports, p.airportId).value.icaoCode == d.icaoCode
  {
    SaveAirport(t, d);
    var ids := PirepIds(t.pireps);
    NextIdFresh(ids);
    forall i | 0 <= i < |t.pireps| ensures t.pireps[i].id < NextId(ids) {
      assert ids[i] == t.pireps[i].id;
    }
  }

  /** One phenomenon row per phenomenon is added after the existing ones, each
      pointing at the new pirep, in list order. */
  lemma SavePhenomena(t: Tables, d: PirepData)
    ensures |Committed(t, d).phenomena| == |t.phenomena| + |d.phenomena|
    ensures Committed(t, d).phenomena[..|t.phenomena|] == t.phenomena
    ensures forall k :: 0 <= k < |d.phenomena| ==>
      Committed(t, d).phenomena[|t.phenomena| + k].pirepId == NewPirepRow(t, d).id
      && Committed(t, d).phenomena[|t.phenomena| + k].phenomenon == d.phenomena[k]
  {
    var rows := PhenomenonRows(NewPirepRow(t, d).id, NextId(PhenomenonIds(t.phenomena)), d.phenomena);
    var all := Committed(t, d).phenomena;
    forall k | 0 <= k < |d.phenomena| ensures all[|t.phenomena| + k] == rows[k] {
    }
    assert all[..|t.phenomena|] == t.phenomena;
  }

  /** The phenomena stored for the new pirep are the report's, in order. */
  lemma SavedPhenomena(t: Tables, d: PirepData)
    requires WellFormed(t)
    ensures PhenomenaOf(Committed(t, d).phenomena, NewPirepRow(t, d).id) == d.phenomena
  {
    var pid := NewPirepRow(t, d).id;
    OldPhenomenaNotForNew(t, pid);
    AppendRowsFor(t.phenomena, pid, NextId(PhenomenonIds(t.phenomena)), d.phenomena, Committed(t, d).phenomena);
  }

  /** Appending the rows for `pid` to a table with none for it gives exactly the
      phenomena of `pid`. */
  lemma AppendRowsFor(prefix: seq<PhenomenonRow>, pid: nat, firstId: nat, phs: seq<string>,
                      all: seq<PhenomenonRow>)
    requires PhenomenaOf(prefix, pid) == []
    requires all == prefix + PhenomenonRows(pid, firstId, phs)
    ensures PhenomenaOf(all, pid) == phs
  {
    PhenomenaOfAppend(prefix, PhenomenonRows(pid, firstId, phs), pid);
    PhenomenaOfRows(pid, firstId, phs);
  }

  /** No existing phenomenon row points at a key larger than every pirep key. */
  lemma OldPhenomenaNotForNew(t: Tables, pid: nat)
    requires WellFormed(t)
    requires pid == NextId(PirepIds(t.pireps))
    ensures PhenomenaOf(t.phenomena, pid) == []
  {
    NextIdFresh(PirepIds(t.pireps));
    PhenomenaOfNone(t.phenomena, pid);
  }

  /** A committed save keeps the database well formed. */
  lemma CommittedWellFormed(t: Tables, d: PirepData)
    requires WellFormed(t)
    ensures WellFormed(Committed(t, d))
  {
    SaveAirport(t, d);
    CommittedPirepIds(t, d);
    CommittedPhenomenonIds(t, d);
    CommittedAirportLinks(t, d);
    CommittedPhenomenonLinks(t, d);
  }

  lemma CommittedPirepIds(t: Tables, d: PirepData)
    requires WellFormed(t)
    ensures Increasing(PirepIds(Committed(t, d).pireps))
    ensures PirepIds(Committed(t, d).pireps) == PirepIds(t.pireps) + [NewPirepRow(t, d).id]
  {
    var pids := PirepIds(t.pireps);
    NextIdFresh(pids);
    assert PirepIds(Committed(t, d).pireps) == pids + [NewPirepRow(t, d).id];
  }

  lemma CommittedPhenomenonIds(t: Tables, d: PirepData)
    requires WellFormed(t)
    ensures Increasing(PhenomenonIds(Committed(t, d).phenomena))
  {
    var fids := PhenomenonIds(t.phenomena);
    var first := NextId(fids);
    var rows := PhenomenonRows(NewPirepRow(t, d).id, first, d.phenomena);
    PhenomenonIdsBelow(t.phenomena);
    assert Committed(t, d).phenomena == t.phenomena + rows;
    PhenomenonIdsGrow(t.phenomena, rows, first);
  }

  lemma CommittedAirportLinks(t: Tables, d: PirepData)
    requires WellFormed(t)
    ensures var t' := Committed(t, d);
      forall i :: 0 <= i < |t'.pireps| ==> AirportById(t'.airports, t'.pireps[i].airportId).Some?
  {
    var t' := Committed(t, d);
    var c := ChooseAirport(t.airports, d);
    SaveAirport(t, d);
    var extra := c.airports[|t.airports|..];
    assert t.airports + extra == c.airports;
    forall i | 0 <= i < |t'.pireps|
      ensures AirportById(t'.airports, t'.pireps[i].airportId).Some?
    {
      if i < |t.pireps| {
        assert t'.pireps[i] == t.pireps[i];
        AirportByIdPrefix(t.airports, extra, t.pireps[i].airportId);
      }
    }
  }

  lemma CommittedPhenomenonLinks(t: Tables, d: PirepData)
    requires WellFormed(t)
    ensures var t' := Committed(t, d);
      forall i :: 0 <= i < |t'.phenomena| ==> t'.phenomena[i].pirepId in PirepIds(t'.pireps)
  {
    var t' := Committed(t, d);
    var p := NewPirepRow(t, d);
    var rows := PhenomenonRows(p.id, NextId(PhenomenonIds(t.phenomena)), d.phenomena);
    CommittedPirepIds(t, d);
    assert t'.phenomena == t.phenomena + rows;
    forall i | 0 <= i < |t'.phenomena| ensures t'.phenomena[i].pirepId in PirepIds(t'.pireps) {
      if i < |t.phenomena| {
        assert t'.phenomena[i] == t.phenomena[i];
      } else {
        assert t'.phenomena[i] == rows[i - |t.phenomena|];
      }
    }
  }

  lemma PhenomenonIdsGrow(prefix: seq<PhenomenonRow>, rows: seq<PhenomenonRow>, first: nat)
    requires Increasing(PhenomenonIds(prefix))
    requires forall i :: 0 <= i < |prefix| ==> prefix[i].id < first
    requires 0 < first
    requires forall k :: 0 <= k < |rows| ==> rows[k].id == first + k
    ensures Increasing(PhenomenonIds(prefix + rows))
  {
    var all := prefix + rows;
    var ids := PhenomenonIds(all);
    var old_ids := PhenomenonIds(prefix);
    forall i | 0 <= i < |ids| ensures 0 < ids[i] {
      if i < |prefix| {
        assert ids[i] == old_ids[i];
      } else {
        assert ids[i] == rows[i - |prefix|].id;
      }
    }
    forall i, j | 0 <= i < j < |ids| ensures ids[i] < ids[j] {
      if j < |prefix| {
        assert ids[i] == old_ids[i] && ids[j] == old_ids[j];
      } else if i < |prefix| {
        assert ids[i] == prefix[i].id && ids[j] == rows[j - |prefix|].id;
      } else {
        assert ids[i] == rows[i - |prefix|].id && ids[j] == rows[j - |prefix|].id;
      }
    }
  }

  /** Saving two reports for the same ICAO code leaves one airport row for it and
      two new pirep rows, both linked to that row. */
  lemma SameIcaoTwice(t: Tables, d1: PirepData, d2: PirepData)
    requires WellFormed(t)
    requires d1.icaoCode == d2.icaoCode
    ensures var t1 := Committed(t, d1);
      var t2 := Committed(t1, d2);
      && |t2.airports| == |t1.airports|
      && |t2.pireps| == |t.pireps| + 2
      && t2.pireps[|t.pireps|].airportId == t2.pireps[|t.pireps| + 1].airportId
      && AirportById(t2.airports, t2.pireps[|t.pireps|].airportId).Some?
      && AirportById(t2.airports, t2.pireps[|t.pireps|].airportId).value.icaoCode == d1.icaoCode
  {
    var t1 := Committed(t, d1);
    SaveAirport(t, d1);
    SavePirep(t, d1);
    CommittedWellFormed(t, d1);
    var a := AirportById(t1.airports, t1.pireps[|t.pireps|].airportId).value;
    var k :| 0 <= k < |t1.airports| && t1.airports[k] == a;
    assert HasCode(t1.airports, d2.icaoCode);
    SaveAirport(t1, d2);
    SavePirep(t1, d2);
    var b := FindAirport(t1.airports, d2.icaoCode).value;
    var j :| 0 <= j < |t1.airports| && t1.airports[j] == b;
    assert j == k;
  }

  // ---------------------------------------------------------------------
  // The round trip
  // ---------------------------------------------------------------------

  /** Saving a report leaves every earlier report listed as before. */
  lemma RebuildOld(t: Tables, d: PirepData, i: nat)
    requires WellFormed(t)
    requires i < |t.pireps|
    ensures AirportById(Committed(t, d).airports, t.pireps[i].airportId).Some?
    ensures Rebuild(Committed(t, d), t.pireps[i]) == Rebuild(t, t.pireps[i])
  {
    OldAirportKept(t, d, t.pireps[i].airportId);
    PirepIdsBelow(t.pireps);
    OldPhenomenaKept(t, d, t.pireps[i].id);
  }

  lemma OldAirportKept(t: Tables, d: PirepData, id: nat)
    requires WellFormed(t)
    requires AirportById(t.airports, id).Some?
    ensures AirportById(Committed(t, d).airports, id) == AirportById(t.airports, id)
  {
    var c := ChooseAirport(t.airports, d);
    SaveAirport(t, d);
    assert t.airports + c.airports[|t.airports|..] == c.airports;
    AirportByIdPrefix(t.airports, c.airports[|t.airports|..], id);
  }

  lemma OldPhenomenaKept(t: Tables, d: PirepData, pid: nat)
    requires pid < NextId(PirepIds(t.pireps))
    ensures PhenomenaOf(Committed(t, d).phenomena, pid) == PhenomenaOf(t.phenomena, pid)
  {
    var p := NewPirepRow(t, d);
    var rows := PhenomenonRows(p.id, NextId(PhenomenonIds(t.phenomena)), d.phenomena);
    PhenomenaOfAppend(t.phenomena, rows, pid);
    PhenomenonRowsNotFor(p.id, NextId(PhenomenonIds(t.phenomena)), d.phenomena, pid);
  }

  /** The report just saved is rebuilt with its own fields and phenomena, under the
      name of whichever airport row carries its ICAO code. */
  lemma RebuildNew(t: Tables, d: PirepData)
    requires WellFormed(t)
    ensures var t' := Committed(t, d);
      var p := t'.pireps[|t.pireps|];
      && AirportById(t'.airports, p.airportId).Some?
      && Rebuild(t', p) == d.(airportName := Rebuild(t', p).airportName)
  {
    SavePirep(t, d);
    SavePhenomena(t, d);
    SavedPhenomena(t, d);
  }

  /** After a committed save, listing gives the earlier listing followed by the
      formatted report just saved, whether or not its airport already existed. */
  lemma RoundTrip(t: Tables, d: PirepData)
    requires WellFormed(t)
    ensures WellFormed(Committed(t, d))
    ensures ListPireps(Committed(t, d)) == ListPireps(t) + [FormatPirep(d)]
  {
    var t' := Committed(t, d);
    CommittedWellFormed(t, d);
    var before := ListPireps(t);
    var after := ListPireps(t');
    forall i | 0 <= i < |t.pireps| ensures after[i] == before[i] {
      RebuildOld(t, d, i);
      assert t'.pireps[i] == t.pireps[i];
    }
    RebuildNew(t, d);
    var p := t'.pireps[|t.pireps|];
    FormatIgnoresAirportName(d, Rebuild(t', p).airportName);
    assert after[|t.pireps|] == FormatPirep(d);
  }

  /** The last listed report is the one saved last. */
  lemma ListEndsWithSaved(t: Tables, d: PirepData)
    requires WellFormed(t)
    ensures WellFormed(Committed(t, d))
    ensures var l := ListPireps(Committed(t, d));
      |l| == |t.pireps| + 1 && l[|l| - 1] == FormatPirep(d)
  {
    RoundTrip(t, d);
  }

  // ---------------------------------------------------------------------
  // The store as a program
  // ---------------------------------------------------------------------

  /** An exception raised by the storage engine at round trip `atStep` of a save
      (0 the airport query, then the flushes, the commit last). `caughtByMain` says
      whether it belongs to the exception classes `main` reports and survives. */
  datatype StorageFault = StorageFault(atStep: nat, message: string, caughtByMain: bool)

  predicate FailsAt(fault: Option<StorageFault>, step: nat)
  {
    fault.Some? && fault.value.atStep == step
  }

  class PirepStore {
    var airports: seq<AirportRow>
    var pireps: seq<PirepRow>
    var phenomena: seq<PhenomenonRow>

    function Contents(): (r: Tables)
      reads this
    {
      Tables(airports, pireps, phenomena)
    }

    predicate Valid()
      reads this
    {
      WellFormed(Contents())
    }

    /** A freshly created database: `create_all` on an empty file. */
    constructor ()
      ensures Contents() == Tables([], [], []) && Valid()
    {
      airports, pireps, phenomena := [], [], [];
    }

    /** `save_pirep(d)`. `fault` is the engine error, if any, that this call runs
        into. On success the tables are those of `Committed`; on failure the
        session is rolled back and nothing changes. */
    method Save(d: PirepData, fault: Option<StorageFault>) returns (r: Outcome<StorageFault>)
      requires Valid()
      modifies this
      ensures Valid()
      ensures r.Pass? <==> !(fault.Some? && fault.value.atStep < EngineSteps(old(Contents()), d))
      ensures r.Pass? ==> Contents() == Committed(old(Contents()), d)
      ensures r.Fail? ==> r.error == fault.value && Contents() == old(Contents())
    {
      var step := 0;
      // the airport query
      if FailsAt(fault, step) { return Fail(fault.value); }
      step := step + 1;
      var found := FindAirport(airports, d.icaoCode);
      var stagedAirports := airports;
      var airportId: nat;
      if found.None? {
        airportId := NextId(AirportIds(airports));
        stagedAirports := airports + [AirportRow(airportId, d.icaoCode, d.airportName)];
        // the airport flush
        if FailsAt(fault, step) { return Fail(fault.value); }
        step := step + 1;
      } else {
        airportId := found.value.id;
      }
      var pid := NextId(PirepIds(pireps));
      var row := PirepRow(pid, d.reportType, airportId, d.time, d.altitude, d.aircraftType,
                          d.temperature, d.wind, d.remarks);
      // the pirep flush
      if FailsAt(fault, step) { return Fail(fault.value); }
      step := step + 1;
      var firstId := NextId(PhenomenonIds(phenomena));
      var staged := phenomena;
      for k := 0 to |d.phenomena|
        invariant staged == phenomena + PhenomenonRows(pid, firstId, d.phenomena[..k])
      {
        assert PhenomenonRows(pid, firstId, d.phenomena[..k + 1])
            == PhenomenonRows(pid, firstId, d.phenomena[..k]) + [PhenomenonRow(firstId + k, pid, d.phenomena[k])];
        staged := staged + [PhenomenonRow(firstId + k, pid, d.phenomena[k])];
      }
      assert d.phenomena[..|d.phenomena|] == d.phenomena;
      // the commit
      if FailsAt(fault, step) { return Fail(fault.value); }
      CommittedWellFormed(Contents(), d);
      airports, pireps, phenomena := stagedAirports, pireps + [row], staged;
      return Pass;
    }

    /** `list_pireps()`: reads the tables and changes nothing. */
    method List() returns (result: seq<string>)
      requires Valid()
      ensures result == ListPireps(Contents())
    {
      result := [];
      for i := 0 to |pireps|
        invariant result == ListPireps(Contents())[..i]
      {
        var p := pireps[i];
        var data := Rebuild(Contents(), p);
        result := result + [FormatPirep(data)];
      }
    }
  }
}
