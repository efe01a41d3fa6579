/** The two branches of `main` in `pirep_cli/cli.py`, as glue between the collector,
    the store and the listing. Console input is the sequence of lines typed, the
    printed lines are returned, and `aborted` says that an exception escaped `main`
    (a traceback, whose text is not modelled). */
module Cli {
  import opened Wrappers
  import opened Models
  import opened Collector
  import opened Store
  import opened Listing

  const Banner: string := "PIREP Creator - Enter aviation weather report details"
  const SavedMessage: string := "PIREP saved to database.db"

  /** What `--save` prints once a report has been collected, after the banner. */
  function Generated(d: PirepData): (r: seq<string>)
  {
    ["", "Generated PIREP:", FormatPirep(d)]
  }

  /** The record `get_pirep_data` returns on this input, if the input suffices. */
  function Collected(input: seq<string>): (r: Option<PirepData>)
  {
    match CollectFrom(input, 0)
    case Some(Complete(d, _, _)) => Some(d)
    case _ => None
  }

  /** The `try: save_pirep(...)` block of `--save`: the line it prints, if any. */
  method SaveAndReport(store: PirepStore, d: PirepData, fault: Option<StorageFault>)
    returns (printed: seq<string>, aborted: bool)
    requires store.Valid()
    modifies store
    ensures store.Valid()
    ensures var failed := fault.Some? && fault.value.atStep < EngineSteps(old(store.Contents()), d);
      && (!failed ==>
            printed == [SavedMessage] && !aborted
            && store.Contents() == Committed(old(store.Contents()), d))
      && (failed && fault.value.caughtByMain ==>
            printed == ["Error saving PIREP: " + fault.value.message] && !aborted
            && store.Contents() == old(store.Contents()))
      && (failed && !fault.value.caughtByMain ==>
            printed == [] && aborted && store.Contents() == old(store.Contents()))
  {
    var r := store.Save(d, fault);
    match r {
      case Pass =>
        printed, aborted := [SavedMessage], false;
      case Fail(e) =>
        if e.caughtByMain {
          printed, aborted := ["Error saving PIREP: " + e.message], false;
        } else {
          printed, aborted := [], true;
        }
    }
  }

  /** `main` with `--save`: the banner, the collected report, and the outcome of
      saving it. Running out of input is the end-of-file error that escapes `main`. */
  method RunSave(store: PirepStore, input: seq<string>, fault: Option<StorageFault>)
    returns (out: seq<string>, aborted: bool)
    requires store.Valid()
    modifies store
    ensures store.Valid()
    ensures |out| > 0 && out[0] == Banner
    ensures Collected(input).None? ==>
      out == [Banner] && aborted && store.Contents() == old(store.Contents())
    ensures Collected(input).Some? ==>
      var d := Collected(input).value;
      var failed := fault.Some? && fault.value.atStep < EngineSteps(old(store.Contents()), d);
      && |out| >= 4 && out[..4] == [Banner] + Generated(d)
      && (!failed ==>
            out == [Banner] + Generated(d) + [SavedMessage] && !aborted
            && store.Contents() == Committed(old(store.Contents()), d))
      && (failed && fault.value.caughtByMain ==>
            out == [Banner] + Generated(d) + ["Error saving PIREP: " + fault.value.message]
            && !aborted && store.Contents() == old(store.Contents()))
      && (failed && !fault.value.caughtByMain ==>
            out == [Banner] + Generated(d) && aborted
            && store.Contents() == old(store.Contents()))
  {
    var data, _ := Collect(input);
    if data.None? {
      return [Banner], true;
    }
    var d := data.value;
    assert Collected(input) == Some(d);
    var printed;
    printed, aborted := SaveAndReport(store, d, fault);
    out := [Banner] + Generated(d) + printed;
  }

  /** `main` with `--list`. `fault` is an engine error raised by the query, if any. */
  method RunList(store: PirepStore, fault: Option<StorageFault>) returns (out: seq<string>, aborted: bool)
    requires store.Valid()
    ensures fault.None? ==> out == ListOutput(ListPireps(store.Contents())) && !aborted
    ensures fault.Some? && fault.value.caughtByMain ==>
      out == ["Error listing PIREPs: " + fault.value.message] && !aborted
    ensures fault.Some? && !fault.value.caughtByMain ==> out == [] && aborted
  {
    if fault.Some? {
      if fault.value.caughtByMain {
        return ["Error listing PIREPs: " + fault.value.message], false;
      }
      return [], true;
    }
    var reports := store.List();
    out := Render(reports);
    aborted := false;
  }

  /** After a successful save, `--list` shows a table whose last report is labelled
      with the number of stored reports and holds the rows of the report just
      saved, followed by the bottom rule. */
  lemma SavedReportListedLast(t: Tables, d: PirepData)
    requires WellFormed(t)
    requires '\n' !in FormatPirep(d)
    ensures WellFormed(Committed(t, d))
    ensures var reports := ListPireps(Committed(t, d));
      var out := ListOutput(reports);
      var n := |reports|;
      var s := Start(reports, n - 1);
      var rows := LineRows(FormatPirep(d));
      && n == |t.pireps| + 1
      && reports == ListPireps(t) + [FormatPirep(d)]
      && s + 1 + |rows| == |out| - 1
      && out[s] == LabelRow(n)
      && out[s + 1..s + 1 + |rows|] == rows
      && out[|out| - 1] == Bottom()
  {
    RoundTrip(t, d);
    var reports := ListPireps(Committed(t, d));
    var n := |reports|;
    ReportRowsSingleLine(FormatPirep(d));
    ReportPlacement(reports, n - 1);
    LastBeforeBottom(reports);
  }
}
