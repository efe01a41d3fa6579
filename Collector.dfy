/** The interactive collector `get_pirep_data` of `pirep_cli/models.py`.
    Console input is a finite sequence of lines; running out of lines (where the
    program would wait, or stop on end of input) makes the collection fail. */
module Collector {
  import opened Wrappers
  import opened Text
  import opened Models

  /** The six prompts that are repeated until their answer is accepted. */
  datatype Prompt = ReportTypePrompt | IcaoPrompt | AirportNamePrompt
                  | TimePrompt | AltitudePrompt | AircraftTypePrompt

  /** How an answer is normalised before it is checked: stripped, and upper-cased
      except for the airport name and the time. */
  function Normalize(p: Prompt, raw: string): (r: string)
  {
    match p
    case AirportNamePrompt => Strip(raw)
    case TimePrompt => Strip(raw)
    case _ => Upper(Strip(raw))
  }

  /** Whether a normalised answer ends the prompt's loop. */
  predicate Accepts(p: Prompt, v: string)
  {
    match p
    case ReportTypePrompt => v == "UUA" || v == "ROA"
    case IcaoPrompt => ValidateIcao(v)
    case AirportNamePrompt => v != ""
    case TimePrompt => ValidateTime(v)
    case AltitudePrompt => ValidateAltitude(v)
    case AircraftTypePrompt => v != ""
  }

  /** The normalised form of a phenomenon line, of the temperature and of the wind. */
  function Token(raw: string): (r: string)
  {
    Upper(Strip(raw))
  }

  /** An optional answer: `None` when it is empty after normalisation. */
  function OptionalField(v: string): (r: Option<string>)
    ensures r.None? <==> v == ""
    ensures r.Some? ==> r.value == v
  {
    if v == "" then None else Some(v)
  }

  // ---------------------------------------------------------------------
  // The protocol as a function of the input lines
  // ---------------------------------------------------------------------

  /** The first line at or after `pos` whose answer prompt `p` accepts. */
  function FirstAccepted(lines: seq<string>, pos: nat, p: Prompt): (r: Option<nat>)
    requires pos <= |lines|
    ensures r.Some? ==> pos <= r.value < |lines| && Accepts(p, Normalize(p, lines[r.value]))
    decreases |lines| - pos
  {
    if pos == |lines| then None
    else if Accepts(p, Normalize(p, lines[pos])) then Some(pos)
    else FirstAccepted(lines, pos + 1, p)
  }

  /** Every line skipped before the accepted one, or every line when none is
      accepted, is rejected. */
  lemma {:induction false} FirstAcceptedIsFirst(lines: seq<string>, pos: nat, p: Prompt)
    requires pos <= |lines|
    ensures var r := FirstAccepted(lines, pos, p);
      forall k :: pos <= k < (if r.Some? then r.value else |lines|) ==> !Accepts(p, Normalize(p, lines[k]))
    decreases |lines| - pos
  {
    if pos < |lines| && !Accepts(p, Normalize(p, lines[pos])) {
      FirstAcceptedIsFirst(lines, pos + 1, p);
    }
  }

  /** An accepted answer and the position of the line after it. */
  datatype Answer = Answer(value: string, next: nat)

  /** One prompt: re-asked until an answer is accepted. */
  function Ask(lines: seq<string>, pos: nat, p: Prompt): (r: Option<Answer>)
    requires pos <= |lines|
    ensures r.Some? ==> pos < r.value.next <= |lines| && Accepts(p, r.value.value)
    ensures r.Some? ==> r.value.value == Normalize(p, lines[r.value.next - 1])
  {
    match FirstAccepted(lines, pos, p)
    case None => None
    case Some(k) => Some(Answer(Normalize(p, lines[k]), k + 1))
  }

  /** The six required answers, and the position of the line after the last. */
  datatype Fields = Fields(reportType: string, icaoCode: string, airportName: string,
                           time: string, altitude: string, aircraftType: string, next: nat)

  function Required(lines: seq<string>, pos: nat): (r: Option<Fields>)
    requires pos <= |lines|
    ensures r.Some? ==> pos < r.value.next <= |lines|
  {
    var rt :- Ask(lines, pos, ReportTypePrompt);
    var icao :- Ask(lines, rt.next, IcaoPrompt);
    var name :- Ask(lines, icao.next, AirportNamePrompt);
    var tm :- Ask(lines, name.next, TimePrompt);
    var alt :- Ask(lines, tm.next, AltitudePrompt);
    var tp :- Ask(lines, alt.next, AircraftTypePrompt);
    Some(Fields(rt.value, icao.value, name.value, tm.value, alt.value, tp.value, tp.next))
  }

  /** The first line at or after `pos` that reads `DONE` once normalised. */
  function DoneIndex(lines: seq<string>, pos: nat): (r: Option<nat>)
    requires pos <= |lines|
    ensures r.Some? ==> pos <= r.value < |lines| && Token(lines[r.value]) == "DONE"
    decreases |lines| - pos
  {
    if pos == |lines| then None
    else if Token(lines[pos]) == "DONE" then Some(pos)
    else DoneIndex(lines, pos + 1)
  }

  /** No line before the `DONE` line, or no line at all when there is none, reads `DONE`. */
  lemma {:induction false} DoneIndexIsFirst(lines: seq<string>, pos: nat)
    requires pos <= |lines|
    ensures var r := DoneIndex(lines, pos);
      forall k :: pos <= k < (if r.Some? then r.value else |lines|) ==> Token(lines[k]) != "DONE"
    decreases |lines| - pos
  {
    if pos < |lines| && Token(lines[pos]) != "DONE" {
      DoneIndexIsFirst(lines, pos + 1);
    }
  }

  /** The phenomena entered on `ls`: each non-empty token, in order; empty lines
      are skipped. */
  function Tokens(ls: seq<string>): (r: seq<string>)
  {
    if ls == [] then []
    else
      var t := Token(ls[|ls| - 1]);
      Tokens(ls[..|ls| - 1]) + (if t == "" then [] else [t])
  }

  /** How one pass through the prompts ends: with no phenomena, which restarts the
      whole protocol at line `next`, or with a record, `next` being the line after
      the remarks. `wxStart` is the first line read by the phenomena loop. */
  datatype Pass = Restart(next: nat) | Complete(data: PirepData, wxStart: nat, next: nat)

  /** The rest of a pass once the phenomena loop has read `DONE` on line `done`:
      with no phenomena, a restart; otherwise the three optional answers. */
  function Finish(lines: seq<string>, f: Fields, done: nat): (r: Option<Pass>)
    requires f.next <= done < |lines|
    ensures r.Some? ==> done < r.value.next <= |lines|
  {
    var phenomena := Tokens(lines[f.next..done]);
    if phenomena == [] then Some(Restart(done + 1))
    else if |lines| < done + 4 then None
    else
      Some(Complete(
        PirepData(f.reportType, f.icaoCode, f.airportName, f.time, f.altitude, f.aircraftType,
                  phenomena,
                  OptionalField(Token(lines[done + 1])),
                  OptionalField(Token(lines[done + 2])),
                  OptionalField(Strip(lines[done + 3]))),
        f.next, done + 4))
  }

  /** One pass through the prompts, starting at the report-type prompt. */
  function Attempt(lines: seq<string>, pos: nat): (r: Option<Pass>)
    requires pos <= |lines|
    ensures r.Some? ==> pos < r.value.next <= |lines|
  {
    var f :- Required(lines, pos);
    var done :- DoneIndex(lines, f.next);
    Finish(lines, f, done)
  }

  /** The outcome of `get_pirep_data` on the lines from `pos` on: passes that end
      with no phenomena are repeated from the report-type prompt. */
  function CollectFrom(lines: seq<string>, pos: nat): (r: Option<Pass>)
    requires pos <= |lines|
    decreases |lines| - pos
  {
    match Attempt(lines, pos)
    case None => None
    case Some(Restart(n)) => CollectFrom(lines, n)
    case Some(c) => Some(c)
  }

  // ---------------------------------------------------------------------
  // Properties of the protocol
  // ---------------------------------------------------------------------

  /** Every phenomenon kept is a non-empty, stripped, upper-case token other than
      `DONE`, provided no line of `ls` reads `DONE`. */
  lemma {:induction false} TokensValid(ls: seq<string>)
    requires forall k :: 0 <= k < |ls| ==> Token(ls[k]) != "DONE"
    ensures forall i :: 0 <= i < |Tokens(ls)| ==> ValidPhenomenon(Tokens(ls)[i])
  {
    if ls != [] {
      var init := ls[..|ls| - 1];
      TokensValid(init);
      var t := Token(ls[|ls| - 1]);
      StripShape(ls[|ls| - 1]);
      UpperIsUpper(Strip(ls[|ls| - 1]));
      forall i | 0 <= i < |Tokens(ls)| ensures ValidPhenomenon(Tokens(ls)[i]) {
        if i < |Tokens(init)| {
          assert Tokens(ls)[i] == Tokens(init)[i];
        } else {
          assert Tokens(ls)[i] == t;
        }
      }
    }
  }

  /** The six required answers as the collector leaves them. */
  predicate ValidFields(f: Fields)
  {
    (f.reportType == "UUA" || f.reportType == "ROA")
    && ValidateIcao(f.icaoCode)
    && f.airportName != "" && Trimmed(f.airportName)
    && ValidateTime(f.time)
    && ValidateAltitude(f.altitude)
    && f.aircraftType != "" && Trimmed(f.aircraftType) && UpperCase(f.aircraftType)
  }

  /** What a collected record satisfies, and where in the input it comes from:
      the phenomena are the non-empty tokens on the lines from `wxStart` up to the
      `DONE` line, and the three lines after it give temperature, wind and remarks. */
  predicate CollectedFrom(lines: seq<string>, pos: nat, c: Pass)
  {
    c.Complete?
    && ValidReport(c.data)
    && pos < c.wxStart && c.wxStart + 4 <= c.next <= |lines|
    && Token(lines[c.next - 4]) == "DONE"
    && (forall k :: c.wxStart <= k < c.next - 4 ==> Token(lines[k]) != "DONE")
    && c.data.phenomena == Tokens(lines[c.wxStart..c.next - 4])
    && c.data.temperature == OptionalField(Token(lines[c.next - 3]))
    && c.data.wind == OptionalField(Token(lines[c.next - 2]))
    && c.data.remarks == OptionalField(Strip(lines[c.next - 1]))
  }

  /** The six required fields of a completed pass are the answers the six prompts
      accepted when the pass began on line `q`, and the phenomena loop began on the
      line after the last of them. */
  predicate RequiredAt(lines: seq<string>, q: nat, c: Pass)
  {
    c.Complete? && q <= |lines|
    && Required(lines, q) == Some(Fields(c.data.reportType, c.data.icaoCode, c.data.airportName,
                                         c.data.time, c.data.altitude, c.data.aircraftType, c.wxStart))
  }

  /** A normalised answer of an accepting prompt. */
  lemma AnswerNormalized(lines: seq<string>, pos: nat, p: Prompt)
    requires pos <= |lines|
    requires Ask(lines, pos, p).Some?
    ensures var a := Ask(lines, pos, p).value;
      Accepts(p, a.value) && Trimmed(a.value)
      && (p != AirportNamePrompt && p != TimePrompt ==> UpperCase(a.value))
  {
    var a := Ask(lines, pos, p).value;
    var raw := lines[a.next - 1];
    StripShape(raw);
    UpperIsUpper(Strip(raw));
  }

  /** The six required answers are accepted and normalised. */
  lemma RequiredValid(lines: seq<string>, pos: nat)
    requires pos <= |lines|
    requires Required(lines, pos).Some?
    ensures ValidFields(Required(lines, pos).value)
  {
    var rt := Ask(lines, pos, ReportTypePrompt).value;
    var icao := Ask(lines, rt.next, IcaoPrompt).value;
    var name := Ask(lines, icao.next, AirportNamePrompt).value;
    var tm := Ask(lines, name.next, TimePrompt).value;
    var alt := Ask(lines, tm.next, AltitudePrompt).value;
    AnswerNormalized(lines, icao.next, AirportNamePrompt);
    AnswerNormalized(lines, alt.next, AircraftTypePrompt);
  }

  /** An optional answer is absent or a non-empty stripped string, upper-cased
      when `upper` is set. */
  lemma OptionalNormalized(raw: string, upper: bool)
    ensures NormalizedOptional(OptionalField(if upper then Token(raw) else Strip(raw)), upper)
  {
    StripShape(raw);
    UpperIsUpper(Strip(raw));
  }

  lemma FinishComplete(lines: seq<string>, pos: nat, f: Fields, done: nat)
    requires pos < f.next <= done < |lines|
    requires ValidFields(f)
    requires Token(lines[done]) == "DONE"
    requires forall k :: f.next <= k < done ==> Token(lines[k]) != "DONE"
    requires Finish(lines, f, done).Some? && Finish(lines, f, done).value.Complete?
    ensures CollectedFrom(lines, pos, Finish(lines, f, done).value)
    ensures var c := Finish(lines, f, done).value;
      Fields(c.data.reportType, c.data.icaoCode, c.data.airportName, c.data.time,
             c.data.altitude, c.data.aircraftType, c.wxStart) == f
  {
    var ls := lines[f.next..done];
    forall k | 0 <= k < |ls| ensures Token(ls[k]) != "DONE" {
      assert ls[k] == lines[f.next + k];
    }
    TokensValid(ls);
    OptionalNormalized(lines[done + 1], true);
    OptionalNormalized(lines[done + 2], true);
    OptionalNormalized(lines[done + 3], false);
  }

  /** A completed pass yields a record that satisfies every validator, with the
      six required fields the answers its prompts accepted, and the phenomena and
      optional fields read from the lines as the protocol says. */
  lemma AttemptComplete(lines: seq<string>, pos: nat)
    requires pos <= |lines|
    requires Attempt(lines, pos).Some? && Attempt(lines, pos).value.Complete?
    ensures CollectedFrom(lines, pos, Attempt(lines, pos).value)
    ensures RequiredAt(lines, pos, Attempt(lines, pos).value)
  {
    var f := Required(lines, pos).value;
    var done := DoneIndex(lines, f.next).value;
    assert Attempt(lines, pos) == Finish(lines, f, done);
    DoneIndexIsFirst(lines, f.next);
    RequiredValid(lines, pos);
    FinishComplete(lines, pos, f, done);
  }

  /** Every record `get_pirep_data` returns satisfies all validators, whatever
      number of restarts it took. */
  lemma {:induction false} CollectValid(lines: seq<string>, pos: nat)
    requires pos <= |lines|
    requires CollectFrom(lines, pos).Some?
    ensures CollectedFrom(lines, pos, CollectFrom(lines, pos).value)
    decreases |lines| - pos
  {
    match Attempt(lines, pos).value
    case Restart(n) =>
      CollectValid(lines, n);
    case Complete(_, _, _) =>
      AttemptComplete(lines, pos);
  }

  /** The required fields of the record `get_pirep_data` returns are the answers
      accepted by the prompts of its last pass, which began at or after `pos`. */
  lemma {:induction false} CollectFromLastPass(lines: seq<string>, pos: nat)
    requires pos <= |lines|
    requires CollectFrom(lines, pos).Some?
    ensures exists q :: pos <= q && RequiredAt(lines, q, CollectFrom(lines, pos).value)
    decreases |lines| - pos
  {
    match Attempt(lines, pos).value
    case Restart(n) =>
      CollectFromLastPass(lines, n);
    case Complete(_, _, _) =>
      AttemptComplete(lines, pos);
      assert RequiredAt(lines, pos, CollectFrom(lines, pos).value);
  }

  /** A pass whose phenomena loop sees `DONE` before any phenomenon starts the
      whole protocol again, from the report-type prompt, on the next line. */
  lemma RestartWhenNoPhenomena(lines: seq<string>, pos: nat, f: Fields, done: nat)
    requires pos <= |lines|
    requires Required(lines, pos) == Some(f)
    requires DoneIndex(lines, f.next) == Some(done)
    requires forall k :: f.next <= k < done ==> Token(lines[k]) == ""
    ensures CollectFrom(lines, pos) == CollectFrom(lines, done + 1)
  {
    BlankSlice(lines, f.next, done);
    AttemptRestarts(lines, pos, f, done);
    CollectRestart(lines, pos, done + 1);
  }

  lemma AttemptRestarts(lines: seq<string>, pos: nat, f: Fields, done: nat)
    requires pos <= |lines|
    requires Required(lines, pos) == Some(f)
    requires DoneIndex(lines, f.next) == Some(done)
    requires Tokens(lines[f.next..done]) == []
    ensures Attempt(lines, pos) == Some(Restart(done + 1))
  {
    FinishRestarts(lines, f, done);
    AttemptIsFinish(lines, pos, f, done);
  }

  lemma CollectRestart(lines: seq<string>, pos: nat, n: nat)
    requires pos <= |lines|
    requires Attempt(lines, pos) == Some(Restart(n))
    ensures n <= |lines| && CollectFrom(lines, pos) == CollectFrom(lines, n)
  {
  }

  lemma BlankSlice(lines: seq<string>, a: nat, b: nat)
    requires a <= b <= |lines|
    requires forall k :: a <= k < b ==> Token(lines[k]) == ""
    ensures Tokens(lines[a..b]) == []
  {
    var ls := lines[a..b];
    forall k | 0 <= k < |ls| ensures Token(ls[k]) == "" {
      assert ls[k] == lines[a + k];
    }
    NoTokens(ls);
  }

  lemma FinishRestarts(lines: seq<string>, f: Fields, done: nat)
    requires f.next <= done < |lines|
    requires Tokens(lines[f.next..done]) == []
    ensures Finish(lines, f, done) == Some(Restart(done + 1))
  {
  }

  lemma AttemptIsFinish(lines: seq<string>, pos: nat, f: Fields, done: nat)
    requires pos <= |lines|
    requires Required(lines, pos) == Some(f)
    requires DoneIndex(lines, f.next) == Some(done)
    ensures Attempt(lines, pos) == Finish(lines, f, done)
  {
  }

  lemma {:induction false} NoTokens(ls: seq<string>)
    requires forall k :: 0 <= k < |ls| ==> Token(ls[k]) == ""
    ensures Tokens(ls) == []
  {
    if ls != [] {
      NoTokens(ls[..|ls| - 1]);
    }
  }

  // ---------------------------------------------------------------------
  // The collector as a program
  // ---------------------------------------------------------------------

  /** One `while True` prompt loop: reads lines from `pos` until one is accepted. */
  method ReadAnswer(lines: seq<string>, pos: nat, p: Prompt) returns (v: Option<string>, next: nat)
    requires pos <= |lines|
    ensures pos <= next <= |lines|
    ensures Ask(lines, pos, p) == if v.Some? then Some(Answer(v.value, next)) else None
  {
    var k := pos;
    while k < |lines|
      invariant pos <= k <= |lines|
      invariant FirstAccepted(lines, k, p) == FirstAccepted(lines, pos, p)
      decreases |lines| - k
    {
      var answer := Normalize(p, lines[k]);
      if Accepts(p, answer) {
        AskAccepted(lines, pos, p, k);
        v, next := Some(answer), k + 1;
        return;
      }
      k := k + 1;
    }
    AskNone(lines, pos, p);
    v, next := None, k;
  }

  lemma AskAccepted(lines: seq<string>, pos: nat, p: Prompt, k: nat)
    requires pos <= k < |lines|
    requires FirstAccepted(lines, k, p) == FirstAccepted(lines, pos, p)
    requires Accepts(p, Normalize(p, lines[k]))
    ensures Ask(lines, pos, p) == Some(Answer(Normalize(p, lines[k]), k + 1))
  {
  }

  lemma AskNone(lines: seq<string>, pos: nat, p: Prompt)
    requires pos <= |lines|
    requires FirstAccepted(lines, |lines|, p) == FirstAccepted(lines, pos, p)
    ensures Ask(lines, pos, p) == None
  {
  }

  /** The phenomena loop: reads tokens until `DONE`, keeping the non-empty ones. */
  method ReadPhenomena(lines: seq<string>, pos: nat) returns (phenomena: seq<string>, done: Option<nat>)
    requires pos <= |lines|
    ensures done == DoneIndex(lines, pos)
    ensures done.Some? ==> phenomena == Tokens(lines[pos..done.value])
  {
    phenomena := [];
    var k := pos;
    while k < |lines|
      invariant pos <= k <= |lines|
      invariant DoneIndex(lines, k) == DoneIndex(lines, pos)
      invariant phenomena == Tokens(lines[pos..k])
      decreases |lines| - k
    {
      var wx := Token(lines[k]);
      if wx == "DONE" {
        return phenomena, Some(k);
      }
      assert lines[pos..k + 1][..k - pos] == lines[pos..k];
      if wx != "" {
        phenomena := phenomena + [wx];
      }
      k := k + 1;
    }
    return phenomena, None;
  }

  /** The six required prompts of `get_pirep_data`, in order. */
  method ReadRequired(lines: seq<string>, pos: nat) returns (f: Option<Fields>)
    requires pos <= |lines|
    ensures f == Required(lines, pos)
  {
    var rt, p1 := ReadAnswer(lines, pos, ReportTypePrompt);
    if rt.None? { return None; }
    var icao, p2 := ReadAnswer(lines, p1, IcaoPrompt);
    if icao.None? { return None; }
    var name, p3 := ReadAnswer(lines, p2, AirportNamePrompt);
    if name.None? { return None; }
    var tm, p4 := ReadAnswer(lines, p3, TimePrompt);
    if tm.None? { return None; }
    var alt, p5 := ReadAnswer(lines, p4, AltitudePrompt);
    if alt.None? { return None; }
    var tp, p6 := ReadAnswer(lines, p5, AircraftTypePrompt);
    if tp.None? { return None; }
    return Some(Fields(rt.value, icao.value, name.value, tm.value, alt.value, tp.value, p6));
  }

  /** The end of a pass, after the phenomena loop read `DONE` on line `done`. */
  method FinishPass(lines: seq<string>, fields: Fields, phenomena: seq<string>, done: nat)
    returns (outcome: Option<Pass>)
    requires fields.next <= done < |lines|
    requires phenomena == Tokens(lines[fields.next..done])
    ensures outcome == Finish(lines, fields, done)
  {
    if phenomena == [] {
      return Some(Restart(done + 1));
    }
    if |lines| < done + 4 { return None; }
    var temperature := OptionalField(Token(lines[done + 1]));
    var wind := OptionalField(Token(lines[done + 2]));
    var remarks := OptionalField(Strip(lines[done + 3]));
    var data := PirepData(fields.reportType, fields.icaoCode, fields.airportName, fields.time,
                          fields.altitude, fields.aircraftType, phenomena, temperature, wind, remarks);
    return Some(Complete(data, fields.next, done + 4));
  }

  /** One pass: the required prompts, the phenomena loop and, when phenomena were
      entered, the three optional prompts. */
  method ReadPass(lines: seq<string>, pos: nat) returns (outcome: Option<Pass>)
    requires pos <= |lines|
    ensures outcome == Attempt(lines, pos)
  {
    var f := ReadRequired(lines, pos);
    if f.None? { return None; }
    var phenomena, done := ReadPhenomena(lines, f.value.next);
    if done.None? { return None; }
    outcome := FinishPass(lines, f.value, phenomena, done.value);
  }

  /** `get_pirep_data`: `r` is the record, `consumed` the number of lines read.
      `None` when the input ends before a record is complete. A pass without
      phenomena starts over from the report-type prompt. */
  method Collect(lines: seq<string>) returns (r: Option<PirepData>, consumed: nat)
    ensures consumed <= |lines|
    ensures r.Some? <==> CollectFrom(lines, 0).Some?
    ensures r.Some? ==> CollectFrom(lines, 0).value.Complete?
                        && CollectFrom(lines, 0).value.data == r.value
                        && CollectFrom(lines, 0).value.next == consumed
    ensures r.Some? ==> ValidReport(r.value)
  {
    var pos := 0;
    while true
      invariant pos <= |lines|
      invariant CollectFrom(lines, pos) == CollectFrom(lines, 0)
      decreases |lines| - pos
    {
      var outcome := ReadPass(lines, pos);
      match outcome {
        case None =>
          return None, |lines|;
        case Some(Restart(n)) =>
          pos := n;
        case Some(Complete(data, _, next)) =>
          CollectValid(lines, 0);
          return Some(data), next;
      }
    }
  }
}
