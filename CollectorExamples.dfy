/** A worked input session for `get_pirep_data`, stepped through prompt by prompt. */
module CollectorExamples {
  import opened Wrappers
  import opened Text
  import opened Models
  import opened Collector

  lemma {:induction false} AcceptedAt(lines: seq<string>, pos: nat, p: Prompt, k: nat)
    requires pos <= k < |lines|
    requires Accepts(p, Normalize(p, lines[k]))
    requires forall j :: pos <= j < k ==> !Accepts(p, Normalize(p, lines[j]))
    ensures FirstAccepted(lines, pos, p) == Some(k)
    decreases k - pos
  {
    if pos < k {
      AcceptedAt(lines, pos + 1, p, k);
    }
  }

  lemma AskAt(lines: seq<string>, pos: nat, p: Prompt, k: nat)
    requires pos <= k < |lines|
    requires Accepts(p, Normalize(p, lines[k]))
    requires forall j :: pos <= j < k ==> !Accepts(p, Normalize(p, lines[j]))
    ensures Ask(lines, pos, p) == Some(Answer(Normalize(p, lines[k]), k + 1))
  {
    AcceptedAt(lines, pos, p, k);
  }

  lemma {:induction false} DoneAt(lines: seq<string>, pos: nat, k: nat)
    requires pos <= k < |lines|
    requires Token(lines[k]) == "DONE"
    requires forall j :: pos <= j < k ==> Token(lines[j]) != "DONE"
    ensures DoneIndex(lines, pos) == Some(k)
    decreases k - pos
  {
    if pos < k {
      DoneAt(lines, pos + 1, k);
    }
  }

  const Session: seq<string> := ["roa", "kjfk", " JFK ", "2460", "1430", "050", "b737", "done",
                                 "UUA", "KLAX", "LAX", "0915", "SFC", "A320", "ice", "", "DONE",
                                 "m05", "", "late"]

  lemma Ask0() ensures Ask(Session, 0, ReportTypePrompt) == Some(Answer("ROA", 1))
  {
    assert Normalize(ReportTypePrompt, Session[0]) == "ROA";
    AskAt(Session, 0, ReportTypePrompt, 0);
  }

  lemma Ask1() ensures Ask(Session, 1, IcaoPrompt) == Some(Answer("KJFK", 2))
  {
    assert Normalize(IcaoPrompt, Session[1]) == "KJFK";
    ValidateIcaoIff("KJFK");
    AskAt(Session, 1, IcaoPrompt, 1);
  }

  lemma Ask2() ensures Ask(Session, 2, AirportNamePrompt) == Some(Answer("JFK", 3))
  {
    assert Normalize(AirportNamePrompt, Session[2]) == "JFK";
    AskAt(Session, 2, AirportNamePrompt, 2);
  }

  lemma Ask3() ensures Ask(Session, 3, TimePrompt) == Some(Answer("1430", 5))
  {
    TimeExamples();
    assert Normalize(TimePrompt, Session[3]) == "2460";
    assert Normalize(TimePrompt, Session[4]) == "1430";
    AskAt(Session, 3, TimePrompt, 4);
  }

  lemma Ask4() ensures Ask(Session, 5, AltitudePrompt) == Some(Answer("050", 6))
  {
    AltitudeExamples();
    assert Normalize(AltitudePrompt, Session[5]) == "050";
    AskAt(Session, 5, AltitudePrompt, 5);
  }

  lemma Ask5() ensures Ask(Session, 6, AircraftTypePrompt) == Some(Answer("B737", 7))
  {
    assert Normalize(AircraftTypePrompt, Session[6]) == "B737";
    AskAt(Session, 6, AircraftTypePrompt, 6);
  }

  lemma FirstPassFields()
    ensures Required(Session, 0) == Some(Fields("ROA", "KJFK", "JFK", "1430", "050", "B737", 7))
  {
    Ask0(); Ask1(); Ask2(); Ask3(); Ask4(); Ask5();
  }

  lemma FirstPassDone() ensures DoneIndex(Session, 7) == Some(7)
  {
    assert Token(Session[7]) == "DONE";
    DoneAt(Session, 7, 7);
  }

  lemma FirstPassRestarts()
    ensures CollectFrom(Session, 0) == CollectFrom(Session, 8)
  {
    FirstPassFields();
    FirstPassDone();
    RestartWhenNoPhenomena(Session, 0, Fields("ROA", "KJFK", "JFK", "1430", "050", "B737", 7), 7);
  }

  lemma Ask6() ensures Ask(Session, 8, ReportTypePrompt) == Some(Answer("UUA", 9))
  {
    assert Normalize(ReportTypePrompt, Session[8]) == "UUA";
    AskAt(Session, 8, ReportTypePrompt, 8);
  }

  lemma Ask7() ensures Ask(Session, 9, IcaoPrompt) == Some(Answer("KLAX", 10))
  {
    assert Normalize(IcaoPrompt, Session[9]) == "KLAX";
    ValidateIcaoIff("KLAX");
    AskAt(Session, 9, IcaoPrompt, 9);
  }

  lemma Ask8() ensures Ask(Session, 10, AirportNamePrompt) == Some(Answer("LAX", 11))
  {
    assert Normalize(AirportNamePrompt, Session[10]) == "LAX";
    AskAt(Session, 10, AirportNamePrompt, 10);
  }

  lemma Ask9() ensures Ask(Session, 11, TimePrompt) == Some(Answer("0915", 12))
  {
    assert Normalize(TimePrompt, Session[11]) == "0915";
    ValidateTimeIff("0915");
    AskAt(Session, 11, TimePrompt, 11);
  }

  lemma Ask10() ensures Ask(Session, 12, AltitudePrompt) == Some(Answer("SFC", 13))
  {
    assert Normalize(AltitudePrompt, Session[12]) == "SFC";
    AskAt(Session, 12, AltitudePrompt, 12);
  }

  lemma Ask11() ensures Ask(Session, 13, AircraftTypePrompt) == Some(Answer("A320", 14))
  {
    assert Normalize(AircraftTypePrompt, Session[13]) == "A320";
    AskAt(Session, 13, AircraftTypePrompt, 13);
  }

  lemma SecondPassFields()
    ensures Required(Session, 8) == Some(Fields("UUA", "KLAX", "LAX", "0915", "SFC", "A320", 14))
  {
    Ask6(); Ask7(); Ask8(); Ask9(); Ask10(); Ask11();
  }

  lemma SecondPassPhenomena()
    ensures DoneIndex(Session, 14) == Some(16)
    ensures Tokens(Session[14..16]) == ["ICE"]
  {
    assert Token(Session[14]) == "ICE";
    assert Token(Session[15]) == "";
    assert Token(Session[16]) == "DONE";
    DoneAt(Session, 14, 16);
    var ls := Session[14..16];
    assert ls[..1] == [Session[14]];
    assert Tokens(ls[..1]) == ["ICE"];
  }

  lemma SecondPassOptionals()
    ensures OptionalField(Token(Session[17])) == Some("M05")
    ensures OptionalField(Token(Session[18])) == None
    ensures OptionalField(Strip(Session[19])) == Some("late")
  {
    assert Token(Session[17]) == "M05";
    assert Token(Session[18]) == "";
    assert Strip(Session[19]) == "late";
  }

  /** A session in which a time is re-asked, the first pass sees `DONE` before any
      phenomenon and starts over, and the second pass completes. */
  lemma CollectExample()
    ensures CollectFrom(Session, 0) ==
      Some(Complete(PirepData("UUA", "KLAX", "LAX", "0915", "SFC", "A320", ["ICE"],
                              Some("M05"), None, Some("late")), 14, 20))
  {
    FirstPassRestarts();
    var f := Fields("UUA", "KLAX", "LAX", "0915", "SFC", "A320", 14);
    SecondPassFields();
    SecondPassPhenomena();
    SecondPassOptionals();
    AttemptIsFinish(Session, 8, f, 16);
  }
}
