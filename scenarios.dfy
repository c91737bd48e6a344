/** Runs of the page state machine, written as client code against the
    contracts of `Session.ScanSession` alone. */
module Scenarios {
  import opened Wrappers
  import opened Payload
  import opened Score
  import opened Findings
  import opened Session
  import StableRankSort

  /** The screen for a result whose findings are already in rank order, under
      "all". */
  lemma ShowSorted(r: ScanResult)
    requires r.findings.Some? && StableRankSort.RankDescending(Rank, r.findings.value)
    ensures Display(Some(r), All) ==
      Results(ScoreOf(r), ScoreLabel(ScoreOf(r)), Progress(ScoreOf(r)), r.findings.value, StopsAt(r.findings.value, {}))
  {
    RanksBounded(r.findings.value);
    StableRankSort.SortedIsByRank(Rank, r.findings.value);
  }

  /** The screen for a result with a single finding, under "all". */
  lemma ShowOne(r: ScanResult, f: Finding)
    requires r.findings == Some([f])
    ensures Display(Some(r), All) ==
      Results(ScoreOf(r), ScoreLabel(ScoreOf(r)), Progress(ScoreOf(r)), [f], if f.severity.NonText? then Some(0) else None)
  {
    ShowSorted(r);
    assert [f][1..] == [];
  }

  /** A failing scan leaves the empty slot empty. */
  method FailedScanShowsNothing()
  {
    var session := new ScanSession("https://devguard.example/");
    var request := session.RunScan(None, "", false, Failure);
    assert request.url == "https://devguard.example/scan";
    assert session.scan == None;
    var screen := session.Render(All);
    assert screen == NoResults;
  }

  /** Blank text and no upload ask for the demo, whose result is then shown. */
  method DemoScan()
  {
    var session := new ScanSession("https://devguard.example/");
    var noAuth := Finding(None, Text("high"), Some("No auth on /users"), None);
    var result := ScanResult(Some(42), Some([noAuth]));
    assert !PyStr.HasContent(" \n") by {
      assert forall i :: 0 <= i < |" \n"| ==> " \n"[i] in PyStr.Whitespace;
    }
    var request := session.RunScan(None, " \n", true, Success(result));
    assert request.body == map["demo" := Flag(true)];
    ShowOne(result, noAuth);
    var screen := session.Render(All);
    assert screen == Results(42, "Fair", 42, [noAuth], None);
  }

  /** A fix that succeeds replaces the whole result; once the list is empty
      there is no fix button to click. */
  method FixReplacesResult()
  {
    var session := new ScanSession("https://devguard.example");
    var noAuth := Finding(Some("f1"), Text("high"), None, None);
    var result := ScanResult(Some(20), Some([noAuth]));
    ShowOne(result, noAuth);
    var _ := session.RunScan(Some("{}"), "", false, Success(result));

    var rescored := ScanResult(Some(78), Some([]));
    var call := session.ApplyFix(All, 0, Success(rescored));
    assert call == Some(ApplyCall(BackendBase("https://devguard.example") + "/apply", [Some("f1")]));
    assert session.scan == Some(rescored);

    ShowSorted(rescored);
    call := session.ApplyFix(All, 0, Success(ScanResult(Some(99), None)));
    assert call == None && session.scan == Some(rescored);
  }

  /** "Scan another app" forgets a result whose page completes. */
  method ResetForgets()
  {
    var session := new ScanSession("https://devguard.example");
    var result := ScanResult(Some(78), Some([]));
    ShowSorted(result);
    var _ := session.RunScan(Some("{}"), "", false, Success(result));
    session.ScanAnother(All);
    assert session.scan == None;
    var screen := session.Render(All);
    assert screen == NoResults;
  }

  /** The button as the page has it never takes effect: even when the backend
      would answer with a new result, the stored one remains. */
  method ApplyAsWrittenIsIgnored()
  {
    var session := new ScanSession("https://devguard.example");
    var weak := Finding(Some("f1"), Text("low"), None, None);
    var before := ScanResult(Some(30), Some([weak]));
    ShowOne(before, weak);
    var _ := session.RunScan(Some("{}"), "", false, Success(before));
    var fixedResult := ScanResult(Some(90), Some([]));
    var sent := session.ApplyFixAsWritten(All, 0, Success(fixedResult));
    assert sent == None && session.scan == Some(before);
    var call := session.ApplyFix(All, 0, Success(fixedResult));
    assert call.Some? && session.scan == Some(fixedResult);
  }

  /** Uploads outrank pasted text, even an empty upload; a score above 100 fills the bar. */
  method UploadWinsAndScoreIsClamped()
  {
    var session := new ScanSession("http://localhost:8000//");
    var request := session.RunScan(Some(""), "{\"openapi\": \"3.0.0\"}", false, Success(ScanResult(Some(150), None)));
    assert request.body == map["demo" := Flag(false), "file" := Str("")];
    var screen := session.Render("high");
    assert screen == Results(150, "Excellent", 100, [], None);
  }

  /** Pasted text is sent as typed; a negative score shows an empty bar. */
  method PastedTextAndNegativeScore()
  {
    var session := new ScanSession("http://localhost:8000");
    assert PyStr.HasContent("x") by {
      assert "x"[0] !in PyStr.Whitespace;
    }
    var request := session.RunScan(None, "x", false, Success(ScanResult(Some(-10), None)));
    assert request.body == map["demo" := Flag(false), "openapi" := Str("x")];
    var screen := session.Render(All);
    assert screen.progress == 0 && screen.rating == "Poor";
  }

  /** A finding whose severity is JSON `null` stops the page under "all", so
      "Scan another app" is not there to click. */
  method NullSeverityHidesReset()
  {
    var session := new ScanSession("http://localhost:8000");
    var odd := Finding(Some("f9"), NonText, None, None);
    var result := ScanResult(Some(50), Some([odd]));
    ShowOne(result, odd);
    var _ := session.RunScan(Some("{}"), "", false, Success(result));
    var screen := session.Render(All);
    assert screen == Results(50, "Fair", 50, [odd], Some(0));
    session.ScanAnother(All);
    assert session.scan == Some(result);
  }

  /** A filter that hides the finding with the `null` severity brings the
      button back. */
  method FilterBringsResetBack()
  {
    var session := new ScanSession("http://localhost:8000");
    var odd := Finding(Some("f9"), NonText, None, None);
    var result := ScanResult(Some(50), Some([odd]));
    assert Filter("high", [odd]) == [];
    var _ := session.RunScan(Some("{}"), "", false, Success(result));
    session.ScanAnother("high");
    assert session.scan == None;
  }

  /** The screen for two "low" findings without an id, under "all": the loop
      stops at the second. */
  lemma ShowTwoWithoutIds(r: ScanResult, a: Finding, b: Finding)
    requires r.findings == Some([a, b]) && a.id == None && b.id == None
    requires a.severity == Text("low") && b.severity == Text("low")
    ensures Display(Some(r), All).items == [a, b] && Display(Some(r), All).stopsAt == Some(1)
  {
    assert StableRankSort.RankDescending(Rank, [a, b]) by {
      assert Rank(a) == Rank(b);
    }
    ShowSorted(r);
    SecondWithoutIdStops(a, b);
  }

  /** Of two findings without an id, drawing stops at the second. */
  lemma SecondWithoutIdStops(a: Finding, b: Finding)
    requires a.id == None && b.id == None && a.severity.Text?
    ensures StopsAt([a, b], {}) == Some(1)
  {
    assert ButtonKey(a) == ButtonKey(b);
    assert StopsAt([b], {ButtonKey(a)}) == Some(0);
    assert [a, b][1..] == [b];
    assert StopsAt([a, b], {}) == Offset(StopsAt([b], {ButtonKey(a)}), 1);
  }

  /** Two findings without an id both get the key `apply_`: the second one's
      button stops the page, so it cannot be clicked. */
  method MissingIdsCollide()
  {
    var session := new ScanSession("http://localhost:8000");
    var a, b := Finding(None, Text("low"), Some("a"), None), Finding(None, Text("low"), Some("b"), None);
    var result := ScanResult(Some(70), Some([a, b]));
    ShowTwoWithoutIds(result, a, b);
    var _ := session.RunScan(Some("{}"), "", false, Success(result));
    var second := session.ApplyFix(All, 1, Success(ScanResult(Some(100), None)));
    assert second == None && session.scan == Some(result);
  }

  /** The first of the two is drawn in full, and its button posts a JSON `null` id. */
  method FirstOfCollidingIdsWorks()
  {
    var session := new ScanSession("http://localhost:8000");
    var a, b := Finding(None, Text("low"), Some("a"), None), Finding(None, Text("low"), Some("b"), None);
    var result := ScanResult(Some(70), Some([a, b]));
    ShowTwoWithoutIds(result, a, b);
    var screen := Display(Some(result), All);
    assert FixButtonShown(screen, 0) && screen.items[0].id == None;
    var _ := session.RunScan(Some("{}"), "", false, Success(result));
    var first := session.ApplyFix(All, 0, Failure);
    assert first == Some(ApplyCall(BackendBase("http://localhost:8000") + "/apply", [None]));
  }
}
