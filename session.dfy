/** The page's session state and the actions that change it: the configured
    backend URL, `st.session_state.scan`, running a scan, rendering the Results
    tab, applying a fix and "Scan another app" (app.py lines 13-15, 31-32, 61-85,
    98-157). Each backend call is a parameter `outcome`: what the call came back
    with, decided outside the page. */
module Session {
  import opened Wrappers
  import opened PyStr
  import opened Payload
  import opened Score
  import opened Findings
  import StableRankSort

  /** The decoded JSON object of a `/scan` or `/apply` response; a key the page
      reads with `.get` may be missing. */
  datatype ScanResult = ScanResult(score: Option<int>, findings: Option<seq<Finding>>)

  /** `int(scan.get("score", 0))`. */
  function ScoreOf(r: ScanResult): int
  {
    r.score.GetOr(0)
  }

  /** `scan.get("findings", [])`. */
  function FindingsOf(r: ScanResult): seq<Finding>
  {
    r.findings.GetOr([])
  }

  /** A request the page sends. */
  datatype Request =
    | ScanCall(url: string, body: Body)
    | ApplyCall(url: string, ids: seq<Option<string>>)

  /** What the Results tab shows. `items` is the list the findings loop walks
      through. `stopsAt` is `None` when the loop draws every finding and the
      page goes on to the "Export PDF Report" and "Scan another app" buttons;
      it is `Some(k)` when drawing `items[k]` raises: `items[..k]` are drawn,
      and nothing after them, the two buttons included. */
  datatype Screen =
    | NoResults
    | Results(score: int, rating: string, progress: int, items: seq<Finding>, stopsAt: Option<nat>)

  /** `st.session_state["BACKEND_URL"].rstrip("/")`: the base every endpoint is
      appended to. */
  function BackendBase(configured: string): (base: string)
    ensures |base| <= |configured| && base == configured[..|base|]
    ensures base == [] || base[|base| - 1] != '/'
    ensures forall i :: |base| <= i < |configured| ==> configured[i] == '/'
    ensures RStrip(base, {'/'}) == base
  {
    RStripIdempotent(configured, {'/'});
    RStrip(configured, {'/'})
  }

  /** Trailing slashes typed into the sidebar make no difference to any
      endpoint URL. */
  lemma BackendBaseIgnoresTrailingSlashes(configured: string, slashes: string)
    requires forall i :: 0 <= i < |slashes| ==> slashes[i] == '/'
    ensures BackendBase(configured + slashes) == BackendBase(configured)
  {
    var s, p := configured + slashes, BackendBase(configured);
    assert p == s[..|p|];
    forall i | |p| <= i < |s| ensures s[i] == '/' {
      if i >= |configured| {
        assert s[i] == slashes[i - |configured|];
      }
    }
    RStripUnique(s, {'/'}, p);
  }

  /** The URL of the report download ("Export PDF Report", lines 146-149): the
      configured URL with its trailing slashes replaced by one slash before
      `report.pdf`. */
  function ReportUrl(configured: string): (url: string)
    ensures |url| >= 11 && url[|url| - 11..] == "/report.pdf"
    ensures |url| - 11 <= |configured| && url[..|url| - 11] == configured[..|url| - 11]
    ensures forall i :: |url| - 11 <= i < |configured| ==> configured[i] == '/'
    ensures |url| > 11 ==> url[|url| - 12] != '/'
  {
    BackendBase(configured) + "/report.pdf"
  }

  /** Trailing slashes typed into the sidebar do not change the report URL. */
  lemma ReportUrlIgnoresTrailingSlashes(configured: string, slashes: string)
    requires forall i :: 0 <= i < |slashes| ==> slashes[i] == '/'
    ensures ReportUrl(configured + slashes) == ReportUrl(configured)
  {
    BackendBaseIgnoresTrailingSlashes(configured, slashes);
  }

  /** The key of a finding's "Fix via Wrapper" button: `f"apply_{f.get('id','')}"`;
      a finding without an id gets the empty id. */
  function ButtonKey(f: Finding): string
  {
    "apply_" + f.id.GetOr("")
  }

  /** Two buttons share a key exactly when their findings show the same id, so
      two findings without an id get the same key. */
  lemma ButtonKeyCollision(f: Finding, g: Finding)
    ensures ButtonKey(f) == ButtonKey(g) <==> f.id.GetOr("") == g.id.GetOr("")
  {
    if ButtonKey(f) == ButtonKey(g) {
      assert f.id.GetOr("") == ButtonKey(f)[6..];
    }
  }

  // ---------------------------------------------------------------- the findings loop

  /** Drawing `items[i]` raises, given the widget keys `used` before the loop:
      its expander title calls `.upper()` on a severity that is not a string
      (line 123), or its button's key is already taken (line 132). */
  predicate DrawFails(items: seq<Finding>, used: set<string>, i: nat)
    requires i < |items|
  {
    items[i].severity.NonText? || ButtonKey(items[i]) in used
    || exists j :: 0 <= j < i && ButtonKey(items[j]) == ButtonKey(items[i])
  }

  /** Shifts a position in a list's tail to the same position in the list. */
  function Offset(k: Option<nat>, n: nat): Option<nat>
  {
    match k
    case None => None
    case Some(j) => Some(j + n)
  }

  /** Where the findings loop stops: the first finding whose drawing raises. */
  function StopsAt(items: seq<Finding>, used: set<string>): (k: Option<nat>)
    ensures k.Some? ==> k.value < |items|
  {
    if |items| == 0 then None
    else if items[0].severity.NonText? || ButtonKey(items[0]) in used then Some(0)
    else Offset(StopsAt(items[1..], used + {ButtonKey(items[0])}), 1)
  }

  /** Drawing a finding of the tail fails, with the head's key used, exactly when
      drawing it fails in the whole list. */
  lemma DrawFailsInTail(items: seq<Finding>, used: set<string>, i: nat)
    requires i + 1 < |items|
    ensures DrawFails(items[1..], used + {ButtonKey(items[0])}, i) <==> DrawFails(items, used, i + 1)
  {
    var tail, key := items[1..], ButtonKey(items[i + 1]);
    assert tail[i] == items[i + 1];
    if j :| 0 <= j < i + 1 && ButtonKey(items[j]) == key {
      if j > 0 {
        assert ButtonKey(tail[j - 1]) == key;
      }
    }
    if j :| 0 <= j < i && ButtonKey(tail[j]) == key {
      assert ButtonKey(items[j + 1]) == key;
    }
  }

  /** `StopsAt` is the first failing position: every finding before it is
      drawn, the one at it fails, and there is none exactly when nothing fails. */
  lemma {:induction false} StopsAtFirstFailure(items: seq<Finding>, used: set<string>)
    ensures StopsAt(items, used).None? <==> forall i :: 0 <= i < |items| ==> !DrawFails(items, used, i)
    ensures StopsAt(items, used).Some? ==>
      DrawFails(items, used, StopsAt(items, used).value) &&
      forall i :: 0 <= i < StopsAt(items, used).value ==> !DrawFails(items, used, i)
  {
    if |items| != 0 && !DrawFails(items, used, 0) {
      var tail, used' := items[1..], used + {ButtonKey(items[0])};
      StopsAtFirstFailure(tail, used');
      forall i | 0 <= i < |tail| ensures DrawFails(tail, used', i) <==> DrawFails(items, used, i + 1) {
        DrawFailsInTail(items, used, i);
      }
      forall i | 0 < i < |items| ensures DrawFails(items, used, i) <==> DrawFails(tail, used', i - 1) {
        DrawFailsInTail(items, used, i - 1);
      }
    }
  }

  /** The findings loop of lines 122-141, run over `items`, reports where it
      stops. */
  method DrawFindings(items: seq<Finding>) returns (stopsAt: Option<nat>)
    ensures stopsAt == StopsAt(items, {})
  {
    var i := 0;
    var used: set<string> := {};
    stopsAt := None;
    while i < |items| && stopsAt.None?
      invariant 0 <= i <= |items|
      invariant stopsAt.None? ==> Offset(StopsAt(items[i..], used), i) == StopsAt(items, {})
      invariant stopsAt.Some? ==> stopsAt == StopsAt(items, {})
      decreases |items| - i, if stopsAt.None? then 1 else 0
    {
      var key := ButtonKey(items[i]);
      assert items[i..][0] == items[i];
      if items[i].severity.NonText? || key in used {
        stopsAt := Some(i);
      } else {
        assert items[i..][1..] == items[i + 1..];
        used := used + {key};
        i := i + 1;
      }
    }
  }

  // ---------------------------------------------------------------- the Results tab

  /** The Results tab for a session holding `scan`, with filter `chosen`. */
  function Display(scan: Option<ScanResult>, chosen: string): (screen: Screen)
    ensures screen.NoResults? <==> scan.None?
    ensures screen.Results? ==> 0 <= screen.progress <= 100
    ensures screen.Results? ==> screen.score == ScoreOf(scan.value)
    ensures screen.Results? ==> screen.rating == ScoreLabel(screen.score) && screen.progress == Progress(screen.score)
    ensures screen.Results? && screen.stopsAt.Some? ==> screen.stopsAt.value < |screen.items|
  {
    match scan
    case None => NoResults
    case Some(r) =>
      var score := ScoreOf(r);
      var items := View(chosen, FindingsOf(r));
      Results(score, ScoreLabel(score), Progress(score), items, StopsAt(items, {}))
  }

  /** The buttons below the findings list are on the page. */
  predicate FooterShown(screen: Screen)
  {
    screen.Results? && screen.stopsAt.None?
  }

  /** The "Fix via Wrapper" button of the `i`-th finding shown is on the page. */
  predicate FixButtonShown(screen: Screen, i: nat)
  {
    screen.Results? && i < |screen.items| && (screen.stopsAt.None? || i < screen.stopsAt.value)
  }

  /** The findings shown are those the filter keeps, all of them and nothing
      else, highest severity first. */
  lemma DisplayedFindings(scan: Option<ScanResult>, chosen: string)
    requires scan.Some?
    ensures Display(scan, chosen).rating == ScoreLabel(ScoreOf(scan.value))
    ensures multiset(Display(scan, chosen).items) == multiset(Filter(chosen, FindingsOf(scan.value)))
    ensures StableRankSort.RankDescending(Rank, Display(scan, chosen).items)
  {
  }

  /** The page gets past the findings list exactly when no shown finding has a
      non-string severity and no two shown findings have the same button key. */
  lemma PageCompletes(scan: Option<ScanResult>, chosen: string)
    requires scan.Some?
    ensures var items := Display(scan, chosen).items;
      FooterShown(Display(scan, chosen)) <==>
        (forall i :: 0 <= i < |items| ==> !items[i].severity.NonText?) &&
        (forall i, j :: 0 <= i < j < |items| ==> ButtonKey(items[i]) != ButtonKey(items[j]))
  {
    var items := Display(scan, chosen).items;
    assert Display(scan, chosen).stopsAt == StopsAt(items, {});
    StopsAtFirstFailure(items, {});
    if forall i :: 0 <= i < |items| ==> !DrawFails(items, {}, i) {
      forall i, j | 0 <= i < j < |items| ensures ButtonKey(items[i]) != ButtonKey(items[j]) {
        assert !DrawFails(items, {}, j);
      }
      forall i | 0 <= i < |items| ensures !items[i].severity.NonText? {
        assert !DrawFails(items, {}, i);
      }
    } else {
      var i :| 0 <= i < |items| && DrawFails(items, {}, i);
      if !items[i].severity.NonText? {
        var j :| 0 <= j < i && ButtonKey(items[j]) == ButtonKey(items[i]);
      }
    }
  }

  /** Under a severity filter every shown finding has a string severity, so only
      two equal button keys can stop the page. */
  lemma SeverityFilterStopsOnlyOnDuplicateKeys(scan: Option<ScanResult>, chosen: string)
    requires scan.Some? && chosen != All
    ensures var items := Display(scan, chosen).items;
      FooterShown(Display(scan, chosen)) <==>
        forall i, j :: 0 <= i < j < |items| ==> ButtonKey(items[i]) != ButtonKey(items[j])
  {
    PageCompletes(scan, chosen);
  }

  /** What is stored after the Results tab rendered: with the "all" filter the
      list it sorted is the stored findings list itself. */
  function AfterRender(scan: Option<ScanResult>, chosen: string): (after: Option<ScanResult>)
    ensures after.Some? <==> scan.Some?
    ensures chosen != All ==> after == scan
    ensures scan.Some? ==>
      after.value.score == scan.value.score && after.value.findings.Some? == scan.value.findings.Some? &&
      multiset(FindingsOf(after.value)) == multiset(FindingsOf(scan.value))
  {
    if scan.Some? && chosen == All && scan.value.findings.Some?
    then Some(scan.value.(findings := Some(SortByRank(scan.value.findings.value))))
    else scan
  }

  /** Rendering reorders the stored findings at most, and never in a way that
      changes what any later render shows, under any filter. */
  lemma RenderDoesNotChangeDisplay(scan: Option<ScanResult>, chosen: string, next: string)
    ensures Display(AfterRender(scan, chosen), next) == Display(scan, next)
  {
    if scan.Some? && chosen == All && scan.value.findings.Some? {
      ViewUnaffectedByStoredSort(next, scan.value.findings.value);
    }
  }

  /** Rendering twice with the same filter stores what rendering once does. */
  lemma AfterRenderIdempotent(scan: Option<ScanResult>, chosen: string)
    ensures AfterRender(AfterRender(scan, chosen), chosen) == AfterRender(scan, chosen)
  {
    if scan.Some? && chosen == All && scan.value.findings.Some? {
      StableRankSort.ByRankIdempotent(Rank, scan.value.findings.value);
    }
  }

  /** The session of one browser tab. Each click method is the script run that
      the click starts: it renders the Results tab with the filter `chosen`, and
      the click takes effect only if the page reaches its button. */
  class ScanSession {
    /** `st.session_state["BACKEND_URL"]`, as typed into the sidebar. */
    var backendUrl: string
    /** `st.session_state.scan`: the last result, `None` before the first. */
    var scan: Option<ScanResult>

    /** A new session: the URL starts at the configured default (lines 13-15)
        and there is no result yet (lines 31-32). */
    constructor (defaultBackend: string)
      ensures backendUrl == defaultBackend && scan == None
    {
      backendUrl := defaultBackend;
      scan := None;
    }

    /** The sidebar text input stores what was typed; it is trimmed only where
        it is used. */
    method EditBackendUrl(url: string)
      modifies this
      ensures backendUrl == url && scan == old(scan)
    {
      backendUrl := url;
    }

    /** "Run Scan": builds the body, posts it to `/scan`, and on success stores
        the response in full; on any failure the stored result stays as it was. */
    method RunScan(upload: Option<string>, pasted: string, demoLoaded: bool, outcome: Outcome<ScanResult>)
      returns (request: Request)
      modifies this
      ensures request == ScanCall(BackendBase(backendUrl) + "/scan", Requested(upload, pasted))
      ensures backendUrl == old(backendUrl)
      ensures scan == if outcome.Success? then Some(outcome.value) else old(scan)
    {
      var backend := RStrip(backendUrl, {'/'});
      var payload := BuildPayload(upload, pasted, demoLoaded);
      request := ScanCall(backend + "/scan", payload);
      match outcome {
        case Success(r) => scan := Some(r);
        case Failure =>
      }
    }

    /** The Results tab: the score, its rating and the clamped progress value,
        the findings for the chosen filter sorted by severity, and where the
        findings loop stops. A sort under the "all" filter reorders the stored
        findings list in place. */
    method Render(chosen: string) returns (screen: Screen)
      modifies this
      ensures backendUrl == old(backendUrl)
      ensures screen == Display(old(scan), chosen)
      ensures scan == AfterRender(old(scan), chosen)
    {
      if scan.None? {
        return NoResults;
      }
      var r := scan.value;
      var score := r.score.GetOr(0);
      var items := r.findings.GetOr([]);
      if chosen != All {
        items := SelectSeverity(chosen, items);
      }
      RanksBounded(items);
      items := StableRankSort.Sort(Rank, items);
      if chosen == All && r.findings.Some? {
        scan := Some(r.(findings := Some(items)));
      }
      var stopsAt := DrawFindings(items);
      screen := Results(score, ScoreLabel(score), Progress(score), items, stopsAt);
    }

    /** A click on the "Fix via Wrapper" button of the `i`-th finding shown, as
        the page has it: the URL is built from the name `BACKEND_URL`, which is
        not defined in the script, so the lookup fails before any request is
        made; the error is caught and shown. Whatever `/apply` would have
        answered, the stored result is only what the render left. */
    method ApplyFixAsWritten(chosen: string, i: nat, outcome: Outcome<ScanResult>) returns (request: Option<Request>)
      modifies this
      ensures request == None
      ensures backendUrl == old(backendUrl)
      ensures scan == if FixButtonShown(Display(old(scan), chosen), i) then AfterRender(old(scan), chosen) else old(scan)
    {
      request := None;
      if FixButtonShown(Display(scan, chosen), i) {
        var screen := Render(chosen);
      }
    }

    /** A click on the "Fix via Wrapper" button of the `i`-th finding shown, with
        the endpoint taken from the configured backend, as `/scan` and
        `/report.pdf` are: posts that finding's id (JSON `null` when it has
        none) and on success replaces the stored result with the response in
        full; on failure keeps what the render left. Without the button on the
        page there is no click and nothing happens. */
    method ApplyFix(chosen: string, i: nat, outcome: Outcome<ScanResult>) returns (request: Option<Request>)
      modifies this
      ensures backendUrl == old(backendUrl)
      ensures var screen := Display(old(scan), chosen);
        FixButtonShown(screen, i) ==>
          request == Some(ApplyCall(BackendBase(backendUrl) + "/apply", [screen.items[i].id])) &&
          scan == if outcome.Success? then Some(outcome.value) else AfterRender(old(scan), chosen)
      ensures !FixButtonShown(Display(old(scan), chosen), i) ==> request == None && scan == old(scan)
    {
      if !FixButtonShown(Display(scan, chosen), i) {
        return None;
      }
      var screen := Render(chosen);
      var backend := RStrip(backendUrl, {'/'});
      request := Some(ApplyCall(backend + "/apply", [screen.items[i].id]));
      match outcome {
        case Success(r) => scan := Some(r);
        case Failure =>
      }
    }

    /** A click on "Scan another app": the result is forgotten. The button is
        only on the page when the findings loop finished. */
    method ScanAnother(chosen: string)
      modifies this
      ensures backendUrl == old(backendUrl)
      ensures scan == if FooterShown(Display(old(scan), chosen)) then None else old(scan)
    {
      if FooterShown(Display(scan, chosen)) {
        scan := None;
      }
    }
  }
}
