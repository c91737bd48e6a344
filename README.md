# DevGuard frontend: scan-session logic

A Dafny model of the decision logic inside the DevGuard Streamlit page (`app.py`).
The page sends one application export or API description to a scanning backend,
stores the backend's result in the session, and shows a score with a filterable,
severity-sorted list of findings. Each finding has a "Fix via Wrapper" button.

The model covers five pieces:

- **Input resolver** (`Payload`). It turns the uploaded file, the pasted OpenAPI
  text and the demo state into the JSON body posted to `/scan`.
- **Backend base** (`Session.BackendBase`, `PyStr.RStrip`). The configured URL
  with its trailing slashes removed.
- **Score presentation** (`Score`). The rating thresholds 80/60/40 and the
  progress clamp to [0, 100].
- **Findings view** (`Findings`). The severity filter, the rank table
  `high=3, med=2, low=1`, and the stable descending sort.
- **Session store** (`Session.ScanSession`). `scan` starts empty. A successful
  scan or fix replaces it in full. A failure leaves it alone. "Scan another app"
  empties it. Rendering with the "all" filter sorts the stored findings list in place.

Each backend call is an `Outcome` parameter, `Success(result)` or `Failure`.
The methods state which request they build and how the store changes for each outcome.

Modules: `Wrappers` (Option, Outcome), `PyStr` (Python's `strip`/`rstrip`),
`Payload`, `Score`, `Findings`, `StableRankSort` (a stable sort by a rank of
at most 3, generic in the element type and the rank function), `Session`. `Scenarios` holds client runs of the
state machine, proved from the contracts alone.

Notes on what the page does:

- There is no live-URL input. The body always has a `"demo"` key, which is
  `false` unless neither a file nor non-blank text is given.
- A finding without an id gets no synthetic id. Its button key is `"apply_"`,
  and its `/apply` body carries JSON `null`.
- The backend URL is stored as typed and trimmed only where it is used.
- The findings list is not left untouched. With the "all" filter the stored list
  is sorted in place. `Session.RenderDoesNotChangeDisplay` proves that this
  changes no later view.
- A failed scan leaves an earlier result displayed. It does not return to an empty state.
- The findings loop can raise, and then the page stops. A shown finding whose
  severity is not a string fails at `.upper()` (line 123). A second button with
  a key already used fails in Streamlit (line 132): two findings with the same
  id, or two without an id. The screen records where the loop stops
  (`Session.Screen.stopsAt`). The buttons after the stop are not on the page:
  later fix buttons, "Export PDF Report" and "Scan another app". A click on a
  button that is not drawn cannot happen, so the click methods change nothing then.

## Model

| member | source | states |
|---|---|---|
| `PyStr.RStrip` | app.py:62 | The stripped base is a prefix of the input, does not end in a stripped character, and only stripped characters were removed |
| `PyStr.RStripUnique` | app.py:62 | Those three properties determine the result: any such prefix equals `RStrip` |
| `PyStr.RStripIdempotent` | app.py:146 | Normalising twice equals normalising once |
| `PyStr.LStrip` | app.py:70 | The left-stripped text is a suffix of the input, does not start with whitespace, and only whitespace was removed |
| `PyStr.Strip` | app.py:70 | `text.strip()` (the stripped set taken as a parameter, whitespace at the call): the result is a slice of the text with only stripped characters before and after it, neither starts nor ends with one, and is empty exactly when every character of the text is one |
| `PyStr.StripTest` | app.py:70 | `if text.strip():` takes its first branch exactly when the text has a non-whitespace character |
| `PyStr.HasContent` | app.py:70 | Definition: some character of the text is not whitespace |
| `Payload.Requested` | app.py:63-75 | The body always has `"demo"` and never both `"file"` and `"openapi"`. An upload wins, even when text is pasted. Otherwise non-blank text is sent exactly as typed. Otherwise `demo` is true, and only then |
| `Payload.BuildPayload` | app.py:61-75 | The dict built step by step equals `Requested`, whether or not the demo specimen was preloaded |
| `Score.ScoreLabel` | app.py:91-95 | "Excellent" iff score >= 80, "Good" iff 60 <= score < 80, "Fair" iff 40 <= score < 60, "Poor" iff score < 40 |
| `Score.ScoreLabelMonotone` | app.py:91-95 | A higher score never gets a lower rating |
| `Score.Progress` | app.py:106 | The clamp lies in [0, 100]. It equals the score in range, is 100 above and 0 below |
| `Score.ProgressMonotone` | app.py:106 | The clamp is monotone and a fixed point on its own results |
| `Findings.SeverityRank` | app.py:117 | The rank of a severity in `SEVERITY_ORDER`, with 0 for anything else, never exceeds 3, the bound the sort relies on |
| `Findings.Rank` | app.py:117 | The sort-key lambda: a finding's key is the rank of its severity (missing means "low"), at most 3 |
| `Findings.SeverityRanks` | app.py:117 | Rank 3 iff "high", 2 iff "med", 1 iff "low" or missing, 0 for any other string or non-string |
| `Findings.SelectSeverity` | app.py:115 | The comprehension never lengthens the list |
| `Findings.Filter` | app.py:114-115 | "all" keeps the list as it is (the identity, in order). Any other choice keeps only findings whose severity is exactly that string, and never lengthens the list |
| `Findings.FilterKeepsExactly` | app.py:113-115 | A severity filter keeps exactly the findings with that severity string, with their multiplicities |
| `Findings.FilterConcat` | app.py:115 | Filtering distributes over concatenation, so relative order is kept |
| `Findings.SortByRank` | app.py:117 | The sorted findings are a permutation of the input with non-increasing rank |
| `Findings.View` | app.py:113-117 | The list the tab walks through holds exactly the filtered findings, highest rank first. Under a severity filter it is the filtered list in stored order |
| `StableRankSort.ByRank` | app.py:117 | Definition of the stable descending sort: the rank-3 elements, then rank 2, 1 and 0, each group in input order. Its properties are the lemmas below |
| `StableRankSort.ByRankDescending` | app.py:117 | After sorting, ranks are non-increasing |
| `StableRankSort.ByRankPermutation` | app.py:117 | The sorted list is a permutation of its input |
| `StableRankSort.ByRankStable` | app.py:117 | The elements of each rank keep their prior relative order |
| `StableRankSort.SortedIsByRank` | app.py:117 | A list already in descending rank order is unchanged by the sort |
| `StableRankSort.ByRankUnique` | app.py:117 | Any rank-descending list that keeps every rank's elements in order is the sorted list |
| `StableRankSort.ByRankIdempotent` | app.py:117 | Sorting twice equals sorting once |
| `StableRankSort.Insert` | app.py:117 | One insertion step extends the sorted prefix by one element and keeps every rank's sublist |
| `StableRankSort.Sort` | app.py:117 | The stable insertion sort returns exactly the rank-descending stable order of its input |
| `Findings.SortAfterSeverityFilterIsIdentity` | app.py:114-117 | After a severity filter, the sort leaves the list unchanged |
| `Findings.ViewUnaffectedByStoredSort` | app.py:113-117 | Sorting the stored list in place changes what no filter shows |
| `Session.ScoreOf` | app.py:103 | Definition: the response's `score`, or 0 when the key is missing |
| `Session.FindingsOf` | app.py:113 | Definition: the response's `findings`, or the empty list when the key is missing |
| `Session.BackendBase` | app.py:62 | The base is a prefix of the configured URL without a trailing '/'. Only '/' characters were removed. Normalising it again changes nothing |
| `Session.BackendBaseIgnoresTrailingSlashes` | app.py:62 | Appending any number of '/' to the configured URL gives the same base |
| `Session.ReportUrl` | app.py:146-149 | The URL ends in `/report.pdf`; before it stands the configured URL with only trailing slashes dropped, so exactly one slash joins the two |
| `Session.ReportUrlIgnoresTrailingSlashes` | app.py:146 | Appending any number of '/' to the configured URL gives the same report URL |
| `Session.ButtonKey` | app.py:132 | Definition: the button key is `apply_` followed by the id, or by nothing when the id is missing |
| `Session.ButtonKeyCollision` | app.py:132 | Two buttons share a key iff their findings show the same id, so findings without ids collide |
| `Session.DrawFails` | app.py:123-132 | Definition: drawing a finding raises when its severity is not a string (`.upper()`), or when its button key was used before the loop or by an earlier finding |
| `Session.StopsAt` | app.py:122-132 | Where the findings loop stops lies inside the list |
| `Session.StopsAtFirstFailure` | app.py:122-132 | The loop stops at the first finding whose title or button raises, and runs to the end exactly when none does |
| `Session.DrawFindings` | app.py:122-141 | The loop over the shown findings, with the set of keys used so far, stops where `StopsAt` says |
| `Session.Display` | app.py:99-132 | Nothing is shown without a result. Otherwise the score is `score` or 0, the rating is `ScoreLabel` of that score, the progress value is its clamp `Progress` and lies in [0, 100], and the stop lies inside the list |
| `Session.FooterShown` | app.py:144-157 | Definition: "Export PDF Report" and "Scan another app" are drawn when there is a result and the loop ran to the end |
| `Session.FixButtonShown` | app.py:122-132 | Definition: the fix button of the `i`-th shown finding is drawn when the loop got past it |
| `Session.DisplayedFindings` | app.py:103-117 | The rating is that of the score. The shown findings are a permutation of the filtered ones, in non-increasing rank |
| `Session.PageCompletes` | app.py:122-157 | The page reaches its last two buttons iff no shown finding has a non-string severity and no two shown findings share a button key |
| `Session.SeverityFilterStopsOnlyOnDuplicateKeys` | app.py:114-132 | Under a severity filter only two equal button keys can stop the page |
| `Session.AfterRender` | app.py:113-117 | Rendering keeps a result, its score and its findings key, and the multiset of its findings. Under a severity filter it changes nothing |
| `Session.RenderDoesNotChangeDisplay` | app.py:113-117 | After any render, every later render under any filter shows the same screen |
| `Session.AfterRenderIdempotent` | app.py:113-117 | Rendering twice with the same filter stores what rendering once does |
| `Session.ScanSession.constructor` | app.py:13-32 | A new session has the default backend URL and no result |
| `Session.ScanSession.EditBackendUrl` | app.py:19 | The URL is stored as typed and the result is kept |
| `Session.ScanSession.RunScan` | app.py:61-85 | Posts `Requested(...)` to the normalised base plus `/scan`. On success it stores the response in full. On failure nothing changes |
| `Session.ScanSession.Render` | app.py:98-141 | Returns `Display` of the old state, including where the findings loop stops. Stores the in-place sorted list exactly when the filter is "all" and the result has a findings key |
| `Session.ScanSession.ApplyFixAsWritten` | app.py:132-141 | As written: no request is sent. A click on a drawn button only leaves what the render stored. Otherwise nothing changes |
| `Session.ScanSession.ApplyFix` | app.py:132-141 | Corrected: a click on the drawn button of the `i`-th shown finding posts its id to the normalised base plus `/apply`. On success it replaces the result in full. On failure it keeps what the render stored. Without the button nothing happens |
| `Session.ScanSession.ScanAnother` | app.py:155-157 | When the page reaches the button, the result is emptied. Otherwise it is kept. The URL is kept either way |

## Findings

| source | as written | input that shows it | evidently intended | confidence | as-written member | corrected member |
|---|---|---|---|---|---|---|
| app.py:134 | The `/apply` URL is built from the name `BACKEND_URL`, which the script never defines as a variable. The `NameError` is caught and reported as "Apply failed", so no fix ever takes effect | Any click on "Fix via Wrapper", even when the backend would succeed (`Scenarios.ApplyAsWrittenIsIgnored`) | Post to the configured backend with trailing slashes removed, as `/scan` and `/report.pdf` do | high (by reading; not executed) | `Session.ScanSession.ApplyFixAsWritten` | `Session.ScanSession.ApplyFix` |

## Left out

- Streamlit widgets, tabs, layout, messages, and `st.rerun`/`st.experimental_rerun` are presentation, so they are not modelled.
- The HTTP calls, their timeouts and status checks are I/O. They become the `outcome` parameter of each method.
- Reading and UTF-8-decoding the upload is library I/O. `upload` is the decoded text, or `None` when nothing is uploaded.
- The demo preload (app.py:45-59) never reaches the body, so only its flag is modelled, and that flag does not change the body.
- The "Export PDF Report" fetch and download are I/O. Only `Session.ReportUrl`, the URL it uses, is modelled. Its button is drawn only when `Session.FooterShown` holds.
- Pretty-printing `evidence` uses foreign formatting, so `evidence` is not a field of `Finding`.
- The division by 100 for the progress bar is floating point. Only the integer clamp is modelled.
- `int(...)` coercion of a non-integer score is left out. The score is an optional integer.
- A response whose JSON value is falsy (`null`, `[]`, `""`, `0`, `false` or `{}`) shows "Run a scan to see results" (lines 100-101). A 2xx `/scan` or `/apply` with such a body stores it, and a `null` body clears the result. `Outcome.Success` carries an object only, and the model shows any stored result.
- Any other non-object response and a finding that is not an object make the page raise before or in the loop. A `"findings"` value that is not a list (such as `null`) raises too, except an empty string or an empty object under a severity filter: the comprehension at line 115 turns those into an empty list and the page shows "No findings for this filter." with its footer. The model assumes objects and lists.
- A severity that is a list or an object is unhashable, so the rank lookup fails. `NonText` stands only for `null`, numbers and booleans.
- `Session.ButtonKeyCollision`: `Finding.id` is a string or missing. A `null` id gives the key `apply_None` and a number `5` gives `apply_5`, and neither case is modelled, so the collision lemma covers string ids only.
- Streamlit's segmented control can also return `None` when deselected. The model takes `chosen` as a string.
- `Session.ScanSession.Render`: when the loop stops at a duplicate key, the expander of that finding is drawn before its button raises. The screen records only the stop position, not what that expander showed.
- `Session.ScanSession.ApplyFix`: a click starts a new run of the script. The model folds that run into the method. It renders with the same filter, and then the click takes effect. Any later output of that run is not modelled.
- `StableRankSort.Sort`: this is an insertion sort on a sequence, not CPython's in-place timsort. The model proves the stable result that `list.sort` promises, and `Session.ScanSession.Render` writes the sorted list back into the stored result when the two alias.
