# Security remediation agent and phrase frontend, modelled in Dafny

This project models two parts of a small repository.

The first is the Dependabot remediation script `scripts/security_remediation_agent.py`. It
lists the open Dependabot alerts of a repository and filters them by state, ecosystem and
severity. For a single alert it tries `poetry update`, and when that fails it tries `poetry add`
with a fallback constraint `>=M.m.p,<M+1.0.0` built from the first patched version. It then
checks with git status that the lock files changed, runs the quality gates (install, pytest,
ruff) in order, and classifies the version change read from `poetry.lock` as a major, minor or
patch bump. The outcome is reported as one of skipped, dry_run, failed, validation_failed or
remediated.

The second is the Flask frontend `src/frontend_app.py`, in four pieces:

- reading a boolean setting (`_as_bool`);
- building the backend URL from the environment (`_build_api_url`);
- the four security headers added to every response (`_apply_security_headers`);
- the page and HTTP status rendered for a phrase fetch (`_render_phrase_page`).

The modules follow the program:

- `Wrappers` holds `Option` and `Outcome`. `Outcome` is either `Returned(value)` or `Raised`,
  and stands for a Python exception that escapes.
- `Text` holds the Python string built-ins used: `strip`, `strip(c)`, ASCII `lower`,
  `startswith`, `join` and `str(int)`.
- `Json` holds decoded payload values with Python truthiness, `dict.get`, `or`, `str()` and
  `int()`.
- `Versions` covers `_parse_semver`, `_determine_update_type` and `_build_fallback_constraint`.
- `PackageNames` covers `_normalize_package_name` and `_safe_branch_component`, with the
  `re.sub` run replacement written out.
- `Alerts` covers `_choose_alert_vulnerability`, `_extract_alert_fields` and `_passes_filters`.
- `LockFile` covers `_load_lock_versions`: a loop over the parsed package records.
- `Listing` covers `_fetch_open_alerts` (the page loop), `_list_alerts` (the filter loop and
  the `max_alerts` slice) and `_find_alert` (the search loop).
- `Remediation` covers `_remediate_alert`. It is written as methods that follow the source
  step by step, proved equal to specification functions, and lemmas state what the reports
  mean.
- `Frontend` covers the four frontend pieces. A `Response` class holds the header list that
  `_apply_security_headers` updates in place.

Everything the code reads from outside is an input to the model:

- the GitHub API responses, as a sequence of page results, each a payload or a raised error;
- the result of each external command: exit code, stdout and stderr;
- `poetry.lock`, as parsed before and after the commands, or absent;
- the environment, as a map;
- the outcome of the phrase fetch.

## Model

| member | source | states |
|---|---|---|
| Versions.ParseSemverLeftmost | scripts/security_remediation_agent.py:36-42 | parsing gives None exactly for None, the empty string or a text without a dotted triple of digit runs; otherwise it gives the leftmost triple, as `re.search` finds it |
| Versions.SearchFromLeftmost | scripts/security_remediation_agent.py:39-42 | the scan from a position finds the triple at the leftmost start from there on, and nothing when no position starts one |
| Versions.DigitRunMaximal | scripts/security_remediation_agent.py:39 | a `\d+` run is all digits and is followed by the end of the text or a non-digit (greedy match) |
| Versions.TripleShift | scripts/security_remediation_agent.py:39 | the triple starting at a position does not depend on text put in front of the string |
| Versions.NoTripleInPrefix | scripts/security_remediation_agent.py:39 | no triple starts inside a digit-free prefix |
| Versions.ParseRendered | scripts/security_remediation_agent.py:36-42 | parsing any digit-free prefix, then "M.m.p", then a non-digit or nothing, gives (M, m, p) |
| Versions.ParseRenderRoundTrip | scripts/security_remediation_agent.py:36-42 | parsing the decimal rendering "a.b.c" of any naturals gives back (a, b, c) |
| Versions.UpdateTypeUnparsed | scripts/security_remediation_agent.py:45-49 | a version that does not parse, on either side, gives "unknown" |
| Versions.UpdateTypeSameVersion | scripts/security_remediation_agent.py:45-56 | an unchanged version gives "unknown" |
| Versions.UpdateTypeComponents | scripts/security_remediation_agent.py:50-56 | when both parse: major exactly when the major number grew, else minor exactly when the minor grew, else patch exactly when the patch grew, else unknown |
| Versions.UpdateTypeOfRendered | scripts/security_remediation_agent.py:45-56 | classifying two rendered triples is the component-wise comparison of the triples |
| Versions.UpdateTypeExamples | scripts/security_remediation_agent.py:45-56 | 1.2.3 to 2.0.0 is major, to 1.3.0 minor, to 1.2.4 patch; 1.2.3 to itself is unknown |
| Versions.DowngradeAcrossMajorsIsMinor | scripts/security_remediation_agent.py:50-53 | components are compared one by one, so 2.0.0 to 1.5.0 gives minor |
| Versions.ConstraintTextBounds | scripts/security_remediation_agent.py:171-172 | the constraint is ">=" v ",<" (major+1).0.0; parsing the constraint gives v back, and parsing its upper bound gives the next major |
| Versions.FallbackConstraintBounds | scripts/security_remediation_agent.py:167-172 | a constraint exists exactly when the first patched version parses, and then has the bounds above |
| PackageNames.ReplaceFromChars | scripts/security_remediation_agent.py:33 | the run substitution yields only "-" and input characters outside the class |
| PackageNames.ReplaceFromSingleDash | scripts/security_remediation_agent.py:33 | when "-" is in the class, no "-" of the result is followed by a class character |
| PackageNames.ReplaceFromFixed | scripts/security_remediation_agent.py:33 | the substitution leaves a text unchanged when each class character in it is a lone "-" |
| PackageNames.NormalizedChars | scripts/security_remediation_agent.py:32-33 | a normalised name has no "_", no "." and no upper-case letter |
| PackageNames.NormalizedDashes | scripts/security_remediation_agent.py:33 | a normalised name never has two adjacent "-" |
| PackageNames.NormalizedEnds | scripts/security_remediation_agent.py:33 | a normalised name neither starts nor ends with whitespace |
| PackageNames.NormalizeIdempotent | scripts/security_remediation_agent.py:32-33 | normalising twice is normalising once |
| PackageNames.SafeBranchComponentValid | scripts/security_remediation_agent.py:162-164 | every branch component is non-empty, uses only [a-z0-9._-] and has no "-" at either end |
| PackageNames.CleanedEmptyOf | scripts/security_remediation_agent.py:163 | cleaning leaves nothing exactly when no character is a safe character other than "-" |
| PackageNames.SafeBranchComponentFallback | scripts/security_remediation_agent.py:162-164 | the component is "dependency" exactly when nothing survives cleaning, and the cleaned text otherwise |
| PackageNames.ValidComponentUnchanged | scripts/security_remediation_agent.py:162-164 | a valid component is its own branch component |
| PackageNames.SafeBranchComponentIdempotent | scripts/security_remediation_agent.py:162-164 | sanitising twice is sanitising once |
| Alerts.ChooseAlertVulnerability | scripts/security_remediation_agent.py:73-80 | a non-empty `security_vulnerabilities` list always supplies the record; only a list element can be something other than a dict; every non-empty result is taken from the payload; without a non-empty list, a `security_vulnerability` dict is the result; with neither source present the result is an empty dict |
| Alerts.ListShadowsSingle | scripts/security_remediation_agent.py:73-78 | when the list is non-empty, the `security_vulnerability` record is never read: replacing it changes nothing |
| Alerts.Nested | scripts/security_remediation_agent.py:85-89 | `d.get(key, {}) or {}` is the stored value exactly when that value is truthy, and an empty dict otherwise |
| Alerts.ExtractAlertFields | scripts/security_remediation_agent.py:83-106 | a payload that is not a dict raises; extracted severity and ecosystem have no upper-case letter; the id is `number or id` |
| Alerts.DependencyPackageWins | scripts/security_remediation_agent.py:91 | a truthy package name of the dependency is the package |
| Alerts.VulnerabilityPackageFallback | scripts/security_remediation_agent.py:91 | otherwise the vulnerability's package name is used, or "" |
| Alerts.OrEmpty | scripts/security_remediation_agent.py:97-105 | `x.get(k) or ""` is the stored value exactly when that value is truthy, and "" otherwise |
| Alerts.ExtractRaisesExactly | scripts/security_remediation_agent.py:83-93 | extraction raises exactly when the alert is not a dict, a nested record is a non-dict, a needed vulnerability package is a non-dict, or the ecosystem is not a string |
| Alerts.ExtractPassthrough | scripts/security_remediation_agent.py:95-106 | every field of a successful extraction in terms of the payload: state, severity, manifest path, summary, GHSA and CVE ids, first patched version, URL and ecosystem |
| Alerts.FirstPatchedIdentifier | scripts/security_remediation_agent.py:104 | the first patched version is the identifier of the vulnerability's first patched version exactly when that identifier is truthy, of any JSON kind, and "" otherwise |
| Alerts.ExtractWellFormedAlert | scripts/security_remediation_agent.py:83-106 | an alert with dict records and a string name and ecosystem is extracted without raising, with the lower-cased ecosystem and severity |
| Alerts.RejectsClosedOrForeign | scripts/security_remediation_agent.py:113-116 | an alert that is not open or not pip is rejected whatever its severity |
| Alerts.UnknownSeverityNeverPasses | scripts/security_remediation_agent.py:117-119 | an unrecognised severity never passes |
| Alerts.UnknownThresholdIsHigh | scripts/security_remediation_agent.py:118 | an unrecognised threshold behaves like "high" |
| Alerts.ThresholdMonotone | scripts/security_remediation_agent.py:117-119 | a lower threshold admits everything a higher one admits |
| Alerts.CriticalImpliesHigh | scripts/security_remediation_agent.py:109-119 | passing at "critical" implies passing at "high" |
| Alerts.PassesFiltersByName | scripts/security_remediation_agent.py:109-119 | at "high", exactly the open pip alerts of severity high or critical pass; at "critical", exactly the critical ones |
| LockFile.Packages | scripts/security_remediation_agent.py:65 | a lock file without a "package" key has no records |
| LockFile.Entry | scripts/security_remediation_agent.py:66-68 | a record that is not a dict raises; an entry has a non-empty name and its string version |
| LockFile.EntryRaises | scripts/security_remediation_agent.py:66 | a record raises exactly when it is not a dict, or its name is truthy and not a string |
| LockFile.EntryOfRecord | scripts/security_remediation_agent.py:66-69 | a record with a string name that normalises to a non-empty key and a string version contributes that key and version |
| LockFile.EntryWithoutKey | scripts/security_remediation_agent.py:66-68 | a record whose name is absent or normalises to nothing contributes no entry |
| LockFile.EntryKeyNormalized | scripts/security_remediation_agent.py:66 | the key of an entry is a normalised package name |
| LockFile.LoadLockVersions | scripts/security_remediation_agent.py:59-70 | the loop computes the record map; an absent lock file gives the empty map |
| LockFile.CollectVersions | scripts/security_remediation_agent.py:64-70 | the loop over the records stores each entry over the ones before it, or lets the record's exception escape |
| LockFile.LockVersionsFromRecords | scripts/security_remediation_agent.py:64-70 | every key is a non-empty normalised name, and its version is the one a record gives |
| LockFile.LastRecordWins | scripts/security_remediation_agent.py:68-69 | a record's version is stored unless a later record has the same normalised name |
| LockFile.NonStringVersionSkipped | scripts/security_remediation_agent.py:67-69 | a record whose version is not a string adds nothing |
| Listing.FetchOpenAlerts | scripts/security_remediation_agent.py:143-159 | the page loop returns what the paging specification gives: the items of the pages read, the exception of a failed request |
| Listing.FetchedPages | scripts/security_remediation_agent.py:146-158 | pages are read up to the first one that is not a full list; their items are concatenated in order |
| Listing.FetchedOutcome | scripts/security_remediation_agent.py:143-159 | the result raises exactly when a request before the first non-full page fails, and otherwise holds the items of every page up to that one |
| Listing.ExtractAll | scripts/security_remediation_agent.py:209-210 | the fields of every alert in order, each extracted from the alert at the same place |
| Listing.PyPrefix | scripts/security_remediation_agent.py:224 | Python's `s[:n]` is always a prefix of `s`. Its length is n when 0 <= n <= len(s), and len(s) + n when a negative n is within the length. It is all of `s` when n >= len(s), and empty when n < -len(s). |
| Listing.ListAlerts | scripts/security_remediation_agent.py:206-225 | the filter loop and the slice return the selection specification of the fetched alerts |
| Listing.PassingMembers | scripts/security_remediation_agent.py:209-222 | an alert is selected exactly when it passes the filters |
| Listing.PassingConcat | scripts/security_remediation_agent.py:209-222 | filtering keeps the order of the alerts |
| Listing.SelectionProperties | scripts/security_remediation_agent.py:208-225 | the count equals the number of rows, which is min(max_alerts, passing); row i is the listed fields of the i-th passing alert |
| Listing.FindAlert | scripts/security_remediation_agent.py:231-236 | the search loop returns the search specification over the fetched alerts |
| Listing.FindInResult | scripts/security_remediation_agent.py:231-236 | None exactly when every alert's id reads as another number; a found alert is the first whose id reads as the number |
| Listing.FindInAfterMisses | scripts/security_remediation_agent.py:232-235 | after alerts that all miss, the search goes on where they end |
| Listing.MissingIdRaises | scripts/security_remediation_agent.py:233-234 | reaching an alert with neither number nor id makes the search raise (`int(None)`) |
| Json.PyIntOfRendering | scripts/security_remediation_agent.py:234 | `int()` of the decimal rendering of any integer reads the integer back |
| Json.PyIntCases | scripts/security_remediation_agent.py:234 | `int()` of None, a list or a dict raises; a boolean reads as 0 or 1 |
| Remediation.RemediateAlert | scripts/security_remediation_agent.py:239-277 | the lookup, the three skips, `base_result` and the dry-run stop, followed by the remaining steps, give the report of the remediation specification |
| Remediation.RunRemediation | scripts/security_remediation_agent.py:279-314 | the first lock read, update then add with the fallback constraint, and the git status check give the run specification |
| Remediation.Validate | scripts/security_remediation_agent.py:316-342 | the gate loop records each gate before it runs and stops at the first failure; after the last gate the second lock read classifies the version change, as the validation specification gives |
| Remediation.ErrorOutputs | scripts/security_remediation_agent.py:303 | only non-empty stripped error outputs are kept |
| Remediation.FirstFailingGate | scripts/security_remediation_agent.py:322-325 | every gate before the index exits 0, and the gate at the index, when there is one, does not |
| Remediation.GateIndex | scripts/security_remediation_agent.py:322-333 | an index before which every gate passed, and at which one failed or there are no more gates, is the first failing gate |
| Remediation.NotFoundSkipped | scripts/security_remediation_agent.py:240-244 | an alert that is not found gives a bare skip with the "not open or not found" reason |
| Remediation.FilteredOutSkipped | scripts/security_remediation_agent.py:246-250 | an alert the filters reject is skipped with the "does not match filters" reason and its fields |
| Remediation.NamelessSkipped | scripts/security_remediation_agent.py:252-256 | an alert without a package name is skipped with that reason and its fields |
| Remediation.TriageSkips | scripts/security_remediation_agent.py:240-256 | every report written before `base_result` is a skip |
| Remediation.TriageProceeds | scripts/security_remediation_agent.py:246-256 | an alert that gets past triage passed the filters and names its package with a string |
| Remediation.BriefReports | scripts/security_remediation_agent.py:239-256 | brief reports are exactly those written before `base_result` exists, and all are skips |
| Remediation.DetailedReport | scripts/security_remediation_agent.py:258-277 | a detailed report belongs to an alert that passed the filters, with its branch and labels; it is dry_run exactly when asked, then with no commands and nothing classified |
| Remediation.DryRunIndependent | scripts/security_remediation_agent.py:273-277 | a dry run does not depend on what the commands or the lock files would report |
| Remediation.AttemptCommands | scripts/security_remediation_agent.py:284-294 | update always runs first; add runs second exactly when the update failed and a truthy first patched version yields a constraint; a non-string version raises |
| Remediation.ErrorOutputsEmpty | scripts/security_remediation_agent.py:303 | no error text is kept exactly when every attempt's stripped stderr is empty |
| Remediation.NoChangeReasons | scripts/security_remediation_agent.py:302-312 | no patched version gives that reason; otherwise, without error output, the plain "no dependency changes" reason |
| Remediation.ConclusionFacts | scripts/security_remediation_agent.py:296-314 | failed git status gives failed with the attempts recorded; empty status output gives skipped with the no-change reason; otherwise validation decides |
| Remediation.GateFailureFacts | scripts/security_remediation_agent.py:322-333 | a failing gate gives validation_failed, with that gate the last command recorded and the gate and its result in the reason |
| Remediation.ValidationFailure | scripts/security_remediation_agent.py:322-333 | the validation result when gate k is the first to fail: the gates up to k recorded, the reason naming gate k |
| Remediation.PatchedAlertAddCommand | scripts/security_remediation_agent.py:284-294 | for an alert payload whose first patched identifier is a rendered version v, a failed update is followed by `poetry add name@>=v,<(major+1).0.0` |
| Remediation.GatesPassedFacts | scripts/security_remediation_agent.py:322-335 | when every gate passes, all three are recorded and the classification decides |
| Remediation.ClassificationFacts | scripts/security_remediation_agent.py:335-342 | remediated, with the old and new versions recorded and auto-merge eligible exactly for a patch or minor update |
| Remediation.RunStatuses | scripts/security_remediation_agent.py:279-345 | the status is failed, skipped, validation_failed or remediated exactly by git status, its output and the first failing gate, with the commands and reason each implies |
| Remediation.RunVersions | scripts/security_remediation_agent.py:335-342 | versions and update type are set only on remediated runs, from the lock file read before and after, and auto-merge holds exactly for patch or minor |
| Frontend.AsBoolDefault | src/frontend_app.py:23-26 | an unset value gives the default; a set value ignores the default and is true exactly for the four words after trim and lower |
| Frontend.AsBoolBlankFalse | src/frontend_app.py:26 | the empty string and whitespace read as false |
| Frontend.AsBoolPadding | src/frontend_app.py:26 | surrounding whitespace does not change the result |
| Frontend.AsBoolAccepts | src/frontend_app.py:26 | "1", "true", "yes" and "on", with any surrounding whitespace, read as true |
| Frontend.AsBoolIgnoresCase | src/frontend_app.py:26 | the case of the letters does not change the result |
| Frontend.BuildApiUrl | src/frontend_app.py:30-32 | a trimmed explicit value starting with http:// or https:// is returned as it is |
| Frontend.BuiltApiUrl | src/frontend_app.py:34-38 | otherwise the URL is "http://" host ":" port "/" and the path stripped of slashes |
| Frontend.NormalizedPathSlashes | src/frontend_app.py:37 | the stripped path neither starts nor ends with "/", so exactly one slash precedes it |
| Frontend.DefaultApiUrl | src/frontend_app.py:34-38 | with nothing set the URL is http://backend:7070/random_phrase |
| Frontend.ExplicitPathUsed | src/frontend_app.py:36 | a non-empty explicit value that is not a URL is the path, and API_PATH is then ignored |
| Frontend.SetHeaderMatches | src/frontend_app.py:106-112 | after `headers[k] = v` the name k has exactly one entry, (k, v) |
| Frontend.SetHeaderKeepsOthers | src/frontend_app.py:106-112 | setting a header leaves the entries of every other name, and their order, as they were |
| Frontend.SetHeaderOtherMatches | src/frontend_app.py:106-112 | the entries of any other name are unchanged |
| Frontend.SetHeaderIdempotent | src/frontend_app.py:106-112 | setting a header twice is setting it once |
| Frontend.SecuredValues | src/frontend_app.py:104-113 | each of the four security headers has exactly one entry, with its fixed value |
| Frontend.SecuredOtherMatches | src/frontend_app.py:104-113 | any other header name keeps exactly the entries it had |
| Frontend.SecuredKeepsOthers | src/frontend_app.py:104-113 | the other headers keep their values and relative order |
| Frontend.SecuredIdempotent | src/frontend_app.py:104-113 | applying the security headers twice is applying them once |
| Frontend.Response.Set | src/frontend_app.py:106 | the response's header list becomes the list after the assignment |
| Frontend.ApplySecurityHeaders | src/frontend_app.py:104-113 | returns the same response, whose headers are now the secured headers of the old ones |
| Frontend.PhraseOf | src/frontend_app.py:92-94 | the phrase data is read exactly when the payload is a dict; any other payload has no `.get` and raises |
| Frontend.RenderPhrasePage | src/frontend_app.py:116-133 | a rendered page has status 200 or 502 |
| Frontend.RenderStatus | src/frontend_app.py:116-133 | a failed fetch gives 502 with the fixed phrase and error texts; 200 exactly for a fetched payload; an error exactly on failure; a non-dict payload escapes |
| Frontend.RenderedPhrase | src/frontend_app.py:93-94 | a fetched dict gives 200 with its phrase, "No phrase returned" when it has none, and selection time None when missing |

## Left out

- Network I/O: `_api_get_json`, its URL, headers and HTTP errors are not modelled. A page request is its result, a payload or `Raised`, with `RuntimeError` among the exceptions. Asking for a page past the supplied ones is a failing request.
- Process and file I/O: `_run`, `_write_json` and the return code 0 are not modelled. The existence check and TOML parsing of `poetry.lock` are not modelled either: the lock file is an input, parsed or absent, and a TOML parse error is not modelled.
- Floating-point numbers and TOML dates are not among the payload values. A float from a payload (a `selection_time`, say) and the rounded `total_time` of the phrase page are not modelled. The request timeout is not modelled.
- Commands are argv token lists. `shlex.quote` and the `" ".join` of the `commands` strings are not modelled.
- The `pr_body` text from `_format_pr_body` is not modelled. `ReasonText` gives the reason messages but has no lemma of its own.
- `json.dumps` formatting, `_build_parser`, `main`, `_log` and the printing to stderr are not modelled.
- The Flask app, its routes, `render_template` and the HTML, and the Prometheus metrics and logging set-up are not modelled. The page is modelled by the template variables and the status.
- `_resolve_base_dir` is not part of this model: the frontend source does not define it.
- The root `frontend_app.py`, a legacy duplicate of the frontend, is not part of this model.
- werkzeug's `Headers` is not part of this model. `SetHeader` states its assignment rule: the first entry with a case-insensitive match is replaced, later matches are dropped, and the entry is appended when there is no match.
- `urllib.parse.urlunparse` is not part of this model. `UrlUnparse` states its rule for a non-empty network location only; the location here always contains ":".
- Text.Lower: only ASCII letters are lower-cased, because Unicode case mapping is outside the model.
- Text.IsDigit: `\d` and `int()` accept only ASCII digits here. Python also accepts other Unicode decimal digits.
- Json.PyStr: the `str()` of a list or dict is a fixed placeholder starting with its bracket, not Python's exact rendering. It reaches three places. In the severity text, no placeholder equals a severity name, so filtering is unaffected. In `Remediation.Base`, it forms the alert id in the branch and title; that id is a list or dict only if it never matched the requested number, and then the search does not return the alert. In `Frontend.PhraseOf`, a phrase that is a list or dict is shown as the placeholder on the page, not as Python's rendering: the model does not capture that page text.
- Versions.DetermineUpdateType is modelled as written. Components are compared independently, so a downgrade such as 2.0.0 to 1.5.0 gives "minor" (see `DowngradeAcrossMajorsIsMinor`).
- Listing.FetchOpenAlerts: `_fetch_open_alerts` loops with `while True`. An API that returns full pages forever keeps it running forever. The pages are a finite sequence here, and a request past its end fails, so that non-terminating case cannot be expressed.
- `_list_alerts` and `_find_alert` model a negative `max_alerts` by Python's negative-slice rule. The missing id of `_find_alert` raises, as `int(None)` does.
