# visudraft, modelled in Dafny

visudraft turns a photographed UI sketch into an HTML page with Tailwind CSS. It uses a generative model, shows the page and its code, publishes it to GitHub Pages, and has the generative model audit and repair the published page. This project models the sequential logic under the React presentation as pure functions over immutable datatypes, and proves what that logic promises.

The modules follow the program's files:

- `JsString` (js_string.dfy) holds the JavaScript value semantics the code relies on:
  - `undefined` as `Option`, and a settled promise as `Settled`;
  - truthiness of strings, and template rendering of `undefined`;
  - `trim` with the full ECMAScript whitespace set;
  - the leftmost-occurrence search that the fence pattern's scan performs, `Array.prototype.indexOf`, and `split` on one character.
- `GeminiService` (gemini_service.dfy) is the post-processing of the generator's replies:
  - the markdown fence extraction shared by generation and repair, proved equal to the JavaScript regular expression's backtracking choice;
  - the `split(',')[1]` image payload;
  - the audit's fall-back to an empty checkpoint list.
- `GithubService` (github_service.dfy) is `deployToGitHub` as a pure function of a `Script`:
  - the script holds one abstract answer (`Status(code)` or `NetErr(message)`) per endpoint;
  - the result is the run's trace of progress reports, requests and the settle pause;
  - its requests and its reports are proved equal to an independent reference plan (`PlannedCalls`, `PlannedProgress`, `Outcome`);
  - the settle pause is proved to come right after the creation request, and only when the creation succeeded.
- `DeploymentWizard` (deployment_wizard.dfy) covers:
  - the token connect/verify/disconnect transitions;
  - the Pages URL and the deploy guard and callback;
  - the view selection and the step-list derivation;
  - an invariant over any sequence of panel actions.
- `LiveVerification` (live_verification.dfy) covers:
  - the failed-findings repair request;
  - the audit update;
  - the loading and fixing flags and the controls.
- `Types` (types.dfy) mirrors `AppStatus` and `TabType`.
- `EditorLayout` (editor_layout.dfy) covers:
  - the tab and deployed-URL transitions, including the stale-URL rules;
  - the tab enablement rules;
  - what the output area shows.
- `App` (app.dfy) is the IDLE/LOADING/SUCCESS/ERROR machine. Its initial state is `App.Start`, and the editor's is `EditorLayout.Start`.
- `Workspace` (workspace.dfy) composes the app, the editor and both panels into one transition system.
  - It adds a record of what each Pages site serves.
  - It proves that whenever the verification panel is on screen, the site it audits serves exactly the code on screen.

The code is modelled as written:

- there is no conflict retry and no distinct unauthorized error;
- there is no cancellation, no re-entrancy guard and no validation of `owner/name`;
- a path without `/` yields `undefined` in the URL and the messages.

Where the written code and its own comment differ, the model follows the code. The comment at services/geminiService.ts:33 says the split strips a prefix. `split(',')[1]` is the piece between the first and the second comma, not everything after the first comma (`GeminiService.PayloadAfterFirstComma`). The two agree when the payload has no further comma, as base64 never does.

## Model

| member | source | states |
|---|---|---|
| JsString.Trim | services/geminiService.ts:57 | `trim` returns the input with a whitespace-only prefix and suffix cut, leaves no whitespace at either end, and yields "" exactly for an all-whitespace string |
| JsString.TrimPadded | services/geminiService.ts:57 | whitespace padding on either side does not change what `trim` returns |
| JsString.IndexOf | services/geminiService.ts:56 | the regular expression's scan finds the leftmost occurrence of a fence at or after the start position, and finds nothing exactly when there is none |
| JsString.Split | services/githubService.ts:29 | `split('/')` yields separator-free pieces that join back to the input; there is one piece exactly when there is no separator |
| JsString.SplitJoin | services/githubService.ts:29 | splitting undoes joining separator-free pieces |
| JsString.SplitAt | components/DeploymentWizard.tsx:54 | splitting at the first separator gives the piece before it followed by the pieces of the rest |
| JsString.ArrayIndexOf | components/DeploymentWizard.tsx:199-201 | `Array.prototype.indexOf` gives the first position of the element, or -1 exactly when it is absent |
| GeminiService.FirstBlock | services/geminiService.ts:56 | the block found starts at the first opening fence, ends at the earliest closing fence after it, and exists exactly when some opener is followed by a fence |
| GeminiService.FenceMatchIsJsMatch | services/geminiService.ts:56 | the computed match is the one the backtracking regular expression returns: it matches the pattern and no other match is tried before it; with no result, nothing matches |
| GeminiService.ExtractCode | services/geminiService.ts:53-57 | the extracted code never has leading or trailing whitespace |
| GeminiService.ExtractIsPlain | services/geminiService.ts:56-57 | extraction equals the plain reading: the trimmed contents of the first closed html block, else of the first closed generic block, else the whole text trimmed |
| GeminiService.FenceMatchTrimmed | services/geminiService.ts:56-57 | the optional newlines the pattern skips around the group make no difference once trimmed |
| GeminiService.HtmlBlockExtracted | services/geminiService.ts:56-57 | from the first "```html" to the next "```", the result is the trimmed text in between |
| GeminiService.GenericBlockExtracted | services/geminiService.ts:56-57 | with no closed html block, the result is the trimmed text after the first "```" (a language tag included) up to the next "```" |
| GeminiService.UnfencedTextTrimmed | services/geminiService.ts:57 | with no closed fence, the result is the whole text trimmed |
| GeminiService.CodeFromReply | services/geminiService.ts:148-150 | generation and repair resolve to the same extraction; a missing text gives ""; a failed call rejects with its own message |
| GeminiService.ImagePayload | services/geminiService.ts:33 | a payload exists exactly when the data URL has a comma; it has no comma and is shorter than the URL |
| GeminiService.PayloadAfterFirstComma | services/geminiService.ts:33 | the payload is the piece after the first comma, and all of the rest when no second comma follows |
| GeminiService.AuditCheckpoints | services/geminiService.ts:108-112 | a missing, empty or unparseable reply yields an empty checkpoint list; otherwise the parsed field is used |
| GithubService.GetUser | services/githubService.ts:15-21 | the user resolves exactly on an ok status; another status rejects with "Invalid GitHub token"; a network failure rejects with its own message |
| GithubService.DeployCalls | services/githubService.ts:23-97 | a run's requests are exactly the reference plan: the repository read, the creation only on 404, then the file read, write and Pages requests, each exactly when the run gets that far |
| GithubService.DeployReports | services/githubService.ts:36-96 | a run's reports are one per phase entered (two for a created repository), then its outcome; the last event is that outcome |
| GithubService.CallsInOrder | services/githubService.ts:39-90 | requests follow the endpoint order strictly, so no endpoint is called twice |
| GithubService.CreatesIffMissing | services/githubService.ts:39-51 | the creation request (with the path's name) is made exactly when the read answers 404; any other status goes straight to the file read |
| GithubService.FailedCreateStops | services/githubService.ts:41-48 | a failed creation ends the run with one error report; nothing is read, written or enabled |
| GithubService.WritesOnce | services/githubService.ts:57-72 | a run that reads the file writes it exactly once, with the read's `sha` exactly when the read was ok; without that read there is no write |
| GithubService.FailedWriteStops | services/githubService.ts:74 | a rejected write ends the run with "Failed to upload index.html" and Pages is never requested |
| GithubService.PagesDecides | services/githubService.ts:86-93 | an ok or 409 answer completes the run with no fallback read; otherwise the one fallback read is the last request and decides the outcome |
| GithubService.ProgressPlanned | services/githubService.ts:38-77 | the planned reports never go back in step order, are never terminal, and never report `auth` |
| GithubService.EndsOnce | services/githubService.ts:36-96 | every run ends with its one terminal report: `complete` exactly when it completes, an error exactly otherwise, and no earlier report is terminal |
| GithubService.StepsAdvance | services/githubService.ts:8-96 | before the terminal report the steps never go back (repo, upload, pages), and `auth` is never reported |
| GithubService.DeployAnnounced | services/githubService.ts:38-78 | a `repo` report precedes the repository read and its creation, an `upload` report the file read, and a `pages` report the Pages request |
| GithubService.FreshRepositoryRun | services/githubService.ts:29-93 | for `owner/name` on a host without the repository, the exact requests and reports of a successful run |
| GithubService.AliceSiteRun | services/githubService.ts:29-93 | the same run for "alice/site": the five requests, and the reports "Checking repository alice/site...", "Creating repository site...", upload, pages and the final success |
| GithubService.SettleAfterCreation | services/githubService.ts:39-51 | the run pauses exactly when a missing repository was created; the pause is the fifth event, right after the creation request, and the only pause |
| DeploymentWizard.Initial | components/DeploymentWizard.tsx:11-15 | the panel starts disconnected, idle, with empty token and path, not verifying |
| DeploymentWizard.Mount | components/DeploymentWizard.tsx:18-39 | with no saved token nothing changes; a saved token is put in the field and checked: an accepted one connects the account, stays saved and fills an empty repository path; a rejected one is removed from storage and leaves no user |
| DeploymentWizard.VerifyToken | components/DeploymentWizard.tsx:26-40 | success sets the user and stores the token, and defaults the path to `login/visudraft-site` only when it was empty; failure clears the user and the stored token; verifying is off after both |
| DeploymentWizard.ConnectEnabledThroughout | components/DeploymentWizard.tsx:79 | after any sequence of panel actions, Connect is enabled exactly when the token field is not empty |
| DeploymentWizard.Disconnect | components/DeploymentWizard.tsx:110 | disconnecting clears the user and the stored token and nothing else |
| DeploymentWizard.PagesUrlOfPath | components/DeploymentWizard.tsx:52-56 | "" for an empty path; `owner/name` gives `https://owner.github.io/name/` |
| DeploymentWizard.PagesUrlIgnoresRest | components/DeploymentWizard.tsx:54 | segments after the second are ignored |
| DeploymentWizard.PagesUrlWithoutSlash | components/DeploymentWizard.tsx:54 | a path without `/` gives a URL ending in `undefined/` |
| DeploymentWizard.DeliverRun | components/DeploymentWizard.tsx:44-48 | feeding a run's reports to the callback leaves the last one shown, and announces the URL once if that last report is `complete` and never otherwise |
| DeploymentWizard.HandleDeploy | components/DeploymentWizard.tsx:42-50 | no run without a token and a path; otherwise the run happens, the panel shows its outcome, and the Pages URL is announced exactly when it completes |
| DeploymentWizard.DeployView | components/DeploymentWizard.tsx:117-182 | after a deploy the success panel shows exactly when the run completed, the settings form otherwise |
| DeploymentWizard.BackToSettings | components/DeploymentWizard.tsx:175 | "Back to Settings" resets the progress to idle and returns a connected user to the settings form |
| DeploymentWizard.StepPosition | components/DeploymentWizard.tsx:199-201 | the position of each step in the step order; `idle` and `auth` are not found |
| DeploymentWizard.ItemsMeaning | components/DeploymentWizard.tsx:194-203 | an item is done exactly when the current step lies further along the run, and active exactly when it is the current step |
| DeploymentWizard.ItemsShape | components/DeploymentWizard.tsx:194-203 | at most one item is active; done items form a prefix ending before the active one; `complete` has all done; `idle` and `auth` have none done or active |
| DeploymentWizard.SettledThroughout | components/DeploymentWizard.tsx:18-50 | after any sequence of panel actions no check is in flight and a connected panel has stored the token it uses |
| LiveVerification.FailedFindings | components/LiveVerification.tsx:38 | the request holds a `label: status` line for each failed checkpoint and nothing else, never more lines than checkpoints |
| LiveVerification.FindingsAppend | components/LiveVerification.tsx:38 | the request keeps the checkpoints' order |
| LiveVerification.FindingsSingle | components/LiveVerification.tsx:38 | one checkpoint contributes its line exactly when it failed |
| LiveVerification.AriaFinding | components/LiveVerification.tsx:38 | a failed ARIA check with "Missing labels" becomes "ARIA: Missing labels" |
| LiveVerification.HasFailsIffFindings | components/LiveVerification.tsx:52 | `hasFails` holds exactly when the request would be non-empty |
| LiveVerification.StartAudit | components/LiveVerification.tsx:24 | an audit sets loading and changes nothing else |
| LiveVerification.RunAudit | components/LiveVerification.tsx:23-35 | loading is off afterwards; a failed audit keeps the list; a result replaces it only with its `checkpoints` field, an empty list included |
| LiveVerification.HandleFixAll | components/LiveVerification.tsx:37-50 | a repair call is made exactly when a checkpoint failed, with the failed findings; the code is updated exactly when that call succeeds, with its extracted code; fixing is off afterwards |
| LiveVerification.ControlsAgree | components/LiveVerification.tsx:181 | a shown fix bar always leads to a repair request; starting an audit disables the audit button and hides the fix bar; while fixing the audit button is disabled |
| EditorLayout.OnDeploySuccess | components/EditorLayout.tsx:41-43 | a completed deploy sets the deployed URL and keeps the tab |
| EditorLayout.HandleFixedCode | components/EditorLayout.tsx:45-49 | a repair drops the deployed URL and opens the preview |
| EditorLayout.StatusEffect | components/EditorLayout.tsx:52-57 | a generation starting drops the URL and leaves the verify tab for the preview; other tabs and other statuses change nothing |
| EditorLayout.StatusEffectIdempotent | components/EditorLayout.tsx:52-57 | running the effect again changes nothing, and after it the verify tab is closed while loading |
| EditorLayout.SelectTab | components/EditorLayout.tsx:137-175 | preview and code always open; deploy opens only after a successful generation; verify opens only with a deployed URL; the URL never changes |
| EditorLayout.PanelsNeedTheirState | components/EditorLayout.tsx:203-231 | the verification panel shows exactly on its tab, after a successful generation, with a deployed URL, and audits that URL; the deployment panel shows exactly on its tab after a successful generation |
| App.HandleUpload | App.tsx:13-21 | an upload sets the image, clears the code and returns to IDLE |
| App.HandleGenerate | App.tsx:23-35 | without an image nothing happens; otherwise LOADING while the sketch's payload is sent, then SUCCESS with the extracted code, or ERROR with the code kept |
| App.UpdateCode | App.tsx:48 | a code update replaces the code and keeps the status and image |
| App.StatusMeaning | App.tsx:16-33 | a generation ends in SUCCESS exactly when the generator answered and ERROR exactly when it failed; after an upload, generation is skipped exactly for an empty data URL |
| Workspace.GenerateButton | components/EditorLayout.tsx:107-109 | a click while Generate is disabled does nothing; while enabled, the generation runs |
| Workspace.GenerateForgetsSite | components/EditorLayout.tsx:52-57 | a generation that runs drops the deployed URL and leaves the verify tab, whatever its outcome |
| Workspace.DeployPublishes | components/DeploymentWizard.tsx:42-50 | a completed deploy sets the deployed URL to the repository's Pages URL, and that site serves the code on screen |
| Workspace.RepairForgetsSite | components/EditorLayout.tsx:45-49 | a successful repair puts the repaired code on screen, drops the deployed URL and opens the preview |
| Workspace.StepKeepsCurrent | components/EditorLayout.tsx:41-57 | every action keeps the invariant that a kept URL, after a successful generation, names a site serving the code on screen |
| Workspace.RunKeepsCurrent | components/EditorLayout.tsx:41-57 | the invariant holds after any sequence of actions |
| Workspace.AuditsWhatIsServed | components/EditorLayout.tsx:225-230 | from the first render on, whenever the verification panel is on screen it audits a site serving exactly the code on screen |

## Left out

- GithubService.GetUser: a body that fails to parse is left out. `response.json()` at services/githubService.ts:20 rejects then, even on an ok status; the model resolves on every ok status.
- GithubService.WritesOnce: a file-read body that fails to parse is left out. At services/githubService.ts:60 the run would then end in the `catch` with the parse error and make no write; the model treats every ok read as parsed, and so do `DeployCalls` and `DeployReports`.
- HTTP, headers and JSON bodies are left out. Each GitHub request is an abstract `Call`, and each answer is an abstract `Response` drawn from a `Script`. A successful file read's `sha` is a field of the script.
- The 2000 ms pause after creating a repository (services/githubService.ts:50) is a `Settle` event in the trace, without timing.
- The base64 encoding of the page (services/githubService.ts:69) is left out; the `PutFile` request carries the content as is.
- The Gemini client, the prompts and the model configuration are left out. The generator's reply is a parameter. So is `JSON.parse`, which is a `parse` function returning `Unparseable` or `Parsed(checkpoints)`.
- `localStorage` is the `stored` field. `FileReader` is left out: `App.HandleUpload` takes the data URL it produces. `navigator.clipboard`, the iframes and the copy bar are left out.
- `RunAudit` requires that the parser reads the `{"checkpoints": []}` fallback as an empty list, which is what `JSON.parse` does.
- Async interleaving is left out. Every handler runs to completion before the next action. So a second deploy or generation started while one is in flight is not modelled, nor is a URL announced after the code changed.
- The deployment and verification panels remount whenever their tab is left. The workspace therefore takes their state at the time of a click as part of the action, and does not carry it between tabs.
- A missing `onDeploySuccess` (it is optional in the wizard's props) is left out. The editor always passes one.
- components/Header.tsx, the JSX markup, the CSS and the background decoration are left out; they are presentational.
- `GenerationResult` in types.ts is left out; nothing in the modelled code uses it.
