/** The deployment sequencer of services/githubService.ts. Each awaited
    `fetch` is replaced by the response a `Script` says the host gives, and a
    run of `deployToGitHub` becomes the trace of what it does: progress reports
    handed to `onProgress`, requests sent to the host, and the settle pause after
    creating a repository. HTTP, headers, JSON bodies and base64 encoding are
    not modelled. */
module GithubService {
  import opened JsString

  /** The `step` field of a `DeploymentProgress`. */
  datatype Step = Idle | Auth | Repo | Upload | Pages | Complete

  datatype DeploymentProgress = DeploymentProgress(step: Step, message: string, error: Option<string>)

  /** The account `getGitHubUser` reads. */
  datatype User = User(login: string, avatarUrl: string)

  /** What an awaited `fetch` settles to: a response with its HTTP status, or a
      rejection (a network failure) with its error message. */
  datatype Response = Status(code: int) | NetErr(message: string)

  /** `response.ok`. */
  predicate IsOk(code: int) {
    200 <= code <= 299
  }

  /** How the host answers during one run: one response per endpoint, and the
      `sha` field of the body of a successful `index.html` read. Every endpoint
      is called at most once per run (`CallsInOrder`), so this is the whole
      script the run can consume. */
  datatype Script = Script(
    repo: Response,
    create: Response,
    file: Response,
    fileSha: Option<string>,
    put: Response,
    pages: Response,
    pagesCheck: Response)

  /** A request to the host. `CreateRepo` carries the `name` of its body
      (dropped by `JSON.stringify` when undefined); `PutFile` carries the page
      content and the `sha` it sends. */
  datatype Call =
    | GetRepo
    | CreateRepo(name: Option<string>)
    | GetFile
    | PutFile(content: string, sha: Option<string>)
    | PostPages
    | GetPages

  /** One observable action of a run. */
  datatype Event = Report(progress: DeploymentProgress) | Request(call: Call) | Settle

  const CreateFailed: string := "Failed to create repository"
  const UploadFailed: string := "Failed to upload index.html"
  const PagesFailed: string := "Failed to enable GitHub Pages"

  /** `getGitHubUser` (lines 15-21): a network failure rejects with its own
      message, a non-ok status with "Invalid GitHub token". */
  function GetUser(response: Response, body: User): (r: Settled<User>)
    ensures r.Resolved? <==> response.Status? && IsOk(response.code)
    ensures r.Resolved? ==> r.value == body
    ensures response.Status? && !IsOk(response.code) ==> r == Rejected("Invalid GitHub token")
    ensures response.NetErr? ==> r == Rejected(response.message)
  {
    match response
    case NetErr(m) => Rejected(m)
    case Status(c) => if IsOk(c) then Resolved(body) else Rejected("Invalid GitHub token")
  }

  // ---------------------------------------------------------------------------
  // The run, phase by phase

  /** The `catch` block's report. */
  function Failed(message: string): Event {
    Report(DeploymentProgress(Idle, "", Some(message)))
  }

  const Done: Event := Report(DeploymentProgress(Complete, "Successfully deployed!", None))

  /** The progress reports that open each phase. */
  function Checking(repoPath: string): DeploymentProgress {
    DeploymentProgress(Repo, "Checking repository " + Show(Owner(repoPath)) + "/" + Show(RepoName(repoPath)) + "...", None)
  }

  function Creating(repo: Option<string>): DeploymentProgress {
    DeploymentProgress(Repo, "Creating repository " + Show(repo) + "...", None)
  }

  const Uploading: DeploymentProgress := DeploymentProgress(Upload, "Uploading index.html...", None)
  const Enabling: DeploymentProgress := DeploymentProgress(Pages, "Enabling GitHub Pages...", None)

  /** `const [owner, repo] = repoPath.split('/')`. */
  function Owner(repoPath: string): Option<string> {
    Element(Split(repoPath, '/'), 0)
  }

  function RepoName(repoPath: string): Option<string> {
    Element(Split(repoPath, '/'), 1)
  }

  /** The section of `deployToGitHub` a run is about to enter. */
  datatype Stage = RepoCheck | RepoCreation | FileUpload | PagesSetup

  /** How many sections are left, counting this one. */
  function StagesLeft(st: Stage): nat {
    match st
    case RepoCheck => 4
    case RepoCreation => 3
    case FileUpload => 2
    case PagesSetup => 1
  }

  /** `deployToGitHub(token, repoPath, content, onProgress)` (lines 23-97). */
  function DeployToGitHub(repoPath: string, content: string, s: Script): seq<Event> {
    Run(RepoCheck, repoPath, content, s)
  }

  /** The events of a run from the start of section `st` on: each section
      reports, makes its first request and goes on according to the answer. */
  function Run(st: Stage, repoPath: string, content: string, s: Script): seq<Event>
    decreases StagesLeft(st), 2
  {
    match st
    case RepoCheck =>
      [Report(Checking(repoPath)), Request(GetRepo)] + AfterRepoRead(repoPath, content, s)
    case RepoCreation =>
      [Report(Creating(RepoName(repoPath))), Request(CreateRepo(RepoName(repoPath)))] + AfterCreate(repoPath, content, s)
    case FileUpload =>
      [Report(Uploading), Request(GetFile)] + AfterFileRead(repoPath, content, s)
    case PagesSetup =>
      [Report(Enabling), Request(PostPages)] + AfterEnable(s)
  }

  /** Lines 39-51: only a 404 leads to creating the repository. */
  function AfterRepoRead(repoPath: string, content: string, s: Script): seq<Event>
    decreases StagesLeft(RepoCheck), 1
  {
    match s.repo
    case NetErr(m) => [Failed(m)]
    case Status(c) => if c == 404 then Run(RepoCreation, repoPath, content, s) else Run(FileUpload, repoPath, content, s)
  }

  /** Lines 42-50: a created repository is given time to settle. */
  function AfterCreate(repoPath: string, content: string, s: Script): seq<Event>
    decreases StagesLeft(RepoCreation), 1
  {
    match s.create
    case NetErr(m) => [Failed(m)]
    case Status(c) => if !IsOk(c) then [Failed(CreateFailed)] else [Settle] + Run(FileUpload, repoPath, content, s)
  }

  /** Lines 57-72: any status of the `index.html` read leads to the one write;
      only an ok read lends its `sha`. */
  function AfterFileRead(repoPath: string, content: string, s: Script): seq<Event>
    decreases StagesLeft(FileUpload), 1
  {
    match s.file
    case NetErr(m) => [Failed(m)]
    case Status(_) => [Request(PutFile(content, ShaSent(s)))] + AfterWrite(repoPath, content, s)
  }

  function AfterWrite(repoPath: string, content: string, s: Script): seq<Event>
    decreases StagesLeft(FileUpload), 0
  {
    match s.put
    case NetErr(m) => [Failed(m)]
    case Status(c) => if !IsOk(c) then [Failed(UploadFailed)] else Run(PagesSetup, repoPath, content, s)
  }

  /** Lines 78-93: 409 means Pages is already enabled; any other failing
      status gets one fallback read. */
  function AfterEnable(s: Script): seq<Event> {
    match s.pages
    case NetErr(m) => [Failed(m)]
    case Status(c) => if PagesAccepted(c) then [Done] else [Request(GetPages)] + AfterPagesRead(s)
  }

  function AfterPagesRead(s: Script): seq<Event> {
    match s.pagesCheck
    case NetErr(m) => [Failed(m)]
    case Status(c) => if IsOk(c) then [Done] else [Failed(PagesFailed)]
  }

  // ---------------------------------------------------------------------------
  // Views of a trace

  /** The requests of a trace, in order. */
  function Calls(t: seq<Event>): seq<Call> {
    if t == [] then [] else (if t[0].Request? then [t[0].call] else []) + Calls(t[1..])
  }

  /** The progress reports of a trace, in order. */
  function Reports(t: seq<Event>): seq<DeploymentProgress> {
    if t == [] then [] else (if t[0].Report? then [t[0].progress] else []) + Reports(t[1..])
  }

  lemma {:induction false} CallsAppend(a: seq<Event>, b: seq<Event>)
    ensures Calls(a + b) == Calls(a) + Calls(b)
    decreases |a|
  {
    if a != [] {
      assert (a + b)[1..] == a[1..] + b;
      CallsAppend(a[1..], b);
    } else {
      assert a + b == b;
    }
  }

  lemma {:induction false} ReportsAppend(a: seq<Event>, b: seq<Event>)
    ensures Reports(a + b) == Reports(a) + Reports(b)
    decreases |a|
  {
    if a != [] {
      assert (a + b)[1..] == a[1..] + b;
      ReportsAppend(a[1..], b);
    } else {
      assert a + b == b;
    }
  }

  /** A report that ends a run: success, or the error report of the `catch`. */
  predicate IsTerminal(p: DeploymentProgress) {
    p.step == Complete || (p.step == Idle && p.error.Some?)
  }

  // ---------------------------------------------------------------------------
  // The decision sequence, stated on its own

  predicate RepoMissing(s: Script) {
    s.repo == Status(404)
  }

  /** The run gets past the repository check (and creation, when needed). */
  predicate ReachesUpload(s: Script) {
    s.repo.Status? && (s.repo.code != 404 || (s.create.Status? && IsOk(s.create.code)))
  }

  predicate ReachesPut(s: Script) {
    ReachesUpload(s) && s.file.Status?
  }

  predicate ReachesPages(s: Script) {
    ReachesPut(s) && s.put.Status? && IsOk(s.put.code)
  }

  /** Pages enabling succeeded outright or was already on. */
  predicate PagesAccepted(code: int) {
    IsOk(code) || code == 409
  }

  predicate ChecksPages(s: Script) {
    ReachesPages(s) && s.pages.Status? && !PagesAccepted(s.pages.code)
  }

  predicate Completes(s: Script) {
    && ReachesPages(s)
    && s.pages.Status?
    && (PagesAccepted(s.pages.code) || (s.pagesCheck.Status? && IsOk(s.pagesCheck.code)))
  }

  /** The `sha` the write sends: the one read, if the read was ok. */
  function ShaSent(s: Script): Option<string> {
    if s.file.Status? && IsOk(s.file.code) then s.fileSha else None
  }

  /** The requests a run makes, each present exactly when the run gets that far. */
  function PlannedCalls(repoPath: string, content: string, s: Script): seq<Call> {
    [GetRepo]
    + (if RepoMissing(s) then [CreateRepo(RepoName(repoPath))] else [])
    + UploadCalls(content, s)
  }

  function UploadCalls(content: string, s: Script): seq<Call> {
    if !ReachesUpload(s) then []
    else [GetFile] + (if ReachesPut(s) then [PutFile(content, ShaSent(s))] else []) + PagesCalls(s)
  }

  function PagesCalls(s: Script): seq<Call> {
    if !ReachesPages(s) then [] else [PostPages] + (if ChecksPages(s) then [GetPages] else [])
  }

  /** The error a failed run ends with: the first network failure's message, or
      the message of the first failing status check. */
  function FailureMessage(s: Script): string {
    if s.repo.NetErr? then s.repo.message
    else if RepoMissing(s) && s.create.NetErr? then s.create.message
    else if RepoMissing(s) && !IsOk(s.create.code) then CreateFailed
    else if s.file.NetErr? then s.file.message
    else if s.put.NetErr? then s.put.message
    else if !IsOk(s.put.code) then UploadFailed
    else if s.pages.NetErr? then s.pages.message
    else if s.pagesCheck.NetErr? then s.pagesCheck.message
    else PagesFailed
  }

  /** The final report of a run. */
  function Outcome(s: Script): DeploymentProgress {
    if Completes(s) then Done.progress else Failed(FailureMessage(s)).progress
  }

  /** The non-final reports of a run: one per phase entered, plus one for
      creating the repository. */
  function PlannedProgress(repoPath: string, s: Script): seq<DeploymentProgress> {
    [Checking(repoPath)]
    + (if RepoMissing(s) then [Creating(RepoName(repoPath))] else [])
    + UploadProgress(s)
  }

  function UploadProgress(s: Script): seq<DeploymentProgress> {
    if !ReachesUpload(s) then []
    else [Uploading] + (if ReachesPages(s) then [Enabling] else [])
  }

  // ---------------------------------------------------------------------------
  // The run follows the decision sequence, phase by phase

  /** The last event of a non-empty trace. */
  function Last(t: seq<Event>): Event
    requires |t| > 0
  {
    t[|t| - 1]
  }

  lemma LastAppend(a: seq<Event>, b: seq<Event>)
    requires |b| > 0
    ensures Last(a + b) == Last(b)
  {
  }

  lemma AfterEnableViews(s: Script)
    requires ReachesPages(s)
    ensures Calls(AfterEnable(s)) == (if ChecksPages(s) then [GetPages] else [])
    ensures Reports(AfterEnable(s)) == [Outcome(s)]
    ensures |AfterEnable(s)| > 0 && Last(AfterEnable(s)) == Report(Outcome(s))
  {
    if ChecksPages(s) {
      CallsAppend([Request(GetPages)], AfterPagesRead(s));
      ReportsAppend([Request(GetPages)], AfterPagesRead(s));
      LastAppend([Request(GetPages)], AfterPagesRead(s));
    }
  }

  lemma PagesSetupViews(repoPath: string, content: string, s: Script)
    requires ReachesPages(s)
    ensures Calls(Run(PagesSetup, repoPath, content, s)) == PagesCalls(s)
    ensures Reports(Run(PagesSetup, repoPath, content, s)) == [Enabling, Outcome(s)]
    ensures Last(Run(PagesSetup, repoPath, content, s)) == Report(Outcome(s))
  {
    var head := [Report(Enabling), Request(PostPages)];
    AfterEnableViews(s);
    CallsAppend(head, AfterEnable(s));
    ReportsAppend(head, AfterEnable(s));
    LastAppend(head, AfterEnable(s));
  }

  lemma AfterWriteViews(repoPath: string, content: string, s: Script)
    requires ReachesPut(s)
    ensures Calls(AfterWrite(repoPath, content, s)) == PagesCalls(s)
    ensures Reports(AfterWrite(repoPath, content, s)) == (if ReachesPages(s) then [Enabling] else []) + [Outcome(s)]
    ensures |AfterWrite(repoPath, content, s)| > 0 && Last(AfterWrite(repoPath, content, s)) == Report(Outcome(s))
  {
    if ReachesPages(s) {
      PagesSetupViews(repoPath, content, s);
    }
  }

  lemma AfterFileReadViews(repoPath: string, content: string, s: Script)
    requires ReachesUpload(s)
    ensures Calls(AfterFileRead(repoPath, content, s)) == (if ReachesPut(s) then [PutFile(content, ShaSent(s))] else []) + PagesCalls(s)
    ensures Reports(AfterFileRead(repoPath, content, s)) == (if ReachesPages(s) then [Enabling] else []) + [Outcome(s)]
    ensures |AfterFileRead(repoPath, content, s)| > 0 && Last(AfterFileRead(repoPath, content, s)) == Report(Outcome(s))
  {
    if ReachesPut(s) {
      var put := [Request(PutFile(content, ShaSent(s)))];
      CallsAppend(put, AfterWrite(repoPath, content, s));
      ReportsAppend(put, AfterWrite(repoPath, content, s));
      AfterWriteViews(repoPath, content, s);
      LastAppend(put, AfterWrite(repoPath, content, s));
    }
  }

  lemma FileUploadViews(repoPath: string, content: string, s: Script)
    requires ReachesUpload(s)
    ensures Calls(Run(FileUpload, repoPath, content, s)) == UploadCalls(content, s)
    ensures Reports(Run(FileUpload, repoPath, content, s)) == UploadProgress(s) + [Outcome(s)]
    ensures Last(Run(FileUpload, repoPath, content, s)) == Report(Outcome(s))
  {
    var head := [Report(Uploading), Request(GetFile)];
    var tail := AfterFileRead(repoPath, content, s);
    AfterFileReadViews(repoPath, content, s);
    assert Calls(Run(FileUpload, repoPath, content, s)) == UploadCalls(content, s) by {
      CallsAppend(head, tail);
      Regroup([GetFile], if ReachesPut(s) then [PutFile(content, ShaSent(s))] else [], PagesCalls(s), []);
    }
    assert Reports(Run(FileUpload, repoPath, content, s)) == UploadProgress(s) + [Outcome(s)] by {
      ReportsAppend(head, tail);
      Regroup([Uploading], if ReachesPages(s) then [Enabling] else [], [Outcome(s)], []);
    }
    LastAppend(head, tail);
  }

  lemma AfterCreateViews(repoPath: string, content: string, s: Script)
    requires RepoMissing(s)
    ensures Calls(AfterCreate(repoPath, content, s)) == UploadCalls(content, s)
    ensures Reports(AfterCreate(repoPath, content, s)) == UploadProgress(s) + [Outcome(s)]
    ensures |AfterCreate(repoPath, content, s)| > 0 && Last(AfterCreate(repoPath, content, s)) == Report(Outcome(s))
  {
    if ReachesUpload(s) {
      var up := Run(FileUpload, repoPath, content, s);
      CallsAppend([Settle], up);
      ReportsAppend([Settle], up);
      LastAppend([Settle], up);
      FileUploadViews(repoPath, content, s);
    }
  }

  lemma AfterRepoReadViews(repoPath: string, content: string, s: Script)
    ensures Calls(AfterRepoRead(repoPath, content, s))
      == (if RepoMissing(s) then [CreateRepo(RepoName(repoPath))] else []) + UploadCalls(content, s)
    ensures Reports(AfterRepoRead(repoPath, content, s))
      == (if RepoMissing(s) then [Creating(RepoName(repoPath))] else []) + UploadProgress(s) + [Outcome(s)]
    ensures |AfterRepoRead(repoPath, content, s)| > 0 && Last(AfterRepoRead(repoPath, content, s)) == Report(Outcome(s))
  {
    if RepoMissing(s) {
      RepoCreationViews(repoPath, content, s);
      assert AfterRepoRead(repoPath, content, s) == Run(RepoCreation, repoPath, content, s);
    } else if s.repo.Status? {
      FileUploadViews(repoPath, content, s);
      assert AfterRepoRead(repoPath, content, s) == Run(FileUpload, repoPath, content, s);
    }
  }

  lemma RepoCreationViews(repoPath: string, content: string, s: Script)
    requires RepoMissing(s)
    ensures Calls(Run(RepoCreation, repoPath, content, s)) == [CreateRepo(RepoName(repoPath))] + UploadCalls(content, s)
    ensures Reports(Run(RepoCreation, repoPath, content, s)) == [Creating(RepoName(repoPath))] + UploadProgress(s) + [Outcome(s)]
    ensures |Run(RepoCreation, repoPath, content, s)| > 0
    ensures Last(Run(RepoCreation, repoPath, content, s)) == Report(Outcome(s))
  {
    var head := [Report(Creating(RepoName(repoPath))), Request(CreateRepo(RepoName(repoPath)))];
    var tail := AfterCreate(repoPath, content, s);
    assert Run(RepoCreation, repoPath, content, s) == head + tail;
    AfterCreateViews(repoPath, content, s);
    assert Calls(head + tail) == [CreateRepo(RepoName(repoPath))] + UploadCalls(content, s) by {
      CallsAppend(head, tail);
    }
    assert Reports(head + tail) == [Creating(RepoName(repoPath))] + UploadProgress(s) + [Outcome(s)] by {
      ReportsAppend(head, tail);
    }
    LastAppend(head, tail);
  }

  /** A run makes exactly the requests of `PlannedCalls`. */
  lemma DeployCalls(repoPath: string, content: string, s: Script)
    ensures Calls(DeployToGitHub(repoPath, content, s)) == PlannedCalls(repoPath, content, s)
  {
    var head := [Report(Checking(repoPath)), Request(GetRepo)];
    CallsAppend(head, AfterRepoRead(repoPath, content, s));
    AfterRepoReadViews(repoPath, content, s);
  }

  /** A run hands `onProgress` exactly the reports of `PlannedProgress`, then
      its outcome, and that outcome is the run's last event. */
  lemma DeployReports(repoPath: string, content: string, s: Script)
    ensures Reports(DeployToGitHub(repoPath, content, s)) == PlannedProgress(repoPath, s) + [Outcome(s)]
    ensures Last(DeployToGitHub(repoPath, content, s)) == Report(Outcome(s))
  {
    var head := [Report(Checking(repoPath)), Request(GetRepo)];
    var tail := AfterRepoRead(repoPath, content, s);
    assert DeployToGitHub(repoPath, content, s) == head + tail;
    var created := if RepoMissing(s) then [Creating(RepoName(repoPath))] else [];
    AfterRepoReadViews(repoPath, content, s);
    assert Reports(tail) == created + UploadProgress(s) + [Outcome(s)];
    ReportsAppend(head, tail);
    assert Reports(head) == [Checking(repoPath)];
    Regroup([Checking(repoPath)], created, UploadProgress(s), [Outcome(s)]);
    LastAppend(head, tail);
  }

  lemma Regroup<T>(a: seq<T>, b: seq<T>, c: seq<T>, d: seq<T>)
    ensures a + (b + c + d) == a + b + c + d
  {
  }

  /** When a trace ends with a report, that report ends its list of reports. */
  lemma LastReport(t: seq<Event>)
    requires |t| > 0 && t[|t| - 1].Report?
    ensures Reports(t) == Reports(t[..|t| - 1]) + [t[|t| - 1].progress]
  {
    assert t == t[..|t| - 1] + [t[|t| - 1]];
    ReportsAppend(t[..|t| - 1], [t[|t| - 1]]);
  }

  /** Every report of a trace is in its list of reports. */
  lemma {:induction false} ReportListed(t: seq<Event>, i: nat)
    requires i < |t| && t[i].Report?
    ensures t[i].progress in Reports(t)
    decreases i
  {
    if i > 0 {
      ReportListed(t[1..], i - 1);
    }
  }

  // ---------------------------------------------------------------------------
  // Consequences for single runs. Each is first read off the plan, which
  // mentions no trace, then carried over to the run by `DeployCalls` and
  // `DeployReports`.

  /** The order in which a run may make its requests. */
  function CallRank(c: Call): nat {
    match c
    case GetRepo => 0
    case CreateRepo(_) => 1
    case GetFile => 2
    case PutFile(_, _) => 3
    case PostPages => 4
    case GetPages => 5
  }

  predicate Ascending(cs: seq<Call>) {
    forall i, j :: 0 <= i < j < |cs| ==> CallRank(cs[i]) < CallRank(cs[j])
  }

  /** All ranks of `cs` lie in `lo..hi`. */
  predicate RanksWithin(cs: seq<Call>, lo: nat, hi: nat) {
    forall i :: 0 <= i < |cs| ==> lo <= CallRank(cs[i]) <= hi
  }

  lemma AscendingJoin(a: seq<Call>, b: seq<Call>, bound: nat)
    requires Ascending(a) && Ascending(b)
    requires RanksWithin(a, 0, bound) && RanksWithin(b, bound + 1, 5)
    ensures Ascending(a + b) && RanksWithin(a + b, 0, 5)
  {
  }

  lemma PagesCallsAscending(s: Script)
    ensures Ascending(PagesCalls(s)) && RanksWithin(PagesCalls(s), 4, 5)
  {
  }

  lemma UploadCallsAscending(content: string, s: Script)
    ensures Ascending(UploadCalls(content, s)) && RanksWithin(UploadCalls(content, s), 2, 5)
  {
    if ReachesUpload(s) {
      PagesCallsAscending(s);
      var write := [GetFile] + (if ReachesPut(s) then [PutFile(content, ShaSent(s))] else []);
      assert Ascending(write) && RanksWithin(write, 0, 3);
      AscendingJoin(write, PagesCalls(s), 3);
    }
  }

  lemma PlannedAscending(repoPath: string, content: string, s: Script)
    ensures Ascending(PlannedCalls(repoPath, content, s))
  {
    UploadCallsAscending(content, s);
    var check := [GetRepo] + (if RepoMissing(s) then [CreateRepo(RepoName(repoPath))] else []);
    assert Ascending(check) && RanksWithin(check, 0, 1);
    AscendingJoin(check, UploadCalls(content, s), 1);
  }

  /** Requests strictly follow the endpoint order, so no endpoint is called
      twice: there is no retry anywhere in a run. */
  lemma CallsInOrder(repoPath: string, content: string, s: Script)
    ensures Ascending(Calls(DeployToGitHub(repoPath, content, s)))
  {
    DeployCalls(repoPath, content, s);
    PlannedAscending(repoPath, content, s);
  }

  lemma CreatePlanned(repoPath: string, content: string, s: Script)
    ensures CreateRepo(RepoName(repoPath)) in PlannedCalls(repoPath, content, s) <==> RepoMissing(s)
    ensures forall c :: c in PlannedCalls(repoPath, content, s) && c.CreateRepo? ==> c.name == RepoName(repoPath)
    ensures s.repo.Status? && s.repo.code != 404 ==>
      |PlannedCalls(repoPath, content, s)| >= 2 && PlannedCalls(repoPath, content, s)[..2] == [GetRepo, GetFile]
  {
    var up := UploadCalls(content, s);
    assert forall c :: c in up ==> !c.CreateRepo?;
    if s.repo.Status? && s.repo.code != 404 {
      assert up[0] == GetFile;
    }
  }

  /** Lines 39-51: the repository is created exactly when its read answers 404;
      any other status goes straight on to the upload. */
  lemma CreatesIffMissing(repoPath: string, content: string, s: Script)
    ensures CreateRepo(RepoName(repoPath)) in Calls(DeployToGitHub(repoPath, content, s)) <==> RepoMissing(s)
    ensures forall c :: c in Calls(DeployToGitHub(repoPath, content, s)) && c.CreateRepo? ==> c.name == RepoName(repoPath)
    ensures var calls := Calls(DeployToGitHub(repoPath, content, s));
      s.repo.Status? && s.repo.code != 404 ==> |calls| >= 2 && calls[..2] == [GetRepo, GetFile]
  {
    DeployCalls(repoPath, content, s);
    CreatePlanned(repoPath, content, s);
  }

  /** Lines 48 and 94-96: a failed creation ends the run with one error report
      and nothing is read, written or enabled. */
  lemma FailedCreateStops(repoPath: string, content: string, s: Script)
    requires RepoMissing(s) && !(s.create.Status? && IsOk(s.create.code))
    ensures Calls(DeployToGitHub(repoPath, content, s)) == [GetRepo, CreateRepo(RepoName(repoPath))]
    ensures Reports(DeployToGitHub(repoPath, content, s))
      == [Checking(repoPath), Creating(RepoName(repoPath)),
          DeploymentProgress(Idle, "", Some(if s.create.NetErr? then s.create.message else CreateFailed))]
  {
    DeployCalls(repoPath, content, s);
    DeployReports(repoPath, content, s);
  }

  lemma WritePlanned(repoPath: string, content: string, s: Script)
    ensures var calls := PlannedCalls(repoPath, content, s);
      forall c :: c in calls && c.PutFile? ==> c == PutFile(content, ShaSent(s))
    ensures PutFile(content, ShaSent(s)) in PlannedCalls(repoPath, content, s) <==> ReachesPut(s)
  {
    var pre := [GetRepo] + (if RepoMissing(s) then [CreateRepo(RepoName(repoPath))] else []);
    assert forall c :: c in pre ==> !c.PutFile?;
    assert forall c :: c in PagesCalls(s) ==> !c.PutFile?;
  }

  /** Lines 57-72: a run that reads the file writes it exactly once, sending the
      read's `sha` exactly when the read was ok; a run that does not get to
      the read never writes. */
  lemma WritesOnce(repoPath: string, content: string, s: Script)
    ensures var calls := Calls(DeployToGitHub(repoPath, content, s));
      forall c :: c in calls && c.PutFile? ==> c == PutFile(content, ShaSent(s))
    ensures PutFile(content, ShaSent(s)) in Calls(DeployToGitHub(repoPath, content, s)) <==> ReachesPut(s)
    ensures Ascending(Calls(DeployToGitHub(repoPath, content, s)))
    ensures ShaSent(s).Some? ==> s.file.Status? && IsOk(s.file.code)
    ensures s.file.Status? && IsOk(s.file.code) ==> ShaSent(s) == s.fileSha
  {
    DeployCalls(repoPath, content, s);
    WritePlanned(repoPath, content, s);
    PlannedAscending(repoPath, content, s);
  }

  /** Line 74: a rejected write ends the run with `UploadFailed` and Pages is
      never touched. */
  lemma FailedWriteStops(repoPath: string, content: string, s: Script)
    requires ReachesPut(s) && s.put.Status? && !IsOk(s.put.code)
    ensures Last(DeployToGitHub(repoPath, content, s)) == Failed(UploadFailed)
    ensures PostPages !in Calls(DeployToGitHub(repoPath, content, s))
    ensures GetPages !in Calls(DeployToGitHub(repoPath, content, s))
  {
    FailedWritePlanned(repoPath, content, s);
    DeployCalls(repoPath, content, s);
    DeployReports(repoPath, content, s);
  }

  lemma FailedWritePlanned(repoPath: string, content: string, s: Script)
    requires ReachesPut(s) && s.put.Status? && !IsOk(s.put.code)
    ensures Report(Outcome(s)) == Failed(UploadFailed)
    ensures PostPages !in PlannedCalls(repoPath, content, s)
    ensures GetPages !in PlannedCalls(repoPath, content, s)
  {
    assert !ReachesPages(s) && PagesCalls(s) == [];
    assert UploadCalls(content, s) == [GetFile, PutFile(content, ShaSent(s))];
  }

  lemma PagesPlanned(repoPath: string, content: string, s: Script)
    requires ReachesPages(s) && s.pages.Status?
    ensures var calls := PlannedCalls(repoPath, content, s);
      && |calls| > 0
      && (PagesAccepted(s.pages.code) ==> GetPages !in calls && Outcome(s) == Done.progress)
      && (!PagesAccepted(s.pages.code) ==> calls[|calls| - 1] == GetPages)
  {
    var calls := PlannedCalls(repoPath, content, s);
    var pre := [GetRepo] + (if RepoMissing(s) then [CreateRepo(RepoName(repoPath))] else []);
    assert forall c :: c in pre ==> c != GetPages;
  }

  /** Lines 86-93: an ok or 409 answer to enabling Pages completes the run with
      no fallback read; any other status makes one fallback read, as the run's
      last request, whose answer decides the outcome. */
  lemma PagesDecides(repoPath: string, content: string, s: Script)
    requires ReachesPages(s) && s.pages.Status?
    ensures PagesAccepted(s.pages.code) ==>
      Last(DeployToGitHub(repoPath, content, s)) == Done && GetPages !in Calls(DeployToGitHub(repoPath, content, s))
    ensures var calls := Calls(DeployToGitHub(repoPath, content, s));
      !PagesAccepted(s.pages.code) ==>
      && |calls| > 0 && calls[|calls| - 1] == GetPages
      && Last(DeployToGitHub(repoPath, content, s))
         == (if s.pagesCheck.Status? && IsOk(s.pagesCheck.code) then Done
             else Failed(if s.pagesCheck.NetErr? then s.pagesCheck.message else PagesFailed))
  {
    DeployCalls(repoPath, content, s);
    DeployReports(repoPath, content, s);
    PagesPlanned(repoPath, content, s);
  }

  /** If a trace's reports are `early` and then `last`, and it ends with
      `last`, then every report before its end is one of `early`. */
  lemma EarlyReports(t: seq<Event>, early: seq<DeploymentProgress>, last: DeploymentProgress)
    requires |t| > 0 && Last(t) == Report(last) && Reports(t) == early + [last]
    ensures forall i :: 0 <= i < |t| - 1 && t[i].Report? ==> t[i].progress in early
  {
    LastReport(t);
    var front := t[..|t| - 1];
    assert Reports(front) == early by {
      assert Reports(front) == Reports(t)[..|Reports(t)| - 1];
    }
    forall i | 0 <= i < |t| - 1 && t[i].Report?
      ensures t[i].progress in early
    {
      assert front[i] == t[i];
      ReportListed(front, i);
    }
  }

  /** The order of `DeploymentProgress.step` values along a run. */
  function StepRank(step: Step): nat {
    match step
    case Idle => 0
    case Auth => 1
    case Repo => 2
    case Upload => 3
    case Pages => 4
    case Complete => 5
  }

  /** Steps never go back along `ps`. */
  predicate StepsOrdered(ps: seq<DeploymentProgress>) {
    forall i, j :: 0 <= i < j < |ps| ==> StepRank(ps[i].step) <= StepRank(ps[j].step)
  }

  /** Every report of `ps` is an intermediate one, with a step in `lo..hi`. */
  predicate Intermediate(ps: seq<DeploymentProgress>, lo: nat, hi: nat) {
    forall i :: 0 <= i < |ps| ==> !IsTerminal(ps[i]) && lo <= StepRank(ps[i].step) <= hi
  }

  lemma OrderedJoin(a: seq<DeploymentProgress>, b: seq<DeploymentProgress>, bound: nat)
    requires 2 <= bound <= 4
    requires StepsOrdered(a) && StepsOrdered(b)
    requires Intermediate(a, 2, bound) && Intermediate(b, bound, 4)
    ensures StepsOrdered(a + b) && Intermediate(a + b, 2, 4)
  {
  }

  /** Planned reports are ordered by step, never terminal and never `auth`. */
  lemma ProgressPlanned(repoPath: string, s: Script)
    ensures StepsOrdered(PlannedProgress(repoPath, s)) && Intermediate(PlannedProgress(repoPath, s), 2, 4)
  {
    var up := UploadProgress(s);
    assert StepsOrdered(up) && Intermediate(up, 3, 4);
    var check := [Checking(repoPath)] + (if RepoMissing(s) then [Creating(RepoName(repoPath))] else []);
    assert StepsOrdered(check) && Intermediate(check, 2, 2);
    OrderedJoin(check, up, 3);
  }

  /** Lines 36-96: the last event of every run is its one terminal report,
      success exactly when `Completes`, an error exactly otherwise. */
  lemma EndsOnce(repoPath: string, content: string, s: Script)
    ensures var t := DeployToGitHub(repoPath, content, s);
      && Last(t).Report? && IsTerminal(Last(t).progress)
      && (Last(t).progress.step == Complete <==> Completes(s))
      && (Last(t).progress.error.Some? <==> !Completes(s))
      && (forall i :: 0 <= i < |t| - 1 && t[i].Report? ==> !IsTerminal(t[i].progress))
  {
    DeployReports(repoPath, content, s);
    ProgressPlanned(repoPath, s);
    assert forall p :: p in PlannedProgress(repoPath, s) ==> !IsTerminal(p);
    EarlyReports(DeployToGitHub(repoPath, content, s), PlannedProgress(repoPath, s), Outcome(s));
  }

  /** Lines 8 and 36-96: before the terminal report the steps never go back
      (repo, then upload, then pages), and `auth` is never reported. */
  lemma StepsAdvance(repoPath: string, content: string, s: Script)
    ensures var ps := Reports(DeployToGitHub(repoPath, content, s));
      && |ps| >= 2
      && (forall i, j :: 0 <= i < j < |ps| - 1 ==> StepRank(ps[i].step) <= StepRank(ps[j].step))
      && (forall i :: 0 <= i < |ps| ==> ps[i].step != Auth)
  {
    DeployReports(repoPath, content, s);
    ProgressPlanned(repoPath, s);
  }

  /** The step a report must announce just before a request, if any. */
  function Herald(c: Call): Option<Step> {
    match c
    case GetRepo => Some(Repo)
    case CreateRepo(_) => Some(Repo)
    case GetFile => Some(Upload)
    case PostPages => Some(Pages)
    case _ => None
  }

  predicate Heralded(e: Event) {
    e.Request? && Herald(e.call).Some?
  }

  /** Every request that opens a phase comes right after a report of that
      phase's step. */
  predicate Announced(t: seq<Event>) {
    forall i :: 0 <= i < |t| && Heralded(t[i]) ==>
      i > 0 && t[i - 1].Report? && Some(t[i - 1].progress.step) == Herald(t[i].call)
  }

  lemma AnnouncedAppend(a: seq<Event>, b: seq<Event>)
    requires Announced(a) && Announced(b)
    requires |b| > 0 ==> !Heralded(b[0])
    ensures Announced(a + b)
  {
    forall i | 0 <= i < |a + b| && Heralded((a + b)[i])
      ensures i > 0 && (a + b)[i - 1].Report? && Some((a + b)[i - 1].progress.step) == Herald((a + b)[i].call)
    {
      if i >= |a| {
        assert (a + b)[i] == b[i - |a|];
        assert i - |a| > 0;
        assert (a + b)[i - 1] == b[i - 1 - |a|];
      }
    }
  }

  /** A phase opening: its report, then its first request. */
  lemma OpeningAnnounced(p: DeploymentProgress, c: Call, rest: seq<Event>)
    requires Herald(c) == Some(p.step)
    requires Announced(rest) && (|rest| > 0 ==> !Heralded(rest[0]))
    ensures Announced([Report(p), Request(c)] + rest)
  {
    AnnouncedAppend([Report(p), Request(c)], rest);
  }

  lemma PagesSetupAnnounced(repoPath: string, content: string, s: Script)
    ensures Announced(Run(PagesSetup, repoPath, content, s))
  {
    if s.pages.Status? && !PagesAccepted(s.pages.code) {
      AnnouncedAppend([Request(GetPages)], AfterPagesRead(s));
    }
    OpeningAnnounced(Enabling, PostPages, AfterEnable(s));
  }

  lemma FileUploadAnnounced(repoPath: string, content: string, s: Script)
    ensures Announced(Run(FileUpload, repoPath, content, s))
  {
    if s.file.Status? {
      if s.put.Status? && IsOk(s.put.code) {
        PagesSetupAnnounced(repoPath, content, s);
      }
      AnnouncedAppend([Request(PutFile(content, ShaSent(s)))], AfterWrite(repoPath, content, s));
    }
    OpeningAnnounced(Uploading, GetFile, AfterFileRead(repoPath, content, s));
  }

  lemma RepoCreationAnnounced(repoPath: string, content: string, s: Script)
    ensures Announced(Run(RepoCreation, repoPath, content, s))
  {
    var repo := RepoName(repoPath);
    if s.create.Status? && IsOk(s.create.code) {
      FileUploadAnnounced(repoPath, content, s);
      AnnouncedAppend([Settle], Run(FileUpload, repoPath, content, s));
    }
    OpeningAnnounced(Creating(repo), CreateRepo(repo), AfterCreate(repoPath, content, s));
  }

  /** Lines 38, 54 and 77: a `repo` report precedes the repository read and
      creation, an `upload` report the file read, a `pages` report the Pages
      request. */
  lemma DeployAnnounced(repoPath: string, content: string, s: Script)
    ensures Announced(DeployToGitHub(repoPath, content, s))
  {
    var rest := AfterRepoRead(repoPath, content, s);
    if s.repo.Status? {
      if s.repo.code == 404 {
        RepoCreationAnnounced(repoPath, content, s);
        assert rest == Run(RepoCreation, repoPath, content, s);
      } else {
        FileUploadAnnounced(repoPath, content, s);
        assert rest == Run(FileUpload, repoPath, content, s);
      }
      assert rest[0].Report?;
    }
    OpeningAnnounced(Checking(repoPath), GetRepo, rest);
  }

  /** The pause of line 50 happens exactly when a missing repository was
      created, and it comes right after the creation request: it is the
      fifth event of the run, and no other event is a pause. */
  lemma SettleAfterCreation(repoPath: string, content: string, s: Script)
    ensures Settle in DeployToGitHub(repoPath, content, s)
      <==> RepoMissing(s) && s.create.Status? && IsOk(s.create.code)
    ensures forall i :: 0 <= i < |DeployToGitHub(repoPath, content, s)| && DeployToGitHub(repoPath, content, s)[i] == Settle ==>
      i == 4 && DeployToGitHub(repoPath, content, s)[3] == Request(CreateRepo(RepoName(repoPath)))
  {
    var t := DeployToGitHub(repoPath, content, s);
    var head := [Report(Checking(repoPath)), Request(GetRepo)];
    assert t == head + AfterRepoRead(repoPath, content, s);
    UploadNeverSettles(repoPath, content, s);
    if RepoMissing(s) {
      var opening := [Report(Creating(RepoName(repoPath))), Request(CreateRepo(RepoName(repoPath)))];
      assert AfterRepoRead(repoPath, content, s) == Run(RepoCreation, repoPath, content, s)
        == opening + AfterCreate(repoPath, content, s);
      if s.create.Status? && IsOk(s.create.code) {
        var rest := Run(FileUpload, repoPath, content, s);
        assert t == (head + opening) + [Settle] + rest;
        SoleSettle(head + opening, rest);
      } else {
        assert t == head + opening + AfterCreate(repoPath, content, s);
      }
    } else if s.repo.Status? {
      assert AfterRepoRead(repoPath, content, s) == Run(FileUpload, repoPath, content, s);
    }
  }

  /** A pause between two stretches without one is the only pause. */
  lemma SoleSettle(a: seq<Event>, b: seq<Event>)
    requires Settle !in a && Settle !in b
    ensures Settle in a + [Settle] + b
    ensures forall i :: 0 <= i < |a + [Settle] + b| && (a + [Settle] + b)[i] == Settle ==> i == |a|
  {
    var t := a + [Settle] + b;
    assert t[|a|] == Settle;
    assert forall j :: 0 <= j < |a| ==> t[j] == a[j];
    assert forall j :: |a| < j < |t| ==> t[j] == b[j - |a| - 1];
  }

  /** From the file read on, a run never pauses. */
  lemma UploadNeverSettles(repoPath: string, content: string, s: Script)
    ensures Settle !in Run(FileUpload, repoPath, content, s)
  {
    var pages := [Report(Enabling), Request(PostPages)] + AfterEnable(s);
    assert Settle !in pages;
    assert Settle !in AfterWrite(repoPath, content, s) by {
      if s.put.Status? && IsOk(s.put.code) {
        assert AfterWrite(repoPath, content, s) == Run(PagesSetup, repoPath, content, s) == pages;
      }
    }
  }

  /** An `owner/name` path splits into its owner and its name. */
  lemma OwnerAndName(owner: string, name: string)
    requires '/' !in owner && '/' !in name
    ensures Owner(owner + "/" + name) == Some(owner) && RepoName(owner + "/" + name) == Some(name)
  {
    SplitJoin([owner, name], '/');
    assert Join([owner, name], '/') == owner + "/" + name;
  }

  /** The run for `owner/name` on a host where the repository does not exist
      yet and every later request succeeds. */
  lemma FreshRepositoryRun(owner: string, name: string, content: string, s: Script)
    requires '/' !in owner && '/' !in name
    requires s.repo == Status(404) && s.create == Status(201) && s.file == Status(404)
    requires s.put == Status(201) && s.pages == Status(201)
    ensures Calls(DeployToGitHub(owner + "/" + name, content, s))
      == [GetRepo, CreateRepo(Some(name)), GetFile, PutFile(content, None), PostPages]
    ensures Reports(DeployToGitHub(owner + "/" + name, content, s))
      == [DeploymentProgress(Repo, "Checking repository " + owner + "/" + name + "...", None),
          DeploymentProgress(Repo, "Creating repository " + name + "...", None),
          Uploading, Enabling, Done.progress]
  {
    FreshRepositoryPlan(owner + "/" + name, owner, name, content, s);
    DeployCalls(owner + "/" + name, content, s);
    DeployReports(owner + "/" + name, content, s);
  }

  lemma FreshRepositoryPlan(path: string, owner: string, name: string, content: string, s: Script)
    requires '/' !in owner && '/' !in name && path == owner + "/" + name
    requires s.repo == Status(404) && s.create == Status(201) && s.file == Status(404)
    requires s.put == Status(201) && s.pages == Status(201)
    ensures PlannedCalls(path, content, s) == [GetRepo, CreateRepo(Some(name)), GetFile, PutFile(content, None), PostPages]
    ensures PlannedProgress(path, s) + [Outcome(s)]
      == [DeploymentProgress(Repo, "Checking repository " + owner + "/" + name + "...", None),
          DeploymentProgress(Repo, "Creating repository " + name + "...", None),
          Uploading, Enabling, Done.progress]
  {
    OwnerAndName(owner, name);
    assert RepoMissing(s) && ReachesPages(s) && !ChecksPages(s) && Completes(s) && ShaSent(s) == None;
    assert UploadCalls(content, s) == [GetFile, PutFile(content, None), PostPages];
    assert UploadProgress(s) == [Uploading, Enabling];
  }

  /** The same run for "alice/site": its requests and its reports. */
  lemma AliceSiteRun(content: string, s: Script)
    requires s.repo == Status(404) && s.create == Status(201) && s.file == Status(404)
    requires s.put == Status(201) && s.pages == Status(201)
    ensures Calls(DeployToGitHub("alice/site", content, s))
      == [GetRepo, CreateRepo(Some("site")), GetFile, PutFile(content, None), PostPages]
    ensures Reports(DeployToGitHub("alice/site", content, s))
      == [DeploymentProgress(Repo, "Checking repository alice/site...", None),
          DeploymentProgress(Repo, "Creating repository site...", None),
          Uploading, Enabling, Done.progress]
  {
    assert "alice" + "/" + "site" == "alice/site";
    assert "Checking repository " + "alice" + "/" + "site" + "..." == "Checking repository alice/site...";
    assert "Creating repository " + "site" + "..." == "Creating repository site...";
    FreshRepositoryPlan("alice/site", "alice", "site", content, s);
    DeployCalls("alice/site", content, s);
    DeployReports("alice/site", content, s);
  }
}
