/** The deployment panel of components/DeploymentWizard.tsx: connecting a
    token, choosing the target repository, running a deployment and showing
    its progress. `localStorage` is the `stored` field; the host's answers
    are parameters. */
module DeploymentWizard {
  import opened JsString
  import opened GithubService

  /** The component's state (lines 11-15) and the saved token. */
  datatype Wizard = Wizard(
    token: string,
    user: Option<User>,
    repoPath: string,
    progress: DeploymentProgress,
    isVerifying: bool,
    stored: Option<string>)

  const IdleProgress: DeploymentProgress := DeploymentProgress(Idle, "", None)

  /** The first render, over whatever token a previous session saved. */
  function Initial(saved: Option<string>): (w: Wizard)
    ensures w.user.None? && !w.isVerifying && w.progress == IdleProgress
    ensures w.token == "" && w.repoPath == "" && w.stored == saved
  {
    Wizard("", None, "", IdleProgress, false, saved)
  }

  const DefaultRepo: string := "/visudraft-site"

  /** The first half of `verifyToken` (line 27): the request is in flight. */
  function StartVerify(w: Wizard): (r: Wizard)
    ensures r.isVerifying && r.user == w.user && r.stored == w.stored && r.token == w.token
  {
    w.(isVerifying := true)
  }

  /** `verifyToken(t)` once `getGitHubUser(t)` has settled (lines 26-40). An
      accepted token is remembered and, if no repository was chosen yet,
      suggests `login/visudraft-site`; a rejected one is forgotten. */
  function VerifyToken(w: Wizard, t: string, answer: Response, account: User): (r: Wizard)
    ensures !r.isVerifying
    ensures r.token == w.token && r.progress == w.progress
    ensures answer.Status? && IsOk(answer.code) ==>
      && r.user == Some(account) && r.stored == Some(t)
      && r.repoPath == (if w.repoPath == "" then account.login + DefaultRepo else w.repoPath)
    ensures !(answer.Status? && IsOk(answer.code)) ==>
      r.user.None? && r.stored.None? && r.repoPath == w.repoPath
  {
    var v := StartVerify(w);
    match GetUser(answer, account)
    case Resolved(u) =>
      v.(user := Some(u), stored := Some(t),
         repoPath := if !Truthy(v.repoPath) then u.login + DefaultRepo else v.repoPath,
         isVerifying := false)
    case Rejected(_) =>
      v.(stored := None, user := None, isVerifying := false)
  }

  /** The mount effect (lines 18-24): a saved token is put in the field and
      verified; without one nothing happens. An accepted saved token connects
      the account and stays saved; a rejected one is removed from storage. */
  function Mount(w: Wizard, answer: Response, account: User): (r: Wizard)
    ensures !TruthyOpt(w.stored) ==> r == w
    ensures TruthyOpt(w.stored) ==>
      r.token == w.stored.value && !r.isVerifying && r.progress == w.progress
    ensures TruthyOpt(w.stored) && answer.Status? && IsOk(answer.code) ==>
      && r.user == Some(account) && r.stored == w.stored
      && r.repoPath == (if w.repoPath == "" then account.login + DefaultRepo else w.repoPath)
    ensures TruthyOpt(w.stored) && !(answer.Status? && IsOk(answer.code)) ==>
      r.user.None? && r.stored.None? && r.repoPath == w.repoPath
  {
    if TruthyOpt(w.stored) then
      var saved := w.stored.value;
      VerifyToken(w.(token := saved), saved, answer, account)
    else w
  }

  /** The Disconnect button (line 110): the token text stays in the field. */
  function Disconnect(w: Wizard): (r: Wizard)
    ensures r.user.None? && r.stored.None?
    ensures r.token == w.token && r.repoPath == w.repoPath && r.progress == w.progress
  {
    w.(user := None, stored := None)
  }

  /** `disabled` of the connect button (line 79). */
  predicate ConnectDisabled(w: Wizard) {
    w.isVerifying || !Truthy(w.token)
  }

  // ---------------------------------------------------------------------------
  // The Pages URL

  /** `getPagesUrl()` (lines 52-56): the first two `/`-separated pieces of
      the path, rendered by a template literal. */
  function PagesUrl(repoPath: string): string {
    if !Truthy(repoPath) then ""
    else "https://" + Show(Owner(repoPath)) + ".github.io/" + Show(RepoName(repoPath)) + "/"
  }

  /** An `owner/name` path addresses `https://owner.github.io/name/`; so
      "alice/site" is served at https://alice.github.io/site/. */
  lemma PagesUrlOfPath(owner: string, name: string)
    requires '/' !in owner && '/' !in name
    ensures PagesUrl(owner + "/" + name) == "https://" + owner + ".github.io/" + name + "/"
    ensures PagesUrl("") == ""
  {
    OwnerAndName(owner, name);
  }

  /** Pieces after the second are ignored. */
  lemma PagesUrlIgnoresRest(owner: string, name: string, rest: string)
    requires '/' !in owner && '/' !in name
    ensures PagesUrl(owner + "/" + name + "/" + rest) == PagesUrl(owner + "/" + name)
  {
    OwnerAndName(owner, name);
    assert owner + "/" + name + "/" + rest == owner + ['/'] + (name + ['/'] + rest);
    SplitAt(owner, name + ['/'] + rest, '/');
    SplitAt(name, rest, '/');
  }

  /** Nothing checks the path: without a `/` the name is `undefined`. */
  lemma PagesUrlWithoutSlash(repoPath: string)
    requires repoPath != "" && '/' !in repoPath
    ensures PagesUrl(repoPath) == "https://" + repoPath + ".github.io/undefined/"
  {
    SplitFree(repoPath, '/');
  }

  // ---------------------------------------------------------------------------
  // Deploying

  /** What `onProgress` has done so far: the report on screen and the URLs
      handed to `onDeploySuccess`. */
  datatype Delivery = Delivery(shown: DeploymentProgress, announced: seq<string>)

  /** The callback given to the sequencer (lines 44-48). */
  function OnProgress(d: Delivery, p: DeploymentProgress, url: string): Delivery {
    Delivery(p, d.announced + (if p.step == Complete then [url] else []))
  }

  /** The callback applied to each report in turn. */
  function Deliver(d: Delivery, ps: seq<DeploymentProgress>, url: string): Delivery
    decreases |ps|
  {
    if ps == [] then d else Deliver(OnProgress(d, ps[0], url), ps[1..], url)
  }

  /** Reports short of `complete` followed by a last one leave the last one on
      screen, and announce the URL once if and only if it is `complete`. */
  lemma {:induction false} DeliverRun(d: Delivery, ps: seq<DeploymentProgress>, last: DeploymentProgress, url: string)
    requires forall i :: 0 <= i < |ps| ==> ps[i].step != Complete
    ensures Deliver(d, ps + [last], url) == Delivery(last, d.announced + (if last.step == Complete then [url] else []))
    decreases |ps|
  {
    if ps == [] {
      assert ps + [last] == [last];
    } else {
      assert (ps + [last])[1..] == ps[1..] + [last];
      assert d.announced + [] == d.announced;
      DeliverRun(OnProgress(d, ps[0], url), ps[1..], last, url);
    }
  }

  /** A click on Deploy: the wizard after the run, the run's events, and the
      URLs announced to the editor. */
  datatype DeployResult = DeployResult(wizard: Wizard, trace: seq<Event>, announced: seq<string>)

  /** `handleDeploy` (lines 42-50): nothing without a token and a path;
      otherwise the run's reports pass through the callback. */
  function HandleDeploy(w: Wizard, code: string, s: Script): (r: DeployResult)
    ensures !Truthy(w.token) || !Truthy(w.repoPath) ==> r == DeployResult(w, [], [])
    ensures Truthy(w.token) && Truthy(w.repoPath) ==>
      && r.trace == DeployToGitHub(w.repoPath, code, s)
      && r.wizard == w.(progress := Outcome(s))
      && r.announced == (if Completes(s) then [PagesUrl(w.repoPath)] else [])
  {
    if !Truthy(w.token) || !Truthy(w.repoPath) then DeployResult(w, [], [])
    else
      var t := DeployToGitHub(w.repoPath, code, s);
      var url := PagesUrl(w.repoPath);
      var d := Deliver(Delivery(w.progress, []), Reports(t), url);
      DeployReports(w.repoPath, code, s);
      ProgressPlanned(w.repoPath, s);
      DeliverRun(Delivery(w.progress, []), PlannedProgress(w.repoPath, s), Outcome(s), url);
      DeployResult(w.(progress := d.shown), t, d.announced)
  }

  // ---------------------------------------------------------------------------
  // What is on screen

  datatype View = ConnectForm | SettingsForm | SuccessPanel | ProgressPanel

  /** Lines 58, 117, 151 and 182: the connect form without a user; then the
      settings while idle or after an error, the success panel on
      completion, and the progress panel otherwise. */
  function ViewOf(w: Wizard): View {
    if w.user.None? then ConnectForm
    else if w.progress.step == Idle || TruthyOpt(w.progress.error) then SettingsForm
    else if w.progress.step == Complete then SuccessPanel
    else ProgressPanel
  }

  /** A connected user who deploys lands on the success panel exactly when
      the run completes, and back on the settings form otherwise. */
  lemma DeployView(w: Wizard, code: string, s: Script)
    requires w.user.Some? && Truthy(w.token) && Truthy(w.repoPath)
    ensures ViewOf(HandleDeploy(w, code, s).wizard) == (if Completes(s) then SuccessPanel else SettingsForm)
  {
  }

  /** "Back to Settings" (line 175). */
  function BackToSettings(w: Wizard): (r: Wizard)
    ensures r.progress == IdleProgress && r.user == w.user
    ensures w.user.Some? ==> ViewOf(r) == SettingsForm
  {
    w.(progress := DeploymentProgress(Idle, "", None))
  }

  /** The order `indexOf` finds steps in (line 199). */
  const StepOrder: seq<Step> := [Repo, Upload, Pages, Complete]

  /** One line of the step list: its step, and whether it shows done or active. */
  datatype Item = Item(id: Step, done: bool, active: bool)

  function ItemFor(id: Step, current: Step): Item {
    Item(id, ArrayIndexOf(StepOrder, id) < ArrayIndexOf(StepOrder, current), current == id)
  }

  /** Where `indexOf` finds each step: -1 for the two that are not listed. */
  lemma StepPosition(x: Step)
    ensures ArrayIndexOf(StepOrder, x) == match x
      case Repo => 0 case Upload => 1 case Pages => 2 case Complete => 3
      case Idle => -1 case Auth => -1
  {
    assert StepOrder[1..] == [Upload, Pages, Complete];
    assert StepOrder[2..] == [Pages, Complete];
    assert StepOrder[3..] == [Complete];
  }

  /** The step list of the progress panel (lines 194-203). */
  function Items(current: Step): seq<Item> {
    [ItemFor(Repo, current), ItemFor(Upload, current), ItemFor(Pages, current)]
  }

  /** An item is done when the current step lies further along the run, and
      active when it is the current step; `idle` and `auth` lie on no run. */
  lemma ItemsMeaning(current: Step)
    ensures var items := Items(current);
      && |items| == 3 && items[0].id == Repo && items[1].id == Upload && items[2].id == Pages
      && (forall i :: 0 <= i < 3 ==>
            && (items[i].done <==> current != Idle && current != Auth && StepRank(items[i].id) < StepRank(current))
            && (items[i].active <==> items[i].id == current))
  {
    ItemMeaning(Repo, current);
    ItemMeaning(Upload, current);
    ItemMeaning(Pages, current);
  }

  lemma ItemMeaning(id: Step, current: Step)
    requires id == Repo || id == Upload || id == Pages
    ensures ItemFor(id, current).done <==> current != Idle && current != Auth && StepRank(id) < StepRank(current)
    ensures ItemFor(id, current).active <==> id == current
  {
    StepPosition(id);
    StepPosition(current);
  }

  /** At most one item is active, the done ones come first and the active
      one right after them, `complete` shows all done and `idle` or `auth`
      shows nothing. */
  lemma ItemsShape(current: Step)
    ensures var items := Items(current);
      && (forall i, j :: 0 <= i < j < 3 && items[i].active ==> !items[j].active)
      && (forall i, j :: 0 <= i < j < 3 && items[j].done ==> items[i].done)
      && (forall i, j :: 0 <= i < 3 && 0 <= j < 3 && items[i].active ==> (items[j].done <==> j < i))
      && (current == Complete ==> forall i :: 0 <= i < 3 ==> items[i].done && !items[i].active)
      && (current == Idle || current == Auth ==> forall i :: 0 <= i < 3 ==> !items[i].done && !items[i].active)
  {
    ItemsMeaning(current);
    ShapeOf(Items(current), current);
  }

  lemma ShapeOf(items: seq<Item>, current: Step)
    requires |items| == 3 && items[0].id == Repo && items[1].id == Upload && items[2].id == Pages
    requires forall i :: 0 <= i < 3 ==>
      && (items[i].done <==> current != Idle && current != Auth && StepRank(items[i].id) < StepRank(current))
      && (items[i].active <==> items[i].id == current)
    ensures forall i, j :: 0 <= i < j < 3 && items[i].active ==> !items[j].active
    ensures forall i, j :: 0 <= i < j < 3 && items[j].done ==> items[i].done
    ensures forall i, j :: 0 <= i < 3 && 0 <= j < 3 && items[i].active ==> (items[j].done <==> j < i)
    ensures current == Complete ==> forall i :: 0 <= i < 3 ==> items[i].done && !items[i].active
    ensures current == Idle || current == Auth ==> forall i :: 0 <= i < 3 ==> !items[i].done && !items[i].active
  {
  }

  // ---------------------------------------------------------------------------
  // The panel as a whole

  /** What a user (or the mount) can do, each through a control that is on
      screen only in some views. Each action runs to completion before the
      next, so a token check is never in flight between actions. The mount
      effect runs once, first; `MountPanel` may stand anywhere in a sequence,
      so what is proved for every sequence covers that one. */
  datatype Action =
    | MountPanel(answer: Response, account: User)
    | EditToken(text: string)
    | Connect(answer: Response, account: User)
    | LeaveAccount
    | EditRepoPath(text: string)
    | Deploy(code: string, script: Script)
    | Return

  function Apply(w: Wizard, a: Action): Wizard {
    match a
    case MountPanel(answer, account) => Mount(w, answer, account)
    case EditToken(text) => if ViewOf(w) == ConnectForm then w.(token := text) else w
    case Connect(answer, account) =>
      if ViewOf(w) == ConnectForm && !ConnectDisabled(w) then VerifyToken(w, w.token, answer, account) else w
    case LeaveAccount => if w.user.Some? then Disconnect(w) else w
    case EditRepoPath(text) => if ViewOf(w) == SettingsForm then w.(repoPath := text) else w
    case Deploy(code, script) => if ViewOf(w) == SettingsForm then HandleDeploy(w, code, script).wizard else w
    case Return => if ViewOf(w) == SuccessPanel then BackToSettings(w) else w
  }

  /** Between actions no check is in flight, and a connected panel has saved
      exactly the token it uses. */
  predicate Settled(w: Wizard) {
    !w.isVerifying && (w.user.Some? ==> w.stored == Some(w.token))
  }

  lemma ApplyKeepsSettled(w: Wizard, a: Action)
    requires Settled(w)
    ensures Settled(Apply(w, a))
  {
  }

  function ApplyAll(w: Wizard, actions: seq<Action>): Wizard
    decreases |actions|
  {
    if actions == [] then w else ApplyAll(Apply(w, actions[0]), actions[1..])
  }

  /** Between actions the connect button (line 79) is enabled exactly when
      the token field is not empty. */
  lemma ConnectEnabledThroughout(saved: Option<string>, actions: seq<Action>)
    ensures !ConnectDisabled(ApplyAll(Initial(saved), actions)) <==> ApplyAll(Initial(saved), actions).token != ""
  {
    SettledThroughout(saved, actions);
  }

  lemma {:induction false} SettledThroughout(saved: Option<string>, actions: seq<Action>)
    ensures Settled(ApplyAll(Initial(saved), actions))
  {
    SettledFrom(Initial(saved), actions);
  }

  lemma {:induction false} SettledFrom(w: Wizard, actions: seq<Action>)
    requires Settled(w)
    ensures Settled(ApplyAll(w, actions))
    decreases |actions|
  {
    if actions != [] {
      ApplyKeepsSettled(w, actions[0]);
      SettledFrom(Apply(w, actions[0]), actions[1..]);
    }
  }
}
