/** The whole editor page as one sequential transition system: App.tsx's
    state, EditorLayout.tsx's tabs and deployed URL, and, as a model-only
    record, what each deployed site currently serves. The property of
    interest is that the verification panel never audits a site that
    serves something other than the code on screen. */
module Workspace {
  import opened JsString
  import opened Types
  import GithubService
  import GeminiService
  import App
  import EditorLayout
  import DeploymentWizard
  import LiveVerification

  /** `served` maps a Pages URL to the page last written to its repository;
      it is not state of the program but of the hosting side. */
  datatype Workspace = Workspace(app: App.AppState, layout: EditorLayout.Layout, served: map<string, string>)

  const Start: Workspace := Workspace(App.Start, EditorLayout.Start, map[])

  /** What a user can do on the page. The deployment and verification
      panels are remounted whenever their tab is left, so their own state at
      the time of the click is part of the action. */
  datatype Action =
    | Upload(dataUrl: string)
    | Generate(reply: Settled<Option<string>>)
    | Select(tab: TabType)
    | DeployFrom(wizard: DeploymentWizard.Wizard, script: GithubService.Script)
    | Repair(panel: LiveVerification.Panel, reply: Settled<Option<string>>)

  /** Passes each announced URL to `onDeploySuccess`. */
  function Announce(l: EditorLayout.Layout, urls: seq<string>): (r: EditorLayout.Layout)
    ensures r.activeTab == l.activeTab
    ensures urls == [] ==> r == l
    ensures urls != [] ==> r.deployedUrl == Some(urls[|urls| - 1])
    decreases |urls|
  {
    if urls == [] then l else Announce(EditorLayout.OnDeploySuccess(l, urls[0]), urls[1..])
  }

  /** The deployment panel's Deploy button is on screen: the deploy tab
      after a successful generation (EditorLayout.tsx lines 219-224), with the
      wizard showing its settings form. */
  predicate CanDeploy(ws: Workspace, w: DeploymentWizard.Wizard) {
    && EditorLayout.MainOutput(ws.layout, ws.app.status) == EditorLayout.DeployPanel
    && DeploymentWizard.ViewOf(w) == DeploymentWizard.SettingsForm
  }

  /** The verification panel is on screen (EditorLayout.tsx line 225). */
  predicate CanRepair(ws: Workspace) {
    EditorLayout.MainOutput(ws.layout, ws.app.status).VerifyPanel?
  }

  /** The repository write succeeded: the site now serves `code`. */
  function AfterDeploy(served: map<string, string>, w: DeploymentWizard.Wizard, code: string, s: GithubService.Script): map<string, string> {
    if Truthy(w.token) && Truthy(w.repoPath) && GithubService.ReachesPages(s)
    then served[DeploymentWizard.PagesUrl(w.repoPath) := code]
    else served
  }

  /** One user action. */
  function Step(ws: Workspace, a: Action): Workspace {
    match a
    case Upload(dataUrl) =>
      var app := App.HandleUpload(ws.app, dataUrl);
      ws.(app := app, layout := EditorLayout.StatusEffect(ws.layout, app.status))
    case Generate(reply) => GenerateStep(ws, reply)
    case Select(tab) => ws.(layout := EditorLayout.SelectTab(ws.layout, tab, ws.app.status))
    case DeployFrom(w, s) => DeployStep(ws, w, s)
    case Repair(p, reply) => RepairStep(ws, p, reply)
  }

  /** A click on Generate or Retry. Both buttons are unavailable while
      LOADING and both call `handleGenerate`; the layout's status effect runs
      on the LOADING render and again on the settled status. */
  function GenerateStep(ws: Workspace, reply: Settled<Option<string>>): Workspace {
    if EditorLayout.GenerateDisabled(ws.app.image, ws.app.status) then ws
    else
      var g := App.HandleGenerate(ws.app, reply);
      if g.Skipped? then ws
      else
        var loading := EditorLayout.StatusEffect(ws.layout, g.during.status);
        ws.(app := g.after, layout := EditorLayout.StatusEffect(loading, g.after.status))
  }

  /** A click on the deployment panel's Deploy button. */
  function DeployStep(ws: Workspace, w: DeploymentWizard.Wizard, s: GithubService.Script): Workspace {
    if !CanDeploy(ws, w) then ws
    else
      var r := DeploymentWizard.HandleDeploy(w, ws.app.generatedCode, s);
      ws.(layout := Announce(ws.layout, r.announced),
          served := AfterDeploy(ws.served, w, ws.app.generatedCode, s))
  }

  /** A click on the verification panel's fix bar. */
  function RepairStep(ws: Workspace, p: LiveVerification.Panel, reply: Settled<Option<string>>): Workspace {
    if !CanRepair(ws) then ws
    else
      var r := LiveVerification.HandleFixAll(p, reply);
      if r.update.None? then ws
      else ws.(app := App.UpdateCode(ws.app, r.update.value), layout := EditorLayout.HandleFixedCode(ws.layout))
  }

  function Run(ws: Workspace, actions: seq<Action>): Workspace
    decreases |actions|
  {
    if actions == [] then ws else Run(Step(ws, actions[0]), actions[1..])
  }

  /** The invariant: while a generation stands and a deployed URL is kept,
      that site serves exactly the generated code. */
  predicate Current(ws: Workspace) {
    ws.app.status == SUCCESS && TruthyOpt(ws.layout.deployedUrl) ==>
      && ws.layout.deployedUrl.value in ws.served
      && ws.served[ws.layout.deployedUrl.value] == ws.app.generatedCode
  }

  /** The Generate button (EditorLayout.tsx lines 107-109): a click while it
      is disabled does nothing, and while it is enabled the generation runs. */
  lemma GenerateButton(ws: Workspace, reply: Settled<Option<string>>)
    ensures EditorLayout.GenerateDisabled(ws.app.image, ws.app.status) ==> GenerateStep(ws, reply) == ws
    ensures !EditorLayout.GenerateDisabled(ws.app.image, ws.app.status) ==>
      && App.HandleGenerate(ws.app, reply).Ran?
      && GenerateStep(ws, reply).app == App.HandleGenerate(ws.app, reply).after
  {
  }

  /** A generation that runs drops the deployed URL, whatever its outcome. */
  lemma GenerateForgetsSite(ws: Workspace, reply: Settled<Option<string>>)
    requires !EditorLayout.GenerateDisabled(ws.app.image, ws.app.status)
    ensures GenerateStep(ws, reply).layout.deployedUrl.None?
    ensures GenerateStep(ws, reply).layout.activeTab != VerifyTab
  {
    EditorLayout.StatusEffectIdempotent(ws.layout, LOADING);
  }

  /** A deploy that completes announces the repository's Pages URL, and that
      site serves the code on screen. */
  lemma DeployPublishes(ws: Workspace, w: DeploymentWizard.Wizard, s: GithubService.Script)
    requires CanDeploy(ws, w) && Truthy(w.token) && Truthy(w.repoPath) && GithubService.Completes(s)
    ensures var r := DeployStep(ws, w, s);
      && r.layout.deployedUrl == Some(DeploymentWizard.PagesUrl(w.repoPath))
      && r.served[DeploymentWizard.PagesUrl(w.repoPath)] == ws.app.generatedCode
      && r.app == ws.app
  {
  }

  /** A repair whose call succeeds puts the code it returned on screen and
      drops the deployed URL, since the site still serves the old page. */
  lemma RepairForgetsSite(ws: Workspace, p: LiveVerification.Panel, reply: Settled<Option<string>>)
    requires CanRepair(ws) && LiveVerification.HasFails(p.checkpoints) && reply.Resolved?
    ensures var r := RepairStep(ws, p, reply);
      && r.app.generatedCode == LiveVerification.HandleFixAll(p, reply).update.value
      && r.layout.deployedUrl.None? && r.layout.activeTab == PreviewTab
  {
  }

  lemma StepKeepsCurrent(ws: Workspace, a: Action)
    requires Current(ws)
    ensures Current(Step(ws, a))
  {
    match a
    case Generate(reply) =>
      if !EditorLayout.GenerateDisabled(ws.app.image, ws.app.status) {
        GenerateForgetsSite(ws, reply);
      }
    case DeployFrom(w, s) =>
      if CanDeploy(ws, w) && Truthy(w.token) && Truthy(w.repoPath) && GithubService.Completes(s) {
        DeployPublishes(ws, w, s);
      }
    case _ =>
  }

  /** From the first render on, whatever the user does, a kept deployed URL
      names a site serving the generated code. */
  lemma {:induction false} RunKeepsCurrent(ws: Workspace, actions: seq<Action>)
    requires Current(ws)
    ensures Current(Run(ws, actions))
    decreases |actions|
  {
    if actions != [] {
      StepKeepsCurrent(ws, actions[0]);
      RunKeepsCurrent(Step(ws, actions[0]), actions[1..]);
    }
  }

  /** The verification panel, whenever it is on screen after any sequence of
      actions, audits a site that serves the code on screen. */
  lemma AuditsWhatIsServed(actions: seq<Action>)
    ensures var ws := Run(Start, actions);
      CanRepair(ws) ==>
        var url := EditorLayout.MainOutput(ws.layout, ws.app.status).url;
        url in ws.served && ws.served[url] == ws.app.generatedCode
  {
    RunKeepsCurrent(Start, actions);
    var ws := Run(Start, actions);
    EditorLayout.PanelsNeedTheirState(ws.layout, ws.app.status);
  }
}
