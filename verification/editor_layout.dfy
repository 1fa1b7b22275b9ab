/** The editor of components/EditorLayout.tsx: which output tab is open,
    which deployed URL the verification tab audits, and when that URL is
    dropped as stale. */
module EditorLayout {
  import opened JsString
  import opened Types

  /** The component's own state (lines 24-25). */
  datatype Layout = Layout(activeTab: TabType, deployedUrl: Option<string>)

  /** The first render: the preview tab, nothing deployed. */
  const Start: Layout := Layout(PreviewTab, None)

  /** `onDeploySuccess` (lines 41-43), handed to the deployment panel. */
  function OnDeploySuccess(l: Layout, url: string): (r: Layout)
    ensures r.deployedUrl == Some(url) && r.activeTab == l.activeTab
  {
    l.(deployedUrl := Some(url))
  }

  /** The layout part of `handleFixedCode` (lines 45-49): the repaired code
      goes to the app, the deployed site no longer shows it, and the preview
      opens. */
  function HandleFixedCode(l: Layout): (r: Layout)
    ensures r.deployedUrl.None? && r.activeTab == PreviewTab
  {
    l.(deployedUrl := None).(activeTab := PreviewTab)
  }

  /** The effect on `status` (lines 52-57): a generation starting drops the
      deployed URL and leaves the verification tab. */
  function StatusEffect(l: Layout, status: AppStatus): (r: Layout)
    ensures status != LOADING ==> r == l
    ensures status == LOADING ==> r.deployedUrl.None?
    ensures status == LOADING ==> r.activeTab == (if l.activeTab == VerifyTab then PreviewTab else l.activeTab)
  {
    if status == LOADING then
      var cleared := l.(deployedUrl := None);
      if cleared.activeTab == VerifyTab then cleared.(activeTab := PreviewTab) else cleared
    else l
  }

  /** The effect runs once per change of `status`; running it again would
      change nothing, so once per render with that status is the same. */
  lemma StatusEffectIdempotent(l: Layout, status: AppStatus)
    ensures StatusEffect(StatusEffect(l, status), status) == StatusEffect(l, status)
    ensures status == LOADING ==> StatusEffect(l, status).activeTab != VerifyTab
  {
  }

  /** Line 39. */
  predicate IsSuccess(status: AppStatus) {
    status == SUCCESS
  }

  /** The tab buttons (lines 137-175): preview and code always open; deploy
      only after a successful generation; verify is shown only while there is
      a deployed URL. */
  function SelectTab(l: Layout, tab: TabType, status: AppStatus): (r: Layout)
    ensures r.deployedUrl == l.deployedUrl
    ensures r.activeTab == tab || r == l
    ensures tab == PreviewTab || tab == CodeTab ==> r.activeTab == tab
    ensures tab == DeployTab ==> (r.activeTab == DeployTab <==> IsSuccess(status) || l.activeTab == DeployTab)
    ensures tab == VerifyTab ==> (r.activeTab == VerifyTab <==> TruthyOpt(l.deployedUrl) || l.activeTab == VerifyTab)
  {
    match tab
    case PreviewTab => l.(activeTab := PreviewTab)
    case CodeTab => l.(activeTab := CodeTab)
    case DeployTab => if IsSuccess(status) then l.(activeTab := DeployTab) else l
    case VerifyTab => if TruthyOpt(l.deployedUrl) then l.(activeTab := VerifyTab) else l
  }

  /** What fills the output area (lines 179-265). */
  datatype Output = Placeholder | Thinking | PreviewFrame | CodeView | DeployPanel | VerifyPanel(url: string) | Blank | GenerationFailed

  function MainOutput(l: Layout, status: AppStatus): Output {
    match status
    case IDLE => Placeholder
    case LOADING => Thinking
    case ERROR => GenerationFailed
    case SUCCESS =>
      match l.activeTab
      case PreviewTab => PreviewFrame
      case CodeTab => CodeView
      case DeployTab => DeployPanel
      case VerifyTab => if TruthyOpt(l.deployedUrl) then VerifyPanel(l.deployedUrl.value) else Blank
  }

  /** The verification panel appears only after a successful generation, on
      its tab, and audits the deployed URL; the deployment panel likewise
      only after a successful generation. */
  lemma PanelsNeedTheirState(l: Layout, status: AppStatus)
    ensures MainOutput(l, status).VerifyPanel? <==>
      status == SUCCESS && l.activeTab == VerifyTab && TruthyOpt(l.deployedUrl)
    ensures MainOutput(l, status).VerifyPanel? ==> l.deployedUrl == Some(MainOutput(l, status).url)
    ensures MainOutput(l, status) == DeployPanel <==> status == SUCCESS && l.activeTab == DeployTab
  {
  }

  /** `disabled` of the Generate button (line 109). */
  predicate GenerateDisabled(image: Option<string>, status: AppStatus) {
    !TruthyOpt(image) || status == LOADING
  }
}
