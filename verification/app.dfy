/** The top-level state of App.tsx: the uploaded sketch, the generated code
    and the IDLE/LOADING/SUCCESS/ERROR status. The file reader and the
    generator are parameters. */
module App {
  import opened JsString
  import opened Types
  import opened GeminiService

  /** The app's state (lines 9-11). */
  datatype AppState = AppState(status: AppStatus, image: Option<string>, generatedCode: string)

  const Start: AppState := AppState(IDLE, None, "")

  /** `handleUpload` (lines 13-21) once the file reader has produced the data
      URL: a new sketch discards the old code and waits for a generation. */
  function HandleUpload(a: AppState, dataUrl: string): (r: AppState)
    ensures r.image == Some(dataUrl) && r.generatedCode == "" && r.status == IDLE
  {
    a.(image := Some(dataUrl)).(generatedCode := "").(status := IDLE)
  }

  /** A click on Generate: skipped without a sketch; otherwise the state
      while the generator works, the payload it is sent, and the state
      after. */
  datatype Generation = Skipped | Ran(during: AppState, payload: Option<string>, after: AppState)

  /** `handleGenerate` (lines 23-35), given the generator's reply. */
  function HandleGenerate(a: AppState, reply: Settled<Option<string>>): (r: Generation)
    ensures r.Skipped? <==> !TruthyOpt(a.image)
    ensures r.Ran? ==> r.during == a.(status := LOADING) && r.payload == ImagePayload(a.image.value)
    ensures r.Ran? ==> r.after.image == a.image
    ensures r.Ran? && reply.Resolved? ==>
      r.after.status == SUCCESS && r.after.generatedCode == PlainExtract(reply.value.GetOr(""))
      && IsTrimmed(r.after.generatedCode)
    ensures r.Ran? && reply.Rejected? ==> r.after.status == ERROR && r.after.generatedCode == a.generatedCode
  {
    if !TruthyOpt(a.image) then Skipped
    else
      var during := a.(status := LOADING);
      var payload := ImagePayload(a.image.value);
      match reply
      case Resolved(text) =>
        ExtractIsPlain(text.GetOr(""));
        Ran(during, payload, during.(generatedCode := CodeFromReply(reply).value).(status := SUCCESS))
      case Rejected(_) => Ran(during, payload, during.(status := ERROR))
  }

  /** `onUpdateCode={setGeneratedCode}` (line 48). */
  function UpdateCode(a: AppState, code: string): (r: AppState)
    ensures r.generatedCode == code && r.status == a.status && r.image == a.image
  {
    a.(generatedCode := code)
  }

  /** Only a successful generation leads to SUCCESS, and an upload always
      returns to IDLE with no code. */
  lemma StatusMeaning(a: AppState, dataUrl: string, reply: Settled<Option<string>>)
    ensures var g := HandleGenerate(a, reply);
      g.Ran? ==> (g.after.status == SUCCESS <==> reply.Resolved?) && (g.after.status == ERROR <==> reply.Rejected?)
    ensures HandleGenerate(HandleUpload(a, dataUrl), reply).Skipped? <==> dataUrl == ""
  {
  }
}
