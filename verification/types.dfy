/** The shared declarations of types.ts. */
module Types {
  /** `AppStatus` (lines 7-12). */
  datatype AppStatus = IDLE | LOADING | SUCCESS | ERROR

  /** `TabType` (line 14). */
  datatype TabType = PreviewTab | CodeTab | DeployTab | VerifyTab
}
