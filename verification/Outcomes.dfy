/** The results the store and the protocol functions hand back: a value that may be
    absent, or a value or one of the error codes that refuse a call. */
module Outcomes {

  datatype Option<+T> = None | Some(value: T)

  datatype Error =
    | Validation
    | JobNotFound
    | QueueConflict
    | QuotaExceeded
    | WorkspaceDisabled
    | VersionNotFound
    | VersionRetired
    | VersionInUse
    | BundleMismatch
    | BundleNotFound
    | ManifestNotFound
    | ManifestInvalid
    | Unwritable
    | EntrypointNotFound
    | PromotionBlocked
    | EnvironmentNotFound
    | KeyNotFound
    | KeyWorkspaceMismatch
    | InvalidToken
    | ApprovalNotFound
    | ApprovalNotPending
    | RunNotFound
    | RunNotPaused

  datatype Result<+T> = Ok(value: T) | Err(error: Error)

  /** Python's truthiness test on an optional string: absent and empty are the same. */
  predicate Truthy(s: Option<string>) {
    s.Some? && s.value != ""
  }
}
