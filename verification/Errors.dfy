/** Go's error returns. One constructor per sentinel error or distinct failure of the modelled code. */
module Errors {
  datatype SchemaReason = UnknownMessageType | MissingRequiredField | TypeMismatch

  datatype Error =
    // frame
    | ShortHeader | HeaderLenTooSmall | HeaderLenMismatch | PayloadTooLarge | AuthTooLarge
    | UnsupportedMagic | UnsupportedVersion | UnsupportedFlags | BadHeaderLength | UnexpectedEnd
    // tlv, schema and session payloads
    | ShortFieldHeader | ShortFieldValue | BadIntegerLength | BadArgs
    | SchemaViolation(messageType: nat, fieldID: nat, reason: SchemaReason)
    | MissingField(name: string)
    // mirage orchestration
    | InvalidMirageID | InvalidIssue | IntentNotFound | TargetGhostRequired | NoExecutor
    // ghost
    | InvalidGhostID | LifecycleOrder | SeedRegistryMissing
    | NotRadiating | CommandTargetMismatch | DuplicateCommandID | DuplicateMessageID
    | MissingExecution | MissingCommandFrame
    // event delivery and transport
    | Transport | AckRejected | AckTimeout | AckMismatch | SessionClosed | Cancelled | RegistrationRejected

  datatype Result<+T> = Ok(value: T) | Err(error: Error) {
    predicate IsFailure() { Err? }

    function PropagateFailure<U>(): Result<U>
      requires Err?
    {
      Err(error)
    }

    function Extract(): T
      requires Ok?
    {
      value
    }
  }

  datatype Option<+T> = None | Some(value: T)
}
