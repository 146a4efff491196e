/** internal/protocol/schema: required fields and field types per message type. */
module Schema {
  import opened Bytes
  import opened Errors
  import opened Tlv

  const MSG_ISSUE: u32 := 1
  const MSG_COMMAND: u32 := 2
  const MSG_SEED_EXECUTE: u32 := 3
  const MSG_SEED_RESULT: u32 := 4
  const MSG_EVENT: u32 := 5
  const MSG_REPORT: u32 := 6
  const MSG_EVENT_ACK: u32 := 8

  const INTENT_ID: u16 := 1
  const COMMAND_ID: u16 := 2
  const EXECUTION_ID: u16 := 3
  const EVENT_ID: u16 := 4
  const PHASE: u16 := 5
  const TIMESTAMP_MS: u16 := 6
  const ACTOR: u16 := 100
  const TARGET_SCOPE: u16 := 101
  const OBJECTIVE: u16 := 102
  const GHOST_ID: u16 := 200
  const SEED_SELECTOR: u16 := 201
  const OPERATION: u16 := 202
  const ARGS: u16 := 203
  const SEED_ID: u16 := 300
  const SEED_EXECUTE_OPERATION: u16 := 301
  const SEED_EXECUTE_ARGS: u16 := 302
  const STATUS: u16 := 400
  const STDOUT: u16 := 401
  const STDERR: u16 := 402
  const EXIT_CODE: u16 := 403
  const OUTCOME: u16 := 500
  const SUMMARY: u16 := 600
  const COMPLETION_STATE: u16 := 601
  const ACK_STATUS: u16 := 700
  const ACK_CODE: u16 := 701

  datatype Requirement = Requirement(id: u16, typ: byte)

  function Text(id: u16): Requirement { Requirement(id, TYPE_STRING) }

  function Requirements(messageType: u32): Option<seq<Requirement>>
  {
    if messageType == MSG_ISSUE then
      Some([Text(INTENT_ID), Text(ACTOR), Text(TARGET_SCOPE), Text(OBJECTIVE)])
    else if messageType == MSG_COMMAND then
      Some([Text(COMMAND_ID), Text(INTENT_ID), Text(GHOST_ID), Text(SEED_SELECTOR), Text(OPERATION)])
    else if messageType == MSG_SEED_EXECUTE then
      Some([Text(EXECUTION_ID), Text(COMMAND_ID), Text(SEED_ID), Text(SEED_EXECUTE_OPERATION),
            Requirement(SEED_EXECUTE_ARGS, TYPE_BYTES)])
    else if messageType == MSG_SEED_RESULT then
      Some([Text(EXECUTION_ID), Text(SEED_ID), Text(STATUS), Requirement(STDOUT, TYPE_BYTES),
            Requirement(STDERR, TYPE_BYTES), Requirement(EXIT_CODE, TYPE_U32)])
    else if messageType == MSG_EVENT then
      Some([Text(EVENT_ID), Text(COMMAND_ID), Text(INTENT_ID), Text(GHOST_ID), Text(SEED_ID), Text(OUTCOME)])
    else if messageType == MSG_REPORT then
      Some([Text(INTENT_ID), Text(PHASE), Text(SUMMARY), Text(COMPLETION_STATE)])
    else if messageType == MSG_EVENT_ACK then
      Some([Text(EVENT_ID), Text(COMMAND_ID), Text(GHOST_ID), Text(ACK_STATUS), Requirement(TIMESTAMP_MS, TYPE_U64)])
    else None
  }

  predicate Meets(fs: seq<Field>, req: Requirement)
  {
    GetField(fs, req.id).Some? && GetField(fs, req.id).value.typ == req.typ
  }

  /** The error for a requirement that is not met. */
  function Complaint(messageType: u32, fs: seq<Field>, req: Requirement): Error
  {
    SchemaViolation(messageType, req.id, if GetField(fs, req.id).None? then MissingRequiredField else TypeMismatch)
  }

  /** The scan over `reqs[i..]`: it stops at the first requirement the fields miss. */
  function ViolationFrom(messageType: u32, reqs: seq<Requirement>, fs: seq<Field>, i: nat): (e: Option<Error>)
    requires i <= |reqs|
    ensures e.None? <==> forall j :: i <= j < |reqs| ==> Meets(fs, reqs[j])
    decreases |reqs| - i
  {
    if i == |reqs| then None
    else if GetField(fs, reqs[i].id).None? then Some(SchemaViolation(messageType, reqs[i].id, MissingRequiredField))
    else if GetField(fs, reqs[i].id).value.typ != reqs[i].typ then
      Some(SchemaViolation(messageType, reqs[i].id, TypeMismatch))
    else ViolationFrom(messageType, reqs, fs, i + 1)
  }

  /** The error names the first requirement, in table order, that the fields miss. */
  lemma {:induction false} FirstMissNamed(messageType: u32, reqs: seq<Requirement>, fs: seq<Field>, i: nat, miss: nat)
    requires i <= miss < |reqs| && !Meets(fs, reqs[miss])
    requires forall k :: i <= k < miss ==> Meets(fs, reqs[k])
    ensures ViolationFrom(messageType, reqs, fs, i) == Some(Complaint(messageType, fs, reqs[miss]))
    decreases |reqs| - i
  {
    if i < miss {
      FirstMissNamed(messageType, reqs, fs, i + 1, miss);
    }
  }

  function Validate(messageType: u32, fs: seq<Field>): Option<Error>
  {
    match Requirements(messageType)
    case None => Some(SchemaViolation(messageType, 0, UnknownMessageType))
    case Some(reqs) => ViolationFrom(messageType, reqs, fs, 0)
  }

  /** Fields that answer every lookup the table makes alike validate alike, to the same error. */
  lemma {:induction false} ViolationByLookups(messageType: u32, reqs: seq<Requirement>, fs: seq<Field>, gs: seq<Field>, i: nat)
    requires i <= |reqs|
    requires forall j :: i <= j < |reqs| ==> GetField(fs, reqs[j].id) == GetField(gs, reqs[j].id)
    ensures ViolationFrom(messageType, reqs, fs, i) == ViolationFrom(messageType, reqs, gs, i)
    decreases |reqs| - i
  {
    hide GetField;
    if i < |reqs| {
      ViolationByLookups(messageType, reqs, fs, gs, i + 1);
    }
  }
}
