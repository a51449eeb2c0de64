/** The rows of a durable discussion run and the bounded texts they hold. */
module RunVocabulary {
  import opened Wrappers
  import opened Text

  const MAX_OUTPUT_BYTES: nat := 2 * 1024 * 1024
  const MAX_EVENT_BYTES: nat := 128 * 1024
  const CLI_INPUT_LIMIT_BYTES: nat := 24 * 1024
  const CLI_OUTPUT_LIMIT_BYTES: nat := 64 * 1024
  const HTTP_INPUT_LIMIT_BYTES: nat := 2 * 1024 * 1024
  const HTTP_OUTPUT_LIMIT_BYTES: nat := 2 * 1024 * 1024
  const MAX_ERROR_BYTES: nat := 4096

  const STOP_SETTLED_MESSAGE := "You stopped this response. Any partial text shown here is saved."
  const STOP_UNRESOLVED_MESSAGE := "This response was interrupted. Any partial text shown here is saved."
  const STALE_MESSAGE := "The story changed before this discussion started; the saved response was not dispatched."
  const REOPENED_MESSAGE := "The project was reopened before this discussion produced a complete response."

  datatype Error =
    | InvalidRequest | OutputTooLarge | InputTooLarge | OutputConflict | EventIdReused | SequenceConflict
    | RunNotStarted | RunStopping | RunSealed | RunAlreadyStarted | ContextChanged
    | ProviderResultRequired | ProviderResultConflict | ProviderBindingMissing
    | ProviderBindingMismatch | ProviderInputMismatch
    | LookupInvocationRequired | DiscussionRunNotFound | DiscussionProjectMismatch | AccessDenied
    | OperationIdReused | ConstraintViolation | UnsupportedProviderFeature

  datatype Status = Queued | Running | Stopping | Completed | Stopped | Failed | Interrupted {
    predicate Active() {
      Queued? || Running? || Stopping?
    }

    predicate Terminal() {
      !Active()
    }

    function Rank(): nat {
      if Queued? then 0 else if Running? then 1 else if Stopping? then 2 else 3
    }
  }

  datatype DispatchState = Pending | Claimed | Delivered

  datatype EventKind = ChunkEvent | TerminalEvent

  datatype Event = Event(sequence: nat, eventId: string, kind: EventKind, chunk: string)

  datatype Role = User | Assistant

  datatype Message = Message(role: Role, content: string, packetId: Option<string>)

  datatype Transport = Cli | Http

  datatype Binding = Binding(transport: Transport, profile: string) {
    function OutputLimit(): nat {
      if transport.Cli? then CLI_OUTPUT_LIMIT_BYTES else HTTP_OUTPUT_LIMIT_BYTES
    }

    function InputLimit(): nat {
      if transport.Cli? then CLI_INPUT_LIMIT_BYTES else HTTP_INPUT_LIMIT_BYTES
    }
  }

  predicate HttpBound(binding: Option<Binding>) {
    binding.Some? && binding.value.transport == Http
  }

  datatype ProviderStatus =
    ProviderCompleted | ProviderStopped | ProviderTimedOut | ProviderOutputLimit | ProviderFailed

  datatype Cleanup = Settled | Unresolved

  datatype Submission = NotSent | Uncertain | ResponseReceived

  /** HTTP delivery evidence: the fingerprint and size of the body that was sent. */
  datatype Delivery = Delivery(bodyHash: string, bodyBytes: nat, submission: Submission)

  datatype ProviderResult = ProviderResult(
    eventId: string,
    expectedSequence: nat,
    assistantText: string,
    binding: Binding,
    status: ProviderStatus,
    confirmedStdinBytes: nat,
    usage: Option<string>,
    cleanup: Cleanup,
    error: Option<string>,
    delivery: Option<Delivery>)

  datatype Owner = Owner(projectId: string, operationNamespace: string, runId: string)

  /** The immutable facts of the packet a run dispatches: its provider binding, the
      length of its serialized input, and the HTTP body prepared from it. */
  datatype Packet = Packet(packetId: string, binding: Option<Binding>, inputBytes: nat, bodyHash: string,
                           bodyBytes: nat)

  datatype RunRow = RunRow(
    owner: Owner,
    operationId: string,
    payloadHash: string,
    packet: Packet,
    lookup: bool,
    status: Status,
    dispatch: DispatchState,
    sequence: nat,
    outputText: string,
    stopReason: Option<string>)

  /** One run with its rows in the event, message and provider-result tables. */
  datatype Record = Record(run: RunRow, events: seq<Event>, messages: seq<Message>, result: Option<ProviderResult>)

  predicate IdChar(c: char) {
    'a' <= c <= 'z' || 'A' <= c <= 'Z' || '0' <= c <= '9' || c == '-' || c == '_'
  }

  predicate IdChars(s: string) {
    forall i :: 0 <= i < |s| ==> IdChar(s[i])
  }

  predicate CheckId(s: string) {
    1 <= |s| <= 64 && IdChars(s)
  }

  /** A freshly generated identifier: the 36 characters of a UUID. */
  predicate IsNewId(s: string) {
    |s| == 36 && IdChars(s)
  }

  predicate Control(c: char) {
    c as int < 0x20 || 0x7F <= c as int <= 0x9F
  }

  predicate ControlFree(s: string) {
    forall i :: 0 <= i < |s| ==> !Control(s[i])
  }

  predicate Sanitized(error: string) {
    error != "" && Utf8Len(error) <= MAX_ERROR_BYTES && ControlFree(error)
  }

  /** How a note is shown beside the text already saved. */
  function WithNote(text: string, note: string): string {
    if text == "" then note else text + "\n\n[" + note + "]"
  }

  lemma WithNoteKeepsText(text: string, note: string)
    ensures text <= WithNote(text, note)
  {
  }

  predicate BoundedNote(s: string) {
    s != "" && Utf8Len(s) <= MAX_EVENT_BYTES
  }

  lemma ShortTextsAreBounded(s: string)
    requires 1 <= |s| <= 1000
    ensures BoundedNote(s)
  {
    LengthBounds(s);
  }

  lemma SystemIdChecks(prefix: string, id: string)
    requires IsNewId(id) && IdChars(prefix) && |prefix| <= 28
    ensures CheckId(prefix + id)
  {
  }
}
