/** The durable rows, the captured manifest and the error taxonomy that every
    other module speaks about. */
module Model {

  datatype Option<+T> = None | Some(value: T)

  /** Process exit codes. */
  datatype Exit =
    | OK | USAGE | VALIDATION | MIGRATION_FAILED | UNKNOWN_OUTCOME
    | LOCK_NOT_ACQUIRED | NOT_INITIALIZED | METADATA_DAMAGED | CONTRACT_VIOLATION

  /** Everything that can travel as a Python exception through a run: the
      tool's own errors, the two classes of raw driver error, anything else
      author code raises, and the two `BaseException`s that are not
      `Exception`s. */
  datatype Error =
    | UnknownOutcome(operation: string)
    | ContractViolation(phase: string)
    | MigrationFailed(phase: string)
    | Usage(what: string)
    | Validation(what: string)
    | RecoveryRequired(id: string)
    | MetadataDamaged(what: string)
    | LockNotAcquired
    | Rejected
    | CommunicationLost
    | AuthorError
    | Interrupt
    | SystemExit
  {
    /** Subclasses of `Migr8Error`: the ones that carry an exit code. */
    predicate IsOwn() {
      UnknownOutcome? || ContractViolation? || MigrationFailed? || Usage? || Validation?
      || RecoveryRequired? || MetadataDamaged? || LockNotAcquired?
    }

    /** Caught by `except Exception`. */
    predicate IsException() {
      !Interrupt? && !SystemExit?
    }

    function ExitCode(): Exit
      requires IsOwn()
    {
      match this
      case UnknownOutcome(_) => UNKNOWN_OUTCOME
      case ContractViolation(_) => CONTRACT_VIOLATION
      case MigrationFailed(_) => MIGRATION_FAILED
      case Usage(_) => USAGE
      case Validation(_) => VALIDATION
      case RecoveryRequired(_) => VALIDATION
      case MetadataDamaged(_) => METADATA_DAMAGED
      case LockNotAcquired => LOCK_NOT_ACQUIRED
    }
  }

  /** How a call ends: normally, or by raising. */
  datatype Outcome = Done | Raised(error: Error)
  {
    predicate IsFailure() { Raised? }
    function PropagateFailure(): Outcome
      requires Raised?
    {
      this
    }
  }

  /** A call that returns a value, or raises. */
  datatype Result<+T> = Returned(value: T) | Threw(error: Error)
  {
    predicate IsFailure() { Threw? }
    function PropagateFailure(): Outcome
      requires Threw?
    {
      Raised(error)
    }
    function Extract(): T
      requires Returned?
    {
      value
    }
  }

  const LAYOUT_VERSION: int := 1

  datatype Status = ACTIVE | SUCCESS | UnsupportedStatus(text: string)
  datatype Language = SQL | PYTHON | UnsupportedLanguage(text: string)
  datatype Mode = ATOMIC | RESTARTABLE | UnsupportedMode(text: string)

  /** One history row as stored.  Runner diagnostics are not modelled. */
  datatype HistoryRow = HistoryRow(
    seqno: int,
    id: string,
    fingerprint: string,
    firstFingerprint: string,
    language: Language,
    mode: Mode,
    status: Status,
    attempt: Option<int>,
    startedAt: Option<nat>,
    lastAttemptAt: Option<nat>,
    finishedAt: Option<nat>)

  datatype ProgressRow = ProgressRow(id: string, key: string, value: string)

  /** All metadata rows at one moment; `layout` is the marker's version. */
  datatype Snapshot = Snapshot(history: seq<HistoryRow>, progress: seq<ProgressRow>, layout: Option<int>)

  /** One captured manifest entry. */
  datatype Unit = Unit(
    id: string,
    position: nat,
    fingerprint: string,
    language: Language,
    mode: Mode,
    requiresObjects: bool)

  predicate LowerHexDigit(c: char) {
    '0' <= c <= '9' || 'a' <= c <= 'f'
  }

  /** `fp1:` followed by exactly 64 lower-case hexadecimal digits. */
  predicate SupportedFingerprint(value: string) {
    && |value| == 68
    && value[..4] == "fp1:"
    && forall i | 4 <= i < 68 :: LowerHexDigit(value[i])
  }

  /** What loading a manifest and fingerprinting its units guarantees. */
  ghost predicate WellFormedCapture(units: seq<Unit>) {
    && (forall i | 0 <= i < |units| ::
          && units[i].position == i + 1
          && SupportedFingerprint(units[i].fingerprint)
          && (units[i].language.SQL? || units[i].language.PYTHON?)
          && (units[i].mode.ATOMIC? || units[i].mode.RESTARTABLE?))
    && (forall i, j | 0 <= i < j < |units| :: units[i].id != units[j].id)
  }
}
