/**
 Values shared by the contract model: storage records, error codes, call
 outcomes, and the machine-integer bounds of the original's i128 and u32.
 */
module SplitTypes {
  import opened Options

  const I128_MAX: int := 0x7FFF_FFFF_FFFF_FFFF_FFFF_FFFF_FFFF_FFFF
  const U32_MAX: int := 0xFFFF_FFFF
  const TOTAL_BPS: int := 10_000
  const BUCKET_SIZE: int := 100
  const DEFAULT_MAX_COLLABORATORS: int := 50
  const MIN_MAX_COLLABORATORS: int := 2
  const MAX_MAX_COLLABORATORS: int := 200

  predicate FitsI128(x: int) {
    -I128_MAX - 1 <= x <= I128_MAX
  }

  datatype Address = Address(strkey: string)

  datatype Symbol = Symbol(name: string)

  datatype Collaborator = Collaborator(address: Address, alias: string, basisPoints: nat)

  datatype SplitProject = SplitProject(
    projectId: Symbol,
    title: string,
    projectType: string,
    token: Address,
    owner: Address,
    collaborators: seq<Collaborator>,
    locked: bool,
    totalDistributed: int,
    distributionRound: int)

  datatype SplitError =
    | ProjectExists | NotFound | AlreadyLocked | ProjectLocked
    | Unauthorized | NotACollaborator
    | InvalidSplit | TooFewCollaborators | ZeroShare | DuplicateCollaborator
    | InvalidAmount | InvalidRecipient | TooManyCollaborators
    | NoBalance | TokenNotAllowed | InsufficientUnallocated
    | AdminNotSet | DistributionsPaused
    | ArithmeticOverflow | AlreadyClaimed | InvalidMaxCollaborators

  /** One line of a batch report: the project and the error it met, if any. */
  datatype BatchRow = BatchRow(id: Symbol, error: Option<SplitError>)

  datatype Reply = Done | Amount(value: int) | Report(rows: seq<BatchRow>)

  /** A call returns a reply, returns an error, or traps in the host. */
  datatype Outcome = Ok(reply: Reply) | Err(error: SplitError) | Trap
}
