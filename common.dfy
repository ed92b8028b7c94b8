/** Shared wrappers and the error taxonomy of the ledger engine. */
module Common {

  datatype Option<+T> = None | Some(value: T) {
    function GetOr(default: T): T {
      match this
      case Some(v) => v
      case None => default
    }
  }

  datatype Result<+R, +E> = Ok(value: R) | Err(error: E)

  datatype Outcome<+E> = Pass | Fail(error: E)

  /** The entity a by-name lookup failed to find. */
  datatype Entity =
    | CurrentUser
    | Recipient
    | User1
    | User2
    | ParentTag
    | TagPath
    | AgentName
    | OrderName

  /** A question the engine puts to its `ask_confirmation` callback. */
  datatype Question =
    | AgentMissing(agent: string)              // "Agent ... does not exist. Create?"
    | TagMissing(path: string)                 // "Tag ... does not exist. Create?"
    | ImportSummary(count: nat, user1Delta: int) // "... transactions imported, final balance difference ..."
    | Irreversible                             // "This operation is irreversible. Proceed?"

  /** What an engine operation raises; each operation is rolled back when it raises. */
  datatype Error =
    | InvalidName          // MpayValueError from a name sanitizer
    | InvalidAmount        // MpayValueError: order amount not positive
    | UnknownCurrency      // MpayValueError: original currency not in the table
    | NotFound(what: Entity) // MpayException / NoResultFound
    | MultipleFound        // MultipleResultsFound from a `.one()` query
    | SameUser             // MpayException: recipient is the current user
    | Declined(what: Entity) // confirmation declined for a missing entity
    | Cancelled            // import summary not confirmed
    | IntegrityError       // the store rejected the write (constraint or foreign key)
    | NotMonotonic         // AssertionError: recurrence did not move strictly forward
    | NoOccurrence         // IndexError: the recurrence rule has no first occurrence
}
