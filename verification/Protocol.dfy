/** The two message vocabularies of a PostgreSQL connection: what the backend
    sends, as the client decodes it, and what the frontend writes. */
module Protocol {

  type byte = b: int | 0 <= b < 256

  /** A backend message, reduced to what the client's bookkeeping reads. */
  datatype Event =
    | RowDescription(columns: nat)
    | DataRow(columns: nat)
    | CommandComplete
    | EmptyQuery
    | NoData
    | PortalSuspended
    | ErrorResponse
    | ReadyForQuery
    | CopyInResponse
    | CopyOutResponse
    | CopyBothResponse
    | CopyData
    | CopyDone
    | ParseComplete
    | BindComplete
    | CloseComplete
    | ParameterDescription
    | Notice
    | ParameterStatus
    | Unknown

  /** The kind of a frontend message. */
  datatype Tag =
    | Query
    | Parse
    | Bind
    | Describe
    | Execute
    | Close
    | Flush
    | Sync
    | Data        // CopyData
    | Done        // CopyDone
    | Fail        // CopyFail
    | Terminate

  /** A frontend message: its kind, and the text the backend interprets. */
  datatype Command = Command(tag: Tag, payload: seq<byte>)

  /** Frames are bounded to 16 MiB, the length field included. */
  const MAXIMUM_MESSAGE_SIZE := 16 * 1024 * 1024

  /** The two responses after which the client writes COPY data. */
  predicate StartsWritableCopy(e: Event) {
    e.CopyInResponse? || e.CopyBothResponse?
  }

  predicate StartsCopy(e: Event) {
    StartsWritableCopy(e) || e.CopyOutResponse?
  }
}
