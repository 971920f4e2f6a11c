/** The instrument library (pyvisa) as the core sees it: every call into it
    either returns or raises, and the model receives that outcome as an
    input instead of performing bus I/O. */
module Visa {

  /** Outcome of `rm.open_resource(address)`: a new session, or the
      exception it raised. */
  datatype OpenOutcome = Opened(session: nat) | OpenFailed(reason: string)

  /** Outcome of `instr.query(command)`: the raw reply, or the exception. */
  datatype QueryOutcome = Answered(text: string) | QueryFailed(reason: string)

  /** Outcome of a call that returns nothing (`instr.close()`,
      `instr.write(command)`): it returned, or it raised. */
  datatype Outcome = Done | Raised(reason: string)

  /** How one bus resource behaves when it is opened, asked `*IDN?` and
      closed, as the discovery and connection-test functions see it. */
  datatype Probe =
    | CannotOpen(reason: string)
    | Session(reply: QueryOutcome, close: Outcome)

  /** The result of `rm.list_resources(...)`: the resource names in the
      order the library enumerates them, or the exception it raised. */
  datatype Listing = Listed(resources: seq<string>) | ListingFailed(reason: string)
}
