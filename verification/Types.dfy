/** The values of internal/cdraft/types.go: log entries, identities, votes and results.
    Terms and indices are natural numbers. */
module Types {

  datatype Option<+T> = None | Some(value: T)

  /** The end of a log, as candidates and voters compare it. */
  datatype LogSummary = LogSummary(lastTerm: nat, lastIndex: nat) {
    predicate AtLeast(other: LogSummary) {
      if lastTerm != other.lastTerm then lastTerm > other.lastTerm else lastIndex >= other.lastIndex
    }
  }

  /** One leadership of one domain; `term` is the domain term that fences it. */
  datatype DomainIdentity = DomainIdentity(domain: string, node: string, term: nat) {
    predicate Valid() {
      domain != "" && node != "" && term > 0
    }
  }

  const NO_DOMAIN_LEADER := DomainIdentity("", "", 0)

  datatype GlobalIdentity = GlobalIdentity(domainLeader: DomainIdentity, term: nat) {
    predicate Valid() {
      domainLeader.Valid() && term > 0
    }
  }

  const NO_GLOBAL_LEADER := GlobalIdentity(NO_DOMAIN_LEADER, 0)

  datatype Role = Follower | Candidate | Leader
  datatype Stage = Booting | DomainElecting | DomainReady | GlobalElecting | Serving

  datatype Command = Command(key: string, value: string)

  /** The deterministic result replicated with a command. */
  function CommandResult(c: Command): string {
    c.key + "=" + c.value
  }

  datatype LogEntry = LogEntry(term: nat, index: nat, request: string, origin: string,
                               command: Command, result: string)

  datatype ResultSource = GlobalResponse | FastResponse

  datatype ClientResult = ClientResult(request: string, term: nat, index: nat, result: string,
                                       source: ResultSource, committed: bool, responder: string) {
    predicate SameDecision(other: ClientResult) {
      request == other.request && term == other.term && index == other.index && result == other.result
    }
  }

  datatype WriteRequest = WriteRequest(request: string, origin: string, command: Command)

  function Min(a: nat, b: nat): nat { if a < b then a else b }
  function Max(a: nat, b: nat): nat { if a < b then b else a }
}
