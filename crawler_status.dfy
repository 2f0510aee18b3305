/** The crawler's verdict on a domain and the indexing state it maps to
    (CrawlerDomainStatus.valueOf followed by the switch in getState). */
module CrawlerStatus {
  import opened Common

  /** The crawl outcome recorded for a domain. */
  datatype CrawlerDomainStatus = Ok | Error | Blocked | Redirect

  /** How the index treats the domain. */
  datatype DomainIndexingState = Active | Redir | BlockedState | ErrorState

  /** The enum constant's name, as Enum.name() gives it. */
  function Name(s: CrawlerDomainStatus): string {
    match s
    case Ok => "OK"
    case Error => "ERROR"
    case Blocked => "BLOCKED"
    case Redirect => "REDIRECT"
  }

  /** CrawlerDomainStatus.valueOf: the constant with exactly this name, or
      None where Java throws IllegalArgumentException. */
  function ValueOf(name: string): (r: Option<CrawlerDomainStatus>)
    ensures r.Some? ==> Name(r.value) == name
    ensures r.None? ==> forall s :: Name(s) != name
  {
    if name == "OK" then Some(Ok)
    else if name == "ERROR" then Some(Error)
    else if name == "BLOCKED" then Some(Blocked)
    else if name == "REDIRECT" then Some(Redirect)
    else None
  }

  /** The switch of getState: OK, REDIRECT and BLOCKED have their own state,
      every other constant is an error. */
  function GetState(s: CrawlerDomainStatus): DomainIndexingState {
    match s
    case Ok => Active
    case Redirect => Redir
    case Blocked => BlockedState
    case _ => ErrorState
  }

  /** getState applied to the crawler's status string: None where valueOf throws. */
  function StateForStatus(crawlerStatus: string): (r: Option<DomainIndexingState>)
    ensures r == Some(Active) <==> crawlerStatus == "OK"
    ensures r == Some(Redir) <==> crawlerStatus == "REDIRECT"
    ensures r == Some(BlockedState) <==> crawlerStatus == "BLOCKED"
    ensures r == Some(ErrorState) <==> crawlerStatus == "ERROR"
    ensures r.None? <==> crawlerStatus !in {"OK", "ERROR", "BLOCKED", "REDIRECT"}
  {
    match ValueOf(crawlerStatus)
    case None => None
    case Some(s) => Some(GetState(s))
  }
}
