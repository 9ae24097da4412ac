/** The monitoring page: the log table's text filter and the badge colours
    of log levels and service states. */
module Monitoring {
  import opened Common
  import opened Text
  import Seqs

  datatype LogLevel = Info | Warning | Error

  datatype LogEntry = LogEntry(id: string, timestamp: string, level: LogLevel, source: string, message: string)

  datatype ServiceState = Active | Down | Warning

  /** The filter test against an already lower-cased query: the query occurs
      in the lower-cased message or the lower-cased source. */
  predicate MatchesLowered(log: LogEntry, loweredQuery: string) {
    Contains(ToLower(log.message), loweredQuery) || Contains(ToLower(log.source), loweredQuery)
  }

  /** An entry passes the filter when the lower-cased filter text occurs in
      its lower-cased message or source. */
  predicate Matches(log: LogEntry, filter: string) {
    MatchesLowered(log, ToLower(filter))
  }

  /** The rows of the log table for a given filter text. */
  function FilterLogs(logs: seq<LogEntry>, filter: string): (r: seq<LogEntry>)
    ensures forall i :: 0 <= i < |r| ==> r[i] in logs && Matches(r[i], filter)
    ensures forall i :: 0 <= i < |logs| && Matches(logs[i], filter) ==> logs[i] in r
    ensures Seqs.IsSubsequence(r, logs)
    ensures forall x :: multiset(r)[x] == if Matches(x, filter) then multiset(logs)[x] else 0
  {
    var q := ToLower(filter);
    Seqs.Filter(logs, (log: LogEntry) => MatchesLowered(log, q))
  }

  /** An empty filter shows every entry, in order. */
  lemma EmptyFilterKeepsAll(logs: seq<LogEntry>)
    ensures FilterLogs(logs, "") == logs
  {
    assert ToLower("") == "";
    forall i | 0 <= i < |logs|
      ensures MatchesLowered(logs[i], "")
    {
      ContainsEmpty(ToLower(logs[i].message));
    }
  }

  /** One entry passes a filter text exactly when it passes the upper-cased
      text. */
  lemma MatchIgnoresCase(log: LogEntry, filter: string)
    ensures Matches(log, ToUpper(filter)) <==> Matches(log, filter)
  {
    LowerOfUpper(filter);
  }

  /** The filter ignores ASCII case: a query and its upper-case variant show
      the same rows. */
  lemma FilterIgnoresCase(logs: seq<LogEntry>, filter: string)
    ensures FilterLogs(logs, ToUpper(filter)) == FilterLogs(logs, filter)
  {
    LowerOfUpper(filter);
  }

  /** The level badge: info blue, warning orange, error red. */
  function LevelColor(level: LogLevel): (c: Color)
    ensures c == Blue <==> level == Info
    ensures c == Orange <==> level == LogLevel.Warning
    ensures c == Red <==> level == Error
  {
    match level
    case Info => Blue
    case Warning => Orange
    case Error => Red
  }

  /** The service badge: active green, warning yellow, anything else red. */
  function ServiceColor(state: ServiceState): (c: Color)
    ensures c == Green <==> state == Active
    ensures c == Yellow <==> state == ServiceState.Warning
    ensures c == Red <==> state == Down
  {
    match state
    case Active => Green
    case Warning => Yellow
    case Down => Red
  }
}
