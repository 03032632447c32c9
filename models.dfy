/** The blocklist record shared by the store, the reconciler and the commands. */
module Models {

  /** One blocking decision. `timestamp` is the creation time in seconds; severity and source are
      kept as strings, because an imported batch may carry any value and the store rejects the
      ones outside its enumerations. */
  datatype Entry = Entry(
    id: string,
    username: string,
    reason: string,
    evidenceUrl: string,
    timestamp: int,
    blockedBy: string,
    severity: string,
    source: string,
    metadata: string)

  const SeverityLow: string := "low"
  const SeverityMedium: string := "medium"
  const SeverityHigh: string := "high"

  const SourceManual: string := "manual"
  const SourceImported: string := "imported"
  const SourceAutoDetected: string := "auto-detected"

  /** The metadata of a freshly created entry: an empty JSON object. */
  const EmptyMetadata: string := "{}"

  /** `NewBlocklistEntry`: the fresh UUID and the current time are taken as parameters. */
  function NewBlocklistEntry(id: string, now: int, username: string, reason: string, evidenceUrl: string,
                             blockedBy: string, severity: string, source: string): (e: Entry)
    ensures e.id == id && e.timestamp == now
    ensures e.username == username && e.reason == reason && e.evidenceUrl == evidenceUrl
    ensures e.blockedBy == blockedBy && e.severity == severity && e.source == source
    ensures e.metadata == "{}"
  {
    Entry(id, username, reason, evidenceUrl, now, blockedBy, severity, source, EmptyMetadata)
  }

  /** The three severities are distinct, and so are the three sources. */
  lemma ConstantsDistinct()
    ensures |{SeverityLow, SeverityMedium, SeverityHigh}| == 3
    ensures |{SourceManual, SourceImported, SourceAutoDetected}| == 3
  {
  }
}
