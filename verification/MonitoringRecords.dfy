/**
 The immutable records of the monitoring store and their fingerprints.  A fingerprint is modelled
 as an injective constructor around what it is taken over, derived ids likewise, and a uuid as any
 number not yet in use.
 */
module MonitoringRecords {
  import opened Common
  import opened MonitoringConfig

  const MAX_ALERTS: nat := 5000
  const MAX_ACTIONS: nat := 10000
  const MAX_SCANS: nat := 2000
  const MAX_NOTIFICATIONS: nat := MAX_ALERTS + MAX_SCANS
  const MAX_NOTIFICATION_ACTIONS: nat := 15000

  // ----- rules and market evidence

  datatype RuleFingerprint = RuleFingerprint(id: RuleId, spec: RuleSpec)

  function FingerprintOf(r: Rule): RuleFingerprint {
    RuleFingerprint(r.id, r.spec)
  }

  /** A SHA-256 digest, as 64 hexadecimal digits. */
  type Digest = s: string | |s| == 64 witness seq(64, _ => '0')

  /** `market-<date>-<first twelve digits of the digest>` */
  datatype SnapshotId = SnapshotId(dataDate: Date, prefix: string)

  /** The evidence of one validated market snapshot. */
  datatype Evidence = Evidence(
    snapshotId: SnapshotId, manifest: Option<Digest>, digest: Digest,
    dataDate: Date, cutoff: Date, latestCommonSession: Date)

  datatype RuleState = RuleState(fingerprint: RuleFingerprint, triggered: bool, observed: Option<real>, dataDate: Date)

  // ----- scans and alerts

  datatype ScanId = DerivedScan(snapshotId: SnapshotId, config: ConfigFingerprint) | RandomScan(hex: nat)

  datatype AlertId = AlertId(scan: ScanId, rule: RuleId)

  datatype ScanStatus = Succeeded | Partial | Failed

  datatype SuppressReason = ConditionStillTrue | Cooldown

  datatype Suppression = Suppression(rule: RuleId, symbol: Symbol, reason: SuppressReason)

  datatype Exclusion = Exclusion(rule: Option<RuleId>, code: string)

  datatype Scan = Scan(
    id: ScanId, createdAt: Stamp, actor: string, sequence: nat, status: ScanStatus,
    configRevision: nat, config: ConfigFingerprint, evidence: Option<Evidence>,
    ruleStates: map<RuleId, RuleState>, triggered: seq<AlertId>,
    suppressed: seq<Suppression>, exclusions: seq<Exclusion>, error: Option<string>)

  datatype EvidenceFingerprint = EvidenceFingerprint(
    snapshotId: SnapshotId, manifest: Option<Digest>, source: Option<Digest>, rule: RuleFingerprint,
    observed: Option<real>, threshold: Option<real>, dataDate: Date)

  datatype Alert = Alert(
    id: AlertId, scanId: ScanId, evidence: Evidence, configRevision: nat, config: ConfigFingerprint,
    rule: RuleId, ruleFingerprint: RuleFingerprint, watchlistId: WatchlistId, symbol: Symbol, ruleType: RuleType,
    operator: Operator, threshold: Option<real>, severity: Severity, observed: Option<real>,
    source: string, sourceDigest: Option<Digest>, evidenceFingerprint: EvidenceFingerprint, triggeredAt: Stamp)

  // ----- notifications

  datatype Source = FromAlert(alert: AlertId) | FromFailedScan(scan: ScanId)

  datatype SourceFingerprint = OfAlert(alert: Alert) | OfScan(scan: Scan)

  datatype NotificationId = NotificationId(source: Source)

  datatype Notification = Notification(
    id: NotificationId, createdAt: Stamp, source: Source, sourceFingerprint: SourceFingerprint,
    evidence: Option<EvidenceFingerprint>, snapshotDigest: Option<Digest>, severity: Severity,
    symbol: Option<Symbol>, dataDate: Option<Date>, message: Option<string>)

  /** `_notification_from_alert` */
  function NotificationFromAlert(a: Alert): Notification {
    Notification(NotificationId(FromAlert(a.id)), a.triggeredAt, FromAlert(a.id), OfAlert(a),
                 Some(a.evidenceFingerprint), None, a.severity, Some(a.symbol), Some(a.evidence.dataDate), None)
  }

  /** `_notification_from_failed_scan` */
  function NotificationFromScan(s: Scan): Notification {
    Notification(NotificationId(FromFailedScan(s.id)), s.createdAt, FromFailedScan(s.id), OfScan(s), None,
                 if s.evidence.Some? then Some(s.evidence.value.digest) else None, Critical, None,
                 if s.evidence.Some? then Some(s.evidence.value.dataDate) else None, s.error)
  }

  // ----- actions on alerts and on notifications

  datatype Status = Open | Acknowledged | Snoozed | Dismissed | Unread | Read | Discarded

  datatype Verb = Acknowledge | Dismiss | Reopen | Snooze | Unsnooze | MarkRead | MarkUnread | Discard

  /** The transition tables of alerts and of notifications. */
  function AllowedFrom(v: Verb): set<Status> {
    match v
    case Acknowledge => {Open, Snoozed}
    case Dismiss => {Open, Acknowledged, Snoozed}
    case Reopen => {Acknowledged, Dismissed}
    case Snooze => {Open}
    case Unsnooze => {Snoozed}
    case MarkRead => {Unread}
    case MarkUnread => {Read}
    case Discard => {Unread, Read}
  }

  function TargetOf(v: Verb): Status {
    match v
    case Acknowledge => Acknowledged
    case Dismiss => Dismissed
    case Reopen => Open
    case Snooze => Snoozed
    case Unsnooze => Open
    case MarkRead => Read
    case MarkUnread => Unread
    case Discard => Discarded
  }

  datatype Subject = OnAlert(alert: AlertId) | OnNotification(notification: NotificationId)

  datatype SubjectFingerprint = AlertFingerprint(alert: Alert) | NotificationFingerprint(notification: Notification)

  datatype Action = Action(
    id: nat, subject: Subject, createdAt: Stamp, sequence: nat, actor: string, verb: Verb,
    from: Status, to: Status, note: string, snoozeUntil: Option<Date>, binding: SubjectFingerprint)

  /** What `_validate_action_record` accepts. */
  predicate Lawful(a: Action) {
    && a.from in AllowedFrom(a.verb)
    && a.to == TargetOf(a.verb)
    && (a.verb.Snooze? <==> a.snoozeUntil.Some?)
  }

  /** The fingerprint a writer must present: the record and its whole action history. */
  datatype StateFingerprint = StateFingerprint(subject: SubjectFingerprint, history: seq<Action>)

  // ----- the transaction marker

  datatype Marker = Marker(scanId: ScanId, scan: Scan, alerts: seq<Alert>)
}
