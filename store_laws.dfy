/**
 * What `save_report` and `report_qr` do to the three tables, stated over the functions
 * `Saved` and `Reported` that the `Store` methods are proved to implement.
 */
module StoreLaws {

  import opened Optional
  import opened UrlAnalysis
  import opened RecordStore

  /** A statement that raises (a value wider than its column) leaves every table as it was. */
  lemma SaveUnstorable(db: Db, a: Analysis, now: int)
    requires !Storable(a)
    ensures Saved(db, a, now) == db
  {
  }

  /** The first scan of a URL adds exactly one `reports` row, with count 1 and the new analysis. */
  lemma SaveCreatesReport(db: Db, a: Analysis, now: int)
    requires Storable(a) && a.originalUrl !in db.reports.rows
    ensures var r := Saved(db, a, now).reports.rows;
            && r.Keys == db.reports.rows.Keys + {a.originalUrl}
            && r[a.originalUrl].count == 1 && r[a.originalUrl].reportedCount == 0
            && r[a.originalUrl].createdAt == now && CarriesAnalysis(r[a.originalUrl], a)
            && (forall u | u in db.reports.rows :: r[u] == db.reports.rows[u])
  {
  }

  /**
   * A later scan of the same URL adds one to its count and overwrites the analysis columns;
   * the row keeps its id and creation time, and no other row changes.
   */
  lemma SaveRefreshesReport(db: Db, a: Analysis, now: int)
    requires Storable(a) && a.originalUrl in db.reports.rows
    ensures var r := Saved(db, a, now).reports.rows;
            var before := db.reports.rows[a.originalUrl];
            && r.Keys == db.reports.rows.Keys
            && r[a.originalUrl].count == before.count + 1
            && CarriesAnalysis(r[a.originalUrl], a)
            && r[a.originalUrl].id == before.id && r[a.originalUrl].createdAt == before.createdAt
            && r[a.originalUrl].reportedCount == before.reportedCount
            && (forall u | u in db.reports.rows && u != a.originalUrl :: r[u] == db.reports.rows[u])
  {
  }

  /**
   * A scan deletes nothing and lowers no count; it never changes a `suspected` or
   * `warning` row that is already there.
   */
  lemma SaveKeepsRows(db: Db, a: Analysis, now: int)
    ensures var d := Saved(db, a, now);
            && (forall u | u in db.reports.rows ::
                  u in d.reports.rows && d.reports.rows[u].count >= db.reports.rows[u].count)
            && (forall u | u in db.suspected.rows ::
                  u in d.suspected.rows && d.suspected.rows[u] == db.suspected.rows[u])
            && (forall u | u in db.warning.rows ::
                  u in d.warning.rows && d.warning.rows[u] == db.warning.rows[u])
  {
  }

  /**
   * A report never touches `reports` and never deletes or changes a `warning` row; the
   * only rows it deletes are `suspected` ones.
   */
  lemma ReportKeepsRows(db: Db, url: Option<string>)
    ensures var d := Reported(db, url).0;
            && d.reports == db.reports
            && (forall u | u in db.warning.rows ::
                  u in d.warning.rows && d.warning.rows[u] == db.warning.rows[u])
            && d.suspected.rows.Keys <= db.suspected.rows.Keys
  {
  }

  /**
   * A suspicious scan leaves the URL in `suspected`: a row already there is left exactly as
   * it was (no refresh, no counter), otherwise a fresh row with no reports is added.
   * `warning` is not touched.
   */
  lemma SuspiciousScan(db: Db, a: Analysis, now: int)
    requires Storable(a) && a.verdict == Some(Suspicious)
    ensures var d := Saved(db, a, now);
            && a.originalUrl in d.suspected.rows
            && (a.originalUrl in db.suspected.rows ==> d.suspected == db.suspected)
            && (a.originalUrl !in db.suspected.rows ==>
                  d.suspected.rows == db.suspected.rows[a.originalUrl := d.suspected.rows[a.originalUrl]] &&
                  CarriesAnalysis(d.suspected.rows[a.originalUrl], a) &&
                  d.suspected.rows[a.originalUrl].reportedCount == 0 &&
                  d.suspected.rows[a.originalUrl].count == 1)
            && d.warning == db.warning
  {
  }

  /**
   * A dangerous scan leaves the URL in `warning` (a row already there wins) and does not
   * touch `suspected`, whatever the URL's history.
   */
  lemma DangerousScan(db: Db, a: Analysis, now: int)
    requires Storable(a) && a.verdict == Some(Dangerous)
    ensures var d := Saved(db, a, now);
            && a.originalUrl in d.warning.rows
            && (a.originalUrl in db.warning.rows ==> d.warning == db.warning)
            && (a.originalUrl !in db.warning.rows ==>
                  d.warning.rows == db.warning.rows[a.originalUrl := d.warning.rows[a.originalUrl]] &&
                  CarriesAnalysis(d.warning.rows[a.originalUrl], a))
            && d.suspected == db.suspected
  {
  }

  /** Scanning a dangerous URL again changes neither `suspected` nor `warning`. */
  lemma DangerousScanIdempotent(db: Db, a: Analysis, now: int, later: int)
    requires a.verdict == Some(Dangerous)
    ensures var once := Saved(db, a, now);
            var twice := Saved(once, a, later);
            twice.warning == once.warning && twice.suspected == once.suspected
  {
    if Storable(a) {
      DangerousScan(db, a, now);
      DangerousScan(Saved(db, a, now), a, later);
    }
  }

  /** A safe verdict, or none at all, changes only `reports`. */
  lemma OtherVerdictScan(db: Db, a: Analysis, now: int)
    requires a.verdict != Some(Suspicious) && a.verdict != Some(Dangerous)
    ensures Saved(db, a, now).suspected == db.suspected
    ensures Saved(db, a, now).warning == db.warning
  {
  }

  /** A request without a URL (absent or empty) is a 400 and changes nothing. */
  lemma ReportWithoutUrl(db: Db, url: Option<string>)
    requires url.None? || url.value == ""
    ensures Reported(db, url) == (db, UrlMissing)
  {
  }

  /** A URL that is not in `suspected` is a 400 and changes nothing. */
  lemma ReportNotSuspected(db: Db, u: string)
    requires u != "" && u !in db.suspected.rows
    ensures Reported(db, Some(u)) == (db, NotReportable)
  {
  }

  /** Below the threshold the report is counted in place and nothing else changes. */
  lemma ReportBelowThreshold(db: Db, u: string)
    requires u != "" && u in db.suspected.rows
    requires db.suspected.rows[u].reportedCount + 1 < ReportThreshold
    ensures var (d, outcome) := Reported(db, Some(u));
            var before := db.suspected.rows[u];
            && outcome == Counted(before.reportedCount + 1)
            && d.suspected.rows == db.suspected.rows[u := before.(reportedCount := before.reportedCount + 1)]
            && d.warning == db.warning && d.reports == db.reports
  {
  }

  /**
   * At the threshold the URL leaves `suspected`, and the answer is still the new count.
   * It is in `warning` afterwards exactly when it was there already or no `warning` row
   * has the id of its `suspected` row; the copied row is the `suspected` row as stored,
   * whose `reported_count` is the one before this report.
   */
  lemma ReportAtThreshold(db: Db, u: string)
    requires u != "" && u in db.suspected.rows
    requires db.suspected.rows[u].reportedCount + 1 >= ReportThreshold
    ensures var (d, outcome) := Reported(db, Some(u));
            var before := db.suspected.rows[u];
            && outcome == Counted(before.reportedCount + 1)
            && d.suspected.rows == db.suspected.rows - {u}
            && (u in d.warning.rows <==> u in db.warning.rows || before.id !in Ids(db.warning))
            && (u !in db.warning.rows && before.id !in Ids(db.warning) ==> d.warning.rows[u] == before)
            && (forall v | v in db.warning.rows :: v in d.warning.rows && d.warning.rows[v] == db.warning.rows[v])
            && d.reports == db.reports
  {
  }

  /**
   * Starting from a fresh `suspected` row, three reports answer 1, 2 and 3 and take the URL
   * out of `suspected`; a fourth is rejected and changes nothing; a later suspicious scan
   * puts a fresh row with no reports back.
   */
  lemma ThreeReportsEscalate(db: Db, u: string, a: Analysis, now: int)
    requires u != "" && u in db.suspected.rows && db.suspected.rows[u].reportedCount == 0
    requires a.originalUrl == u && a.verdict == Some(Suspicious) && Storable(a)
    ensures var (d1, o1) := Reported(db, Some(u));
            var (d2, o2) := Reported(d1, Some(u));
            var (d3, o3) := Reported(d2, Some(u));
            var (d4, o4) := Reported(d3, Some(u));
            && o1 == Counted(1) && o2 == Counted(2) && o3 == Counted(3)
            && u !in d3.suspected.rows
            && o4 == NotReportable && d4 == d3
            && u in Saved(d3, a, now).suspected.rows
            && Saved(d3, a, now).suspected.rows[u].reportedCount == 0
  {
    var (d1, o1) := Reported(db, Some(u));
    ReportBelowThreshold(db, u);
    var (d2, o2) := Reported(d1, Some(u));
    ReportBelowThreshold(d1, u);
    var (d3, o3) := Reported(d2, Some(u));
    ReportAtThreshold(d2, u);
    ReportNotSuspected(d3, u);
    SuspiciousScan(d3, a, now);
  }

  /** The tables after `n` scans of the same analysis. */
  function Rescanned(db: Db, a: Analysis, now: int, n: nat): Db
  {
    if n == 0 then db else Saved(Rescanned(db, a, now, n - 1), a, now)
  }

  /** `n` scans of a URL add `n` to its count in `reports`, starting from 0 for a new URL. */
  lemma {:induction false} RepeatedScansCount(db: Db, a: Analysis, now: int, n: nat)
    requires Storable(a) && n >= 1
    ensures var r := Rescanned(db, a, now, n).reports.rows;
            && a.originalUrl in r
            && r[a.originalUrl].count ==
                 n + (if a.originalUrl in db.reports.rows then db.reports.rows[a.originalUrl].count else 0)
  {
    if n == 1 {
      if a.originalUrl in db.reports.rows {
        SaveRefreshesReport(db, a, now);
      } else {
        SaveCreatesReport(db, a, now);
      }
    } else {
      RepeatedScansCount(db, a, now, n - 1);
      SaveRefreshesReport(Rescanned(db, a, now, n - 1), a, now);
    }
  }

  /**
   * Repeated suspicious scans never escalate: after any number of them the URL's
   * `suspected` table is what the first scan left, and `warning` is untouched. Only user
   * reports move a suspected URL to `warning`.
   */
  lemma {:induction false} RepeatedSuspiciousScans(db: Db, a: Analysis, now: int, n: nat)
    requires Storable(a) && a.verdict == Some(Suspicious) && n >= 1
    ensures Rescanned(db, a, now, n).suspected == Saved(db, a, now).suspected
    ensures Rescanned(db, a, now, n).warning == db.warning
    ensures a.originalUrl in Rescanned(db, a, now, n).suspected.rows
  {
    SuspiciousScan(db, a, now);
    if n > 1 {
      RepeatedSuspiciousScans(db, a, now, n - 1);
      SuspiciousScan(Rescanned(db, a, now, n - 1), a, now);
    }
  }
}
