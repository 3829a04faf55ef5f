/**
 * The three tables `reports`, `suspected` and `warning`, and the two operations that
 * change them: `save_report` (after every scan) and the state logic of `report_qr`
 * (a user report against a suspected URL). Each table is keyed by `original_url`, which
 * the schema makes unique; each row also carries its own auto-increment `id`.
 * A route's effect is one atomic step: the source swallows every exception before
 * `commit`, so a statement that fails leaves all three tables as they were.
 */
module RecordStore {

  import opened Optional
  import opened UrlAnalysis

  /** One row of any of the three tables (they share one schema). */
  datatype Row = Row(
    id: nat,
    finalUrl: Option<string>,
    domain: Option<string>,
    sslValid: bool,
    whoisCreationDate: Option<string>,
    virustotalScore: Option<string>,
    phishtankResult: bool,
    verdict: Option<Label>,      // the `label` column
    count: nat,                  // DEFAULT 1
    analysisJson: Analysis,      // `json.dumps(analysis_result)`, kept as the value it serialises
    createdAt: int,              // DEFAULT CURRENT_TIMESTAMP
    reportedCount: nat)          // DEFAULT 0

  /** A table: its rows by `original_url`, and the next value its AUTO_INCREMENT hands out. */
  datatype Table = Table(rows: map<string, Row>, nextId: nat)

  datatype Db = Db(reports: Table, suspected: Table, warning: Table)

  /** What `report_qr` answers: 400 for a missing URL, 400 for a URL not in `suspected`, or 200 with the new count. */
  datatype ReportOutcome = UrlMissing | NotReportable | Counted(current: nat)

  /** Reports needed to move a suspected URL to `warning`. */
  const ReportThreshold: nat := 3

  /** The tables as `init_db` creates them: empty, AUTO_INCREMENT starting at 1. */
  const EmptyDb: Db := Db(Table(map[], 1), Table(map[], 1), Table(map[], 1))

  /**
   * The VARCHAR widths of the schema. Under MySQL's default strict SQL mode a longer
   * value makes the statement raise, and `save_report` then changes nothing.
   */
  predicate Storable(a: Analysis) {
    |a.originalUrl| <= 512 &&
    (a.finalUrl.Some? ==> |a.finalUrl.value| <= 512) &&
    (a.domain.Some? ==> |a.domain.value| <= 255) &&
    (a.whoisCreationDate.Some? ==> |a.whoisCreationDate.value| <= 128) &&
    (a.virustotalScore.Some? ==> |a.virustotalScore.value| <= 128)
  }

  /** The columns a row takes from the analysis it was written from. */
  predicate CarriesAnalysis(r: Row, a: Analysis) {
    r.finalUrl == a.finalUrl && r.domain == a.domain && r.sslValid == a.sslValid &&
    r.whoisCreationDate == a.whoisCreationDate && r.virustotalScore == a.virustotalScore &&
    r.phishtankResult == a.phishtankResult && r.verdict == a.verdict && r.analysisJson == a
  }

  /** The row an `INSERT ... VALUES` of the analysis creates: the unlisted columns take their defaults. */
  function NewRow(a: Analysis, id: nat, now: int): (r: Row)
    ensures CarriesAnalysis(r, a)
  {
    Row(id, a.finalUrl, a.domain, a.sslValid, a.whoisCreationDate, a.virustotalScore,
        a.phishtankResult, a.verdict, 1, a, now, 0)
  }

  /** The `UPDATE reports SET count=count+1, ...` of an existing row. */
  function Refreshed(r: Row, a: Analysis): Row
  {
    r.(count := r.count + 1, finalUrl := a.finalUrl, domain := a.domain, sslValid := a.sslValid,
       whoisCreationDate := a.whoisCreationDate, virustotalScore := a.virustotalScore,
       phishtankResult := a.phishtankResult, verdict := a.verdict, analysisJson := a)
  }

  /** `INSERT IGNORE ... VALUES`: a row already there under this URL wins, and nothing changes. */
  function InsertIgnore(t: Table, url: string, a: Analysis, now: int): Table
  {
    if url in t.rows then t
    else Table(t.rows[url := NewRow(a, t.nextId, now)], t.nextId + 1)
  }

  /** The `reports` step of `save_report`: increment and overwrite, or insert. */
  function UpsertReports(t: Table, a: Analysis, now: int): Table
  {
    var url := a.originalUrl;
    if url in t.rows then t.(rows := t.rows[url := Refreshed(t.rows[url], a)])
    else Table(t.rows[url := NewRow(a, t.nextId, now)], t.nextId + 1)
  }

  /** `save_report(analysis_result)` at time `now`. */
  function Saved(db: Db, a: Analysis, now: int): Db
  {
    if !Storable(a) then db
    else
      var url := a.originalUrl;
      Db(UpsertReports(db.reports, a, now),
         if a.verdict == Some(Suspicious) then InsertIgnore(db.suspected, url, a, now) else db.suspected,
         if a.verdict == Some(Dangerous) then InsertIgnore(db.warning, url, a, now) else db.warning)
  }

  function Ids(t: Table): set<nat>
  {
    set u | u in t.rows :: t.rows[u].id
  }

  /**
   * `INSERT IGNORE INTO warning SELECT * FROM suspected WHERE id=...`: the row is copied
   * with its own `id`, so it is ignored when `warning` already has this URL or this id.
   * An explicit id raises the AUTO_INCREMENT counter past it.
   */
  function CopyIgnore(t: Table, url: string, r: Row): Table
  {
    if url in t.rows || r.id in Ids(t) then t
    else Table(t.rows[url := r], if r.id + 1 > t.nextId then r.id + 1 else t.nextId)
  }

  /** `report_qr` for the JSON field `url` (`None` when absent): the new tables and the answer. */
  function Reported(db: Db, url: Option<string>): (Db, ReportOutcome)
  {
    if url.None? || url.value == "" then (db, UrlMissing)
    else if url.value !in db.suspected.rows then (db, NotReportable)
    else
      var u := url.value;
      var row := db.suspected.rows[u];
      var n := row.reportedCount + 1;
      if n >= ReportThreshold then
        (db.(warning := CopyIgnore(db.warning, u, row),
             suspected := db.suspected.(rows := db.suspected.rows - {u})),
         Counted(n))
      else
        (db.(suspected := db.suspected.(rows := db.suspected.rows[u := row.(reportedCount := n)])),
         Counted(n))
  }

  /** Two URLs of the table whose rows carry the same `id`. */
  predicate SameId(t: Table, u: string, v: string) {
    u in t.rows && v in t.rows && t.rows[u].id == t.rows[v].id
  }

  /** `id` is the primary key, and AUTO_INCREMENT hands out values above every id in use. */
  ghost predicate TableValid(t: Table) {
    (forall u | u in t.rows :: t.rows[u].id < t.nextId) &&
    (forall u, v | SameId(t, u, v) :: u == v)
  }

  /** `reports` counts scans and is never reported against. */
  predicate ReportsRowsValid(t: Table) {
    forall u | u in t.rows :: t.rows[u].count >= 1 && t.rows[u].reportedCount == 0
  }

  /** A `suspected` row is a suspicious verdict with fewer reports than the threshold. */
  predicate SuspectedRowsValid(t: Table) {
    forall u | u in t.rows ::
      t.rows[u].verdict == Some(Suspicious) && t.rows[u].count == 1 &&
      t.rows[u].reportedCount < ReportThreshold
  }

  /** A `warning` row is a dangerous or suspicious verdict. */
  predicate WarningRowsValid(t: Table) {
    forall u | u in t.rows ::
      (t.rows[u].verdict == Some(Dangerous) || t.rows[u].verdict == Some(Suspicious)) &&
      t.rows[u].count == 1
  }

  /** What holds of the tables between requests. */
  ghost predicate DbValid(db: Db) {
    TableValid(db.reports) && TableValid(db.suspected) && TableValid(db.warning) &&
    ReportsRowsValid(db.reports) && SuspectedRowsValid(db.suspected) && WarningRowsValid(db.warning)
  }

  lemma EmptyDbValid()
    ensures DbValid(EmptyDb)
  {
  }

  lemma UpsertReportsValid(t: Table, a: Analysis, now: int)
    requires TableValid(t) && ReportsRowsValid(t)
    ensures TableValid(UpsertReports(t, a, now)) && ReportsRowsValid(UpsertReports(t, a, now))
  {
    var t' := UpsertReports(t, a, now);
    forall u, v | SameId(t', u, v) ensures u == v {
      if (u != a.originalUrl && v != a.originalUrl) || a.originalUrl in t.rows {
        assert SameId(t, u, v);
      }
    }
  }

  lemma InsertIgnoreValid(t: Table, url: string, a: Analysis, now: int)
    requires TableValid(t)
    ensures TableValid(InsertIgnore(t, url, a, now))
  {
    var t' := InsertIgnore(t, url, a, now);
    forall u, v | SameId(t', u, v) ensures u == v {
      if u != url && v != url {
        assert SameId(t, u, v);
      }
    }
  }

  lemma InsertSuspectedValid(t: Table, url: string, a: Analysis, now: int)
    requires TableValid(t) && SuspectedRowsValid(t) && a.verdict == Some(Suspicious)
    ensures TableValid(InsertIgnore(t, url, a, now)) && SuspectedRowsValid(InsertIgnore(t, url, a, now))
  {
    InsertIgnoreValid(t, url, a, now);
  }

  lemma InsertWarningValid(t: Table, url: string, a: Analysis, now: int)
    requires TableValid(t) && WarningRowsValid(t) && a.verdict == Some(Dangerous)
    ensures TableValid(InsertIgnore(t, url, a, now)) && WarningRowsValid(InsertIgnore(t, url, a, now))
  {
    InsertIgnoreValid(t, url, a, now);
  }

  lemma CopyIgnoreValid(t: Table, url: string, r: Row)
    requires TableValid(t)
    ensures TableValid(CopyIgnore(t, url, r))
  {
    if url !in t.rows && r.id !in Ids(t) {
      var t' := CopyIgnore(t, url, r);
      forall u, v | SameId(t', u, v) ensures u == v {
        if u != url && v != url {
          assert SameId(t, u, v);
        }
      }
    }
  }

  /** `save_report` keeps the table invariants. */
  lemma SavedValid(db: Db, a: Analysis, now: int)
    requires DbValid(db)
    ensures DbValid(Saved(db, a, now))
  {
    if Storable(a) {
      UpsertReportsValid(db.reports, a, now);
      if a.verdict == Some(Suspicious) {
        InsertSuspectedValid(db.suspected, a.originalUrl, a, now);
      } else if a.verdict == Some(Dangerous) {
        InsertWarningValid(db.warning, a.originalUrl, a, now);
      }
    }
  }

  lemma RemoveValid(t: Table, u: string)
    requires TableValid(t) && SuspectedRowsValid(t)
    ensures TableValid(t.(rows := t.rows - {u})) && SuspectedRowsValid(t.(rows := t.rows - {u}))
  {
    var t' := t.(rows := t.rows - {u});
    forall x, y | SameId(t', x, y) ensures x == y {
      assert SameId(t, x, y);
    }
  }

  lemma RecountValid(t: Table, u: string, n: nat)
    requires TableValid(t) && SuspectedRowsValid(t) && u in t.rows && n < ReportThreshold
    ensures var t' := t.(rows := t.rows[u := t.rows[u].(reportedCount := n)]);
            TableValid(t') && SuspectedRowsValid(t')
  {
    var t' := t.(rows := t.rows[u := t.rows[u].(reportedCount := n)]);
    forall x, y | SameId(t', x, y) ensures x == y {
      assert SameId(t, x, y);
    }
  }

  lemma CopyWarningValid(t: Table, url: string, r: Row)
    requires TableValid(t) && WarningRowsValid(t) && r.verdict == Some(Suspicious) && r.count == 1
    ensures TableValid(CopyIgnore(t, url, r)) && WarningRowsValid(CopyIgnore(t, url, r))
  {
    CopyIgnoreValid(t, url, r);
  }

  /**
   * `report_qr` looks the row up by URL and then copies, deletes or updates it by its `id`;
   * `Reported` works by URL. With unique ids the two select the same row: the rows
   * carrying that row's `id` are exactly the one at its URL, and deleting them is deleting
   * that URL.
   */
  lemma SelectById(t: Table, u: string)
    requires TableValid(t) && u in t.rows
    ensures (set v | v in t.rows && t.rows[v].id == t.rows[u].id) == {u}
    ensures (map v | v in t.rows && t.rows[v].id != t.rows[u].id :: t.rows[v]) == t.rows - {u}
  {
    forall v | v in t.rows && t.rows[v].id == t.rows[u].id ensures v == u {
      assert SameId(t, u, v);
    }
  }

  /** `report_qr` keeps the table invariants. */
  lemma ReportedValid(db: Db, url: Option<string>)
    requires DbValid(db)
    ensures DbValid(Reported(db, url).0)
  {
    if url.Some? && url.value != "" && url.value in db.suspected.rows {
      var u := url.value;
      var row := db.suspected.rows[u];
      if row.reportedCount + 1 >= ReportThreshold {
        CopyWarningValid(db.warning, u, row);
        RemoveValid(db.suspected, u);
      } else {
        RecountValid(db.suspected, u, row.reportedCount + 1);
      }
    }
  }

  /**
   * The three tables as an object whose methods update them in place. Each map is a
   * table keyed by `original_url`; the counters are the tables' AUTO_INCREMENT values.
   */
  class Store {
    var reports: map<string, Row>
    var suspected: map<string, Row>
    var warning: map<string, Row>
    var reportsNextId: nat
    var suspectedNextId: nat
    var warningNextId: nat

    function State(): Db
      reads this
    {
      Db(Table(reports, reportsNextId), Table(suspected, suspectedNextId), Table(warning, warningNextId))
    }

    ghost predicate Valid()
      reads this
    {
      DbValid(State())
    }

    /** `init_db` on an empty database. */
    constructor ()
      ensures Valid() && State() == EmptyDb
    {
      reports, suspected, warning := map[], map[], map[];
      reportsNextId, suspectedNextId, warningNextId := 1, 1, 1;
      EmptyDbValid();
    }

    /** `save_report(analysis_result)`, with `now` the database clock. */
    method SaveReport(a: Analysis, now: int)
      requires Valid()
      modifies this
      ensures Valid()
      ensures State() == Saved(old(State()), a, now)
    {
      ghost var db := State();
      SavedValid(db, a, now);
      if !Storable(a) {
        return;
      }
      var url := a.originalUrl;
      if url in reports {
        var row := reports[url];
        reports := reports[url := Refreshed(row, a)];
      } else {
        reports := reports[url := NewRow(a, reportsNextId, now)];
        reportsNextId := reportsNextId + 1;
      }
      assert Table(reports, reportsNextId) == UpsertReports(db.reports, a, now);
      if a.verdict == Some(Suspicious) {
        if url !in suspected {
          suspected := suspected[url := NewRow(a, suspectedNextId, now)];
          suspectedNextId := suspectedNextId + 1;
        }
        assert Table(suspected, suspectedNextId) == InsertIgnore(db.suspected, url, a, now);
      } else if a.verdict == Some(Dangerous) {
        if url !in warning {
          warning := warning[url := NewRow(a, warningNextId, now)];
          warningNextId := warningNextId + 1;
        }
        assert Table(warning, warningNextId) == InsertIgnore(db.warning, url, a, now);
      }
    }

    /** The state logic of `report_qr` for the request's `url` field. */
    method ReportQr(url: Option<string>) returns (outcome: ReportOutcome)
      requires Valid()
      modifies this
      ensures Valid()
      ensures (State(), outcome) == Reported(old(State()), url)
    {
      ReportedValid(State(), url);
      if url.None? || url.value == "" {
        return UrlMissing;
      }
      var u := url.value;
      if u !in suspected {
        return NotReportable;
      }
      var row := suspected[u];
      var n := row.reportedCount + 1;
      if n >= ReportThreshold {
        var clash := u in warning || row.id in Ids(Table(warning, warningNextId));
        if !clash {
          warning := warning[u := row];
          if row.id + 1 > warningNextId {
            warningNextId := row.id + 1;
          }
        }
        suspected := suspected - {u};
      } else {
        suspected := suspected[u := row.(reportedCount := n)];
      }
      outcome := Counted(n);
    }
  }
}
