/**
 * The admin dashboard's prescription audit (`js/admin-dashboard.js`): the
 * statistics cards and alert badge, the signature-status label and the row
 * buttons, the status and date filters over the page's `allPrescriptions`,
 * and the guards of `editPrescription`. The rows are the JSON objects of
 * `GET /api/admin/prescriptions-v2`; the DOM is reduced to the values it
 * would show.
 */
module AdminDashboard {
  import opened Wrappers
  import Seqs
  import AdminRoutes

  /** One row of `data.prescriptions`; `date` is the record's `createdAt` in milliseconds. */
  type Row = AdminRoutes.AuditRowV2

  // ---------------------------------------------------------------- updatePrescriptionStats

  predicate IsActive(p: Row) { !p.isRevoked }
  predicate IsRevoked(p: Row) { p.isRevoked }
  predicate IsInvalid(p: Row) { !p.isValid && !p.isRevoked }

  /** The three cards, the badge's number and whether the badge is displayed. */
  datatype Stats = Stats(active: nat, revoked: nat, invalid: nat, alerts: nat, badgeShown: bool)

  function PrescriptionStats(ps: seq<Row>): Stats {
    var active := Seqs.Count(IsActive, ps);
    var revoked := Seqs.Count(IsRevoked, ps);
    var invalid := Seqs.Count(IsInvalid, ps);
    Stats(active, revoked, invalid, invalid + revoked, invalid + revoked > 0)
  }

  /** Every row is active or revoked and not both, and an invalid row is an active one. */
  lemma StatsAddUp(ps: seq<Row>)
    ensures PrescriptionStats(ps).active + PrescriptionStats(ps).revoked == |ps|
    ensures PrescriptionStats(ps).invalid <= PrescriptionStats(ps).active
  {
    Seqs.CountSplit(IsActive, IsRevoked, ps);
    Seqs.CountMono(IsInvalid, IsActive, ps);
  }

  predicate IsAlert(p: Row) { p.isRevoked || !p.isValid }

  /** The badge is up exactly when some row is revoked or unsigned. */
  lemma BadgeShownIff(ps: seq<Row>)
    ensures PrescriptionStats(ps).badgeShown <==> exists i :: 0 <= i < |ps| && IsAlert(ps[i])
  {
    Seqs.CountPositive(IsInvalid, ps);
    Seqs.CountPositive(IsRevoked, ps);
    if exists i :: 0 <= i < |ps| && IsAlert(ps[i]) {
      var i :| 0 <= i < |ps| && IsAlert(ps[i]);
      assert IsRevoked(ps[i]) || IsInvalid(ps[i]);
    }
  }

  // ---------------------------------------------------------------- signature status and row buttons

  datatype Signature = SigRevoked | SigVerified | SigInvalid

  /** The "Signature Status" cell: revocation first, then the signature flag. */
  function SignatureStatus(p: Row): (l: Signature)
    ensures l == SigRevoked <==> p.isRevoked
    ensures l == SigVerified <==> p.isValid && !p.isRevoked
    ensures l == SigInvalid <==> IsInvalid(p)
  {
    if p.isRevoked then SigRevoked else if p.isValid then SigVerified else SigInvalid
  }

  /** The badge counts exactly the rows whose status cell does not read "Verified". */
  lemma AlertsAreUnverifiedRows(ps: seq<Row>)
    ensures PrescriptionStats(ps).alerts == Seqs.Count(p => SignatureStatus(p) != SigVerified, ps)
  {
    Seqs.CountDisjoint(IsInvalid, IsRevoked, p => SignatureStatus(p) != SigVerified, ps);
  }

  /** What one table row shows: the status cell, the revocation badge and which buttons are live. */
  datatype RowView = RowView(id: string, patientName: string, doctorLabel: string, date: int,
                             signature: Signature, revokedBadge: bool, editEnabled: bool, revokeEnabled: bool)

  function RenderRow(p: Row): (v: RowView)
    ensures v.id == p.id && v.date == p.date
    ensures v.doctorLabel == "Dr. " + p.doctorName
    ensures v.revokedBadge <==> v.signature == SigRevoked
    ensures v.editEnabled <==> !p.isRevoked
    ensures v.revokeEnabled == v.editEnabled
  {
    RowView(p.id, p.patientName, "Dr. " + p.doctorName, p.date, SignatureStatus(p), p.isRevoked,
            !p.isRevoked, !p.isRevoked)
  }

  /** The table body: a loading line, one of the three messages, or the rows. */
  datatype Table = Loading | NoPrescriptions | NoMatches | LoadError | Rows(rows: seq<RowView>)

  /** `displayPrescriptions(prescriptions)`. */
  function DisplayPrescriptions(ps: seq<Row>): (t: Table)
    ensures t == NoMatches <==> ps == []
    ensures t != NoMatches ==> t.Rows? && |t.rows| == |ps|
    ensures t.Rows? ==> forall i :: 0 <= i < |ps| ==> t.rows[i].id == ps[i].id && t.rows[i].signature == SignatureStatus(ps[i])
  {
    if ps == [] then NoMatches else Rows(seq(|ps|, i requires 0 <= i < |ps| => RenderRow(ps[i])))
  }

  // ---------------------------------------------------------------- applyFilters

  /**
   * The status select: `"active"`, `"revoked"` and `"invalid"` filter;
   * `"all"` and any other value keep every row.
   */
  predicate StatusKeeps(status: string, p: Row) {
    if status == "active" then !p.isRevoked
    else if status == "revoked" then p.isRevoked
    else if status == "invalid" then !p.isValid && !p.isRevoked
    else true
  }

  /**
   * A date input holds a day, here its number counted from 1970-01-01;
   * `new Date("YYYY-MM-DD")` is that day's UTC midnight.
   */
  function Midnight(day: int): int { day * 86400000 }

  predicate FromKeeps(dateFrom: Option<int>, p: Row) { dateFrom.None? || p.date >= Midnight(dateFrom.value) }

  /** `new Date(p.date) <= new Date(dateTo)`: compared against the midnight that opens the day. */
  predicate ToKeeps(dateTo: Option<int>, p: Row) { dateTo.None? || p.date <= Midnight(dateTo.value) }

  predicate Shown(status: string, dateFrom: Option<int>, dateTo: Option<int>, p: Row) {
    StatusKeeps(status, p) && FromKeeps(dateFrom, p) && ToKeeps(dateTo, p)
  }

  /** The rows `applyFilters` displays: those passing all three filters, in stored order. */
  function FilterRows(ps: seq<Row>, status: string, dateFrom: Option<int>, dateTo: Option<int>): (r: seq<Row>)
    ensures forall i :: 0 <= i < |r| ==> r[i] in ps && Shown(status, dateFrom, dateTo, r[i])
    ensures forall i :: 0 <= i < |ps| && Shown(status, dateFrom, dateTo, ps[i]) ==> ps[i] in r
  {
    Seqs.Filter((p: Row) => Shown(status, dateFrom, dateTo, p), ps)
  }

  /** The "active" and "revoked" filters split the rows; each shows as many rows as its card counts. */
  lemma StatusFiltersMatchStats(ps: seq<Row>)
    ensures |FilterRows(ps, "active", None, None)| == PrescriptionStats(ps).active
    ensures |FilterRows(ps, "revoked", None, None)| == PrescriptionStats(ps).revoked
    ensures |FilterRows(ps, "invalid", None, None)| == PrescriptionStats(ps).invalid
    ensures |FilterRows(ps, "active", None, None)| + |FilterRows(ps, "revoked", None, None)| == |ps|
  {
    Seqs.FilterExt((p: Row) => Shown("active", None, None, p), IsActive, ps);
    Seqs.FilterExt((p: Row) => Shown("revoked", None, None, p), IsRevoked, ps);
    Seqs.FilterExt((p: Row) => Shown("invalid", None, None, p), IsInvalid, ps);
    StatsAddUp(ps);
  }

  /** `clearFilters` shows what no filter at all shows: every row. */
  lemma NoFilterKeepsAll(ps: seq<Row>)
    ensures FilterRows(ps, "all", None, None) == ps
  {
    Seqs.FilterAll(p => Shown("all", None, None, p), ps);
  }

  /** The UTC day of a timestamp (Dafny's `/` floors for a positive divisor). */
  function UtcDay(t: int): int { t / 86400000 }

  lemma DayBounds(t: int, day: int)
    ensures t >= Midnight(day) <==> day <= UtcDay(t)
    ensures t < Midnight(day + 1) <==> UtcDay(t) <= day
  {
    var q, r := t / 86400000, t % 86400000;
    assert t == q * 86400000 + r && 0 <= r < 86400000;
  }

  /** As written, a `dateTo` day keeps only rows created at its very first millisecond. */
  lemma DateToKeepsOnlyMidnight(p: Row, day: int)
    requires UtcDay(p.date) == day
    ensures ToKeeps(Some(day), p) <==> p.date == Midnight(day)
  {
    DayBounds(p.date, day);
  }

  /** A prescription written at 00:00:00.001 UTC on the chosen "to" day is filtered out. */
  lemma DateToDropsItsOwnDay()
    ensures var p := AdminRoutes.AuditRowV2("a", "P", "D", 1, true, false);
            && UtcDay(p.date) == 0
            && FilterRows([p], "all", None, Some(0)) == []
            && FilterRowsCorrected([p], "all", None, Some(0)) == [p]
  {
    var p := AdminRoutes.AuditRowV2("a", "P", "D", 1, true, false);
    assert [p][..0] == [];
  }

  /** The inclusive upper bound the filter evidently intends: anything before the next midnight. */
  predicate ToKeepsCorrected(dateTo: Option<int>, p: Row) { dateTo.None? || p.date < Midnight(dateTo.value + 1) }

  function FilterRowsCorrected(ps: seq<Row>, status: string, dateFrom: Option<int>, dateTo: Option<int>): seq<Row> {
    Seqs.Filter((p: Row) => StatusKeeps(status, p) && FromKeeps(dateFrom, p) && ToKeepsCorrected(dateTo, p), ps)
  }

  /** With the corrected bound, both dates are inclusive: a row is shown iff its UTC day lies between them. */
  lemma CorrectedDatesInclusive(ps: seq<Row>, status: string, dateFrom: Option<int>, dateTo: Option<int>, p: Row)
    ensures p in FilterRowsCorrected(ps, status, dateFrom, dateTo) <==>
              && p in ps && StatusKeeps(status, p)
              && (dateFrom.None? || dateFrom.value <= UtcDay(p.date))
              && (dateTo.None? || UtcDay(p.date) <= dateTo.value)
  {
    if dateFrom.Some? { DayBounds(p.date, dateFrom.value); }
    if dateTo.Some? { DayBounds(p.date, dateTo.value); }
    if p in ps {
      var i :| 0 <= i < |ps| && ps[i] == p;
    }
  }

  // ---------------------------------------------------------------- editPrescription

  datatype EditOutcome =
    | RefusedRevoked                                        // "cannot be edited" alert
    | Aborted                                               // a prompt was cancelled
    | FieldsRequired                                        // "Diagnosis and medicines are required"
    | Put(diagnosis: string, medicines: string, advice: string)  // the PUT body

  /**
   * `editPrescription(id, isRevoked)` up to its request: the three prompt
   * answers in order, `None` for a cancelled prompt (a later prompt is never
   * reached after a cancelled one, so its answer does not matter).
   */
  function EditPrescription(isRevoked: bool, diagnosis: Option<string>, medicines: Option<string>,
                            advice: Option<string>): (r: EditOutcome)
    ensures r == RefusedRevoked <==> isRevoked
    ensures r == Aborted <==> !isRevoked && (diagnosis.None? || medicines.None? || advice.None?)
    ensures r.Put? <==> !isRevoked && diagnosis.Some? && medicines.Some? && advice.Some?
                        && diagnosis.value != "" && medicines.value != ""
    ensures r.Put? ==> r == Put(diagnosis.value, medicines.value, advice.value)
  {
    if isRevoked then RefusedRevoked
    else if diagnosis.None? then Aborted
    else if medicines.None? then Aborted
    else if advice.None? then Aborted
    else if diagnosis.value == "" || medicines.value == "" then FieldsRequired
    else Put(diagnosis.value, medicines.value, advice.value)
  }

  /** A row whose Edit button is live never meets the revoked refusal. */
  lemma LiveEditNotRefused(p: Row, diagnosis: Option<string>, medicines: Option<string>, advice: Option<string>)
    requires RenderRow(p).editEnabled
    ensures EditPrescription(p.isRevoked, diagnosis, medicines, advice) != RefusedRevoked
  {
  }

  // ---------------------------------------------------------------- the page state

  /** The reply of the audit fetch: the parsed JSON, or an error thrown by `fetch` / `json()`. */
  datatype AuditFetch = Fetched(success: bool, prescriptions: seq<Row>) | FetchFailed

  /** The module-level `allPrescriptions` and what the page shows. */
  class AuditPage {
    var allPrescriptions: seq<Row>
    var stats: Option<Stats>
    var table: Table

    constructor ()
      ensures allPrescriptions == [] && stats == None && table == Loading
    {
      allPrescriptions := [];
      stats := None;
      table := Loading;
    }

    /**
     * `loadPrescriptionAudit()`. A refused or empty reply shows "No prescriptions
     * found" and keeps the previous `allPrescriptions`, so a later filter still
     * works on the old list.
     */
    method LoadPrescriptionAudit(reply: AuditFetch)
      modifies this
      ensures reply.Fetched? && reply.success && reply.prescriptions != [] ==>
                && allPrescriptions == reply.prescriptions
                && stats == Some(PrescriptionStats(reply.prescriptions))
                && table == DisplayPrescriptions(reply.prescriptions)
      ensures !(reply.Fetched? && reply.success && reply.prescriptions != []) ==>
                && allPrescriptions == old(allPrescriptions)
                && stats == old(stats)
                && table == (if reply.FetchFailed? then LoadError else NoPrescriptions)
    {
      table := Loading;
      if reply.FetchFailed? {
        table := LoadError;
        return;
      }
      if !reply.success || |reply.prescriptions| == 0 {
        table := NoPrescriptions;
        return;
      }
      allPrescriptions := reply.prescriptions;
      stats := Some(PrescriptionStats(allPrescriptions));
      table := DisplayPrescriptions(allPrescriptions);
    }

    /** `applyFilters()`: copies the list, then narrows `filtered` one filter at a time. */
    method ApplyFilters(status: string, dateFrom: Option<int>, dateTo: Option<int>)
      modifies `table
      ensures table == DisplayPrescriptions(FilterRows(allPrescriptions, status, dateFrom, dateTo))
    {
      var all := allPrescriptions;
      var filtered := all;
      if status != "all" {
        if status == "active" {
          filtered := Seqs.Filter((p: Row) => !p.isRevoked, filtered);
        } else if status == "revoked" {
          filtered := Seqs.Filter((p: Row) => p.isRevoked, filtered);
        } else if status == "invalid" {
          filtered := Seqs.Filter((p: Row) => !p.isValid && !p.isRevoked, filtered);
        }
      }
      StatusStep(all, status, filtered);
      ghost var afterStatus := filtered;
      if dateFrom.Some? {
        filtered := Seqs.Filter((p: Row) => p.date >= Midnight(dateFrom.value), filtered);
      }
      FromStep(afterStatus, dateFrom, filtered);
      ghost var afterFrom := filtered;
      if dateTo.Some? {
        filtered := Seqs.Filter((p: Row) => p.date <= Midnight(dateTo.value), filtered);
      }
      ToStep(afterFrom, dateTo, filtered);
      FilterChain(all, status, dateFrom, dateTo);
      table := DisplayPrescriptions(filtered);
    }

    /** `clearFilters()`: the whole list again. */
    method ClearFilters()
      modifies `table
      ensures table == DisplayPrescriptions(FilterRows(allPrescriptions, "all", None, None))
    {
      NoFilterKeepsAll(allPrescriptions);
      table := DisplayPrescriptions(allPrescriptions);
    }
  }

  /** The status branch of `applyFilters` selects the rows `StatusKeeps` selects. */
  lemma StatusStep(all: seq<Row>, status: string, filtered: seq<Row>)
    requires status == "active" ==> filtered == Seqs.Filter((p: Row) => !p.isRevoked, all)
    requires status == "revoked" ==> filtered == Seqs.Filter((p: Row) => p.isRevoked, all)
    requires status == "invalid" ==> filtered == Seqs.Filter((p: Row) => !p.isValid && !p.isRevoked, all)
    requires status != "active" && status != "revoked" && status != "invalid" ==> filtered == all
    ensures filtered == Seqs.Filter(q => StatusKeeps(status, q), all)
  {
    if status == "active" {
      Seqs.FilterExt((p: Row) => !p.isRevoked, q => StatusKeeps(status, q), all);
    } else if status == "revoked" {
      Seqs.FilterExt((p: Row) => p.isRevoked, q => StatusKeeps(status, q), all);
    } else if status == "invalid" {
      Seqs.FilterExt((p: Row) => !p.isValid && !p.isRevoked, q => StatusKeeps(status, q), all);
    } else {
      Seqs.FilterAll(q => StatusKeeps(status, q), all);
    }
  }

  /** The `dateFrom` branch of `applyFilters` selects the rows `FromKeeps` selects. */
  lemma FromStep(before: seq<Row>, dateFrom: Option<int>, after: seq<Row>)
    requires dateFrom.Some? ==> after == Seqs.Filter((p: Row) => p.date >= Midnight(dateFrom.value), before)
    requires dateFrom.None? ==> after == before
    ensures after == Seqs.Filter(q => FromKeeps(dateFrom, q), before)
  {
    if dateFrom.Some? {
      Seqs.FilterExt((p: Row) => p.date >= Midnight(dateFrom.value), q => FromKeeps(dateFrom, q), before);
    } else {
      Seqs.FilterAll(q => FromKeeps(dateFrom, q), before);
    }
  }

  /** The `dateTo` branch of `applyFilters` selects the rows `ToKeeps` selects. */
  lemma ToStep(before: seq<Row>, dateTo: Option<int>, after: seq<Row>)
    requires dateTo.Some? ==> after == Seqs.Filter((p: Row) => p.date <= Midnight(dateTo.value), before)
    requires dateTo.None? ==> after == before
    ensures after == Seqs.Filter(q => ToKeeps(dateTo, q), before)
  {
    if dateTo.Some? {
      Seqs.FilterExt((p: Row) => p.date <= Midnight(dateTo.value), q => ToKeeps(dateTo, q), before);
    } else {
      Seqs.FilterAll(q => ToKeeps(dateTo, q), before);
    }
  }

  /** The three filters applied one after another select what `FilterRows` selects. */
  lemma FilterChain(all: seq<Row>, status: string, dateFrom: Option<int>, dateTo: Option<int>)
    ensures Seqs.Filter(q => ToKeeps(dateTo, q),
                        Seqs.Filter(q => FromKeeps(dateFrom, q), Seqs.Filter(q => StatusKeeps(status, q), all)))
            == FilterRows(all, status, dateFrom, dateTo)
  {
    Seqs.FilterFilter(q => StatusKeeps(status, q), q => FromKeeps(dateFrom, q),
                      q => StatusKeeps(status, q) && FromKeeps(dateFrom, q), all);
    Seqs.FilterFilter(q => StatusKeeps(status, q) && FromKeeps(dateFrom, q), q => ToKeeps(dateTo, q),
                      p => Shown(status, dateFrom, dateTo, p), all);
  }
}
