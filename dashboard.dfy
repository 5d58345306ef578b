/**
 * The patient dashboard, `js/dashboard.js`: the four statistics and the
 * notification badge, the upcoming-appointments list, and the three most recent
 * prescriptions with their revoked branch. Both loaders read the reply of
 * `GET /api/appointments/my/:email`, whose elements are the patient route's
 * projections with the populated `doctor`.
 */
module Dashboard {
  import opened Wrappers
  import opened Octets
  import opened Models
  import opened JsString
  import Seqs
  import NodeCrypto
  import CryptoFacade
  import AppointmentRoutes

  type View = AppointmentRoutes.AppointmentView

  /** One appointment as the page reads it: the route's projection and the populated doctor (`null` when the doctor document is gone). */
  datatype Entry = Entry(view: View, doctor: Option<Doctor>)

  predicate IsCompleted(e: Entry) { e.view.appointment.status == Completed }
  predicate IsBooked(e: Entry) { e.view.appointment.status == Booked }
  predicate IsClosedOrBooked(e: Entry) { IsCompleted(e) || IsBooked(e) }
  predicate NotClosedOrBooked(e: Entry) { !IsClosedOrBooked(e) }

  /** `app.status === "Completed" && app.prescription`: a nested `prescription` object is always truthy. */
  predicate IsPrescribed(e: Entry) { IsCompleted(e) && e.view.prescription.Some? }

  // ---------------------------------------------------------------- updateStatistics

  /** The four counters and whether the notification badge is displayed; the badge text is `upcoming`. */
  datatype Stats = Stats(total: nat, completed: nat, upcoming: nat, prescriptions: nat, badgeShown: bool)

  function Statistics(es: seq<Entry>): Stats {
    var upcoming := Seqs.Count(IsBooked, es);
    Stats(|es|, Seqs.Count(IsCompleted, es), upcoming, Seqs.Count(IsPrescribed, es), upcoming > 0)
  }

  /**
   * Prescriptions are a subset of completed appointments, completed and booked
   * ones never overlap, and the badge is shown exactly when something is booked.
   */
  lemma StatisticsBounds(es: seq<Entry>)
    ensures Statistics(es).prescriptions <= Statistics(es).completed
    ensures Statistics(es).completed + Statistics(es).upcoming <= Statistics(es).total
    ensures Statistics(es).badgeShown <==> exists i :: 0 <= i < |es| && IsBooked(es[i])
  {
    Seqs.CountMono(IsPrescribed, IsCompleted, es);
    Seqs.CountDisjoint(IsCompleted, IsBooked, IsClosedOrBooked, es);
    Seqs.CountSplit(IsClosedOrBooked, NotClosedOrBooked, es);
    Seqs.CountPositive(IsBooked, es);
  }

  /** The patient route never lists cancelled appointments, so there every appointment is completed or upcoming. */
  lemma UncancelledAddUp(es: seq<Entry>)
    requires forall i :: 0 <= i < |es| ==> es[i].view.appointment.status != Cancelled
    ensures Statistics(es).completed + Statistics(es).upcoming == Statistics(es).total
  {
    Seqs.CountDisjoint(IsCompleted, IsBooked, IsClosedOrBooked, es);
    assert forall i :: 0 <= i < |es| ==> IsClosedOrBooked(es[i]);
    Seqs.FilterAll(IsClosedOrBooked, es);
  }

  /** An empty or refused reply puts zeros everywhere and hides the badge. */
  lemma EmptyStatistics()
    ensures Statistics([]) == Stats(0, 0, 0, 0, false)
  {
    assert Seqs.Filter(IsBooked, []) == [] && Seqs.Filter(IsCompleted, []) == [] && Seqs.Filter(IsPrescribed, []) == [];
  }

  // ---------------------------------------------------------------- loadAppointments

  /** `"Dr. " + app.doctor.name`. */
  function DoctorLabel(d: Doctor): string { "Dr. " + d.name }

  /** An upcoming card: doctor, specialization, `date at time`, and a Cancel button for the appointment id. */
  datatype UpcomingCard = UpcomingCard(doctorLabel: string, specialization: string, date: string, time: string, cancelId: string)

  /** One card of the upcoming `forEach`; reading `name` of a `null` doctor throws a `TypeError` (`None`). */
  function RenderUpcoming(e: Entry): (c: Option<UpcomingCard>)
    ensures c.Some? <==> e.doctor.Some?
    ensures c.Some? ==> c.value.cancelId == e.view.appointment.id && c.value.date == e.view.appointment.date
                        && c.value.doctorLabel == DoctorLabel(e.doctor.value)
  {
    match e.doctor
    case None => None
    case Some(d) =>
      var a := e.view.appointment;
      Some(UpcomingCard(DoctorLabel(d), d.specialization, a.date, a.time, a.id))
  }

  /** The `Booked` appointments, in the order the server sent them. */
  function Upcoming(es: seq<Entry>): seq<Entry> {
    Seqs.Filter(IsBooked, es)
  }

  /** The list keeps exactly the booked appointments, and the order of the reply: a split reply lists its halves one after the other. */
  lemma UpcomingExactlyBooked(es: seq<Entry>, more: seq<Entry>)
    ensures forall e :: e in Upcoming(es) <==> e in es && IsBooked(e)
    ensures Upcoming(es + more) == Upcoming(es) + Upcoming(more)
  {
    forall e | e in es && IsBooked(e)
      ensures e in Upcoming(es)
    {
      var i :| 0 <= i < |es| && es[i] == e;
    }
    forall e | e in Upcoming(es)
      ensures e in es && IsBooked(e)
    {
      var i :| 0 <= i < |Upcoming(es)| && Upcoming(es)[i] == e;
    }
    Seqs.FilterAppend(IsBooked, es, more);
  }

  /** What the `#appointments` container shows. */
  datatype AppointmentsArea =
    | LoadingAppointments
    | NoAppointmentsFound
    | NoUpcoming
    | UpcomingCards(cards: seq<UpcomingCard>)
    | AppointmentsError

  /** The reply of the list call: its parsed JSON, or the error of `fetch` / `res.json()`. */
  datatype Fetch = Fetched(success: bool, appointments: seq<Entry>) | FetchFailed

  /** What the container ends with once the statistics are set from a non-empty list. */
  predicate ShowsUpcoming(es: seq<Entry>, area: AppointmentsArea) {
    if Upcoming(es) == [] then area == NoUpcoming
    else match Seqs.MapAll(RenderUpcoming, Upcoming(es))
      case None => area == AppointmentsError
      case Some(cards) => area == UpcomingCards(cards)
  }

  /**
   * Cards appear for every booked appointment, one per appointment in order,
   * exactly when every booked appointment has its doctor; otherwise the page
   * shows the error.
   */
  lemma UpcomingCardsAreBooked(es: seq<Entry>, area: AppointmentsArea)
    requires ShowsUpcoming(es, area)
    ensures area.UpcomingCards? <==> Upcoming(es) != [] && forall e :: e in Upcoming(es) ==> e.doctor.Some?
    ensures area.UpcomingCards? ==>
              && |area.cards| == Seqs.Count(IsBooked, es)
              && forall i :: 0 <= i < |area.cards| ==> area.cards[i].cancelId == Upcoming(es)[i].view.appointment.id
  {
    var up := Upcoming(es);
    if up != [] && forall e :: e in up ==> e.doctor.Some? {
      assert forall i :: 0 <= i < |up| ==> RenderUpcoming(up[i]).Some? by {
        forall i | 0 <= i < |up| ensures RenderUpcoming(up[i]).Some? {
          assert up[i] in up;
        }
      }
    }
  }

  // ---------------------------------------------------------------- loadPrescriptions

  /** A recent-prescription card: the revoked notice alone, or the fields with the download button. */
  datatype PrescriptionCard =
    | RevokedCard(doctorLabel: string)
    | FieldsCard(doctorLabel: string, date: string, diagnosis: string, medicines: string, advice: string, downloadId: string)

  /** `${v}` in a template literal: an unset field prints as "undefined". */
  function Interpolated(v: Option<string>): (s: string)
    ensures v.Some? ==> s == v.value
  {
    if v.Some? then v.value else "undefined"
  }

  /** `app.prescription.isRevoked` of a listed entry. */
  predicate IsRevokedEntry(e: Entry) {
    e.view.prescription.Some? && e.view.prescription.value.fields.isRevoked
  }

  /**
   * One card of the recent `forEach`. A missing doctor or prescription throws
   * (`None`); a revoked prescription gives only the notice; otherwise the fields,
   * the advice or "-" when it is falsy, and a download for the appointment id.
   */
  function RenderRecent(e: Entry): (c: Option<PrescriptionCard>)
    ensures c.Some? <==> e.doctor.Some? && e.view.prescription.Some?
    ensures c.Some? ==> c.value.doctorLabel == DoctorLabel(e.doctor.value)
    ensures c.Some? ==> (c.value.RevokedCard? <==> IsRevokedEntry(e))
    ensures c.Some? && c.value.FieldsCard? ==>
              var p := e.view.prescription.value.fields;
              && c.value.downloadId == e.view.appointment.id
              && c.value.diagnosis == Interpolated(p.diagnosis) && c.value.medicines == Interpolated(p.medicines)
              && (c.value.advice == "-" <==> Falsy(p.advice) || p.advice == Some("-"))
  {
    match (e.doctor, e.view.prescription)
    case (None, _) => None
    case (_, None) => None
    case (Some(d), Some(pv)) =>
      var p := pv.fields;
      if p.isRevoked then Some(RevokedCard(DoctorLabel(d)))
      else Some(FieldsCard(DoctorLabel(d), e.view.appointment.date, Interpolated(p.diagnosis), Interpolated(p.medicines),
                           if Falsy(p.advice) then "-" else p.advice.value, e.view.appointment.id))
  }

  /** `completed.slice(0, 3)`: at most three completed appointments with a prescription, in reply order. */
  function Recent(es: seq<Entry>): seq<Entry> {
    Seqs.Take(Seqs.Filter(IsPrescribed, es), 3)
  }

  lemma RecentSelection(es: seq<Entry>)
    ensures |Recent(es)| == if Seqs.Count(IsPrescribed, es) < 3 then Seqs.Count(IsPrescribed, es) else 3
    ensures forall i :: 0 <= i < |Recent(es)| ==> Recent(es)[i] == Seqs.Filter(IsPrescribed, es)[i]
    ensures forall i :: 0 <= i < |Recent(es)| ==> Recent(es)[i] in es && IsPrescribed(Recent(es)[i])
  {
  }

  /** What the `#prescriptions` container shows. */
  datatype PrescriptionsArea =
    | LoadingPrescriptions
    | NoPrescriptionsYet
    | RecentCards(cards: seq<PrescriptionCard>)
    | PrescriptionsError

  predicate ShowsRecent(es: seq<Entry>, area: PrescriptionsArea) {
    if Seqs.Filter(IsPrescribed, es) == [] then area == NoPrescriptionsYet
    else match Seqs.MapAll(RenderRecent, Recent(es))
      case None => area == PrescriptionsError
      case Some(cards) => area == RecentCards(cards)
  }

  /** Each recent card belongs to the recent entry at its position, and a revoked one is only the notice. */
  lemma RecentCardsMatch(es: seq<Entry>, area: PrescriptionsArea)
    requires ShowsRecent(es, area) && area.RecentCards?
    ensures |area.cards| == |Recent(es)| <= 3
    ensures forall i :: 0 <= i < |area.cards| ==>
              && (area.cards[i].RevokedCard? <==> IsRevokedEntry(Recent(es)[i]))
              && (area.cards[i].FieldsCard? ==> area.cards[i].downloadId == Recent(es)[i].view.appointment.id)
  {
  }

  /**
   * A prescription the patient route has replaced by `{ isRevoked: true }`
   * renders as the revoked notice alone: no fields and no download, whatever
   * was stored.
   */
  lemma RevokedRendersNoticeOnly(lib: NodeCrypto.Library, session: Option<Bytes>, a: Appointment, d: Doctor)
    requires NodeCrypto.Sound(lib) && CryptoFacade.ValidSessionKey(session)
    requires a.prescription.Some? && a.prescription.value.isRevoked
    ensures RenderRecent(Entry(AppointmentRoutes.PatientView(lib, session, a), Some(d))) == Some(RevokedCard(DoctorLabel(d)))
  {
  }

  /** A live prescription the route could decrypt shows the decrypted diagnosis and medicines and offers a download. */
  lemma LiveRendersPlaintext(lib: NodeCrypto.Library, session: Option<Bytes>, a: Appointment, d: Doctor)
    requires NodeCrypto.Sound(lib) && CryptoFacade.ValidSessionKey(session)
    requires a.prescription.Some? && !a.prescription.value.isRevoked
    requires AppointmentRoutes.OpenPrescription(lib, session, a.prescription.value).Success?
    ensures var c := RenderRecent(Entry(AppointmentRoutes.PatientView(lib, session, a), Some(d)));
            var t := AppointmentRoutes.OpenPrescription(lib, session, a.prescription.value).value;
            && c.Some? && c.value.FieldsCard?
            && c.value.diagnosis == t.diagnosis && c.value.medicines == t.medicines
            && c.value.downloadId == a.id
  {
  }

  // ---------------------------------------------------------------- the page

  /** The dashboard page: the statistics panel and the two containers. */
  class PatientDashboard {
    var stats: Option<Stats>
    var appointmentsArea: AppointmentsArea
    var prescriptionsArea: PrescriptionsArea

    constructor ()
      ensures stats == None && appointmentsArea == LoadingAppointments && prescriptionsArea == LoadingPrescriptions
    {
      stats := None;
      appointmentsArea := LoadingAppointments;
      prescriptionsArea := LoadingPrescriptions;
    }

    /**
     * `loadAppointments()`. A refused or empty reply zeroes the statistics and
     * says "No appointments found"; otherwise the statistics cover every
     * appointment and the container lists the booked ones.
     */
    method LoadAppointments(reply: Fetch)
      modifies `stats, `appointmentsArea
      ensures reply.FetchFailed? ==> stats == old(stats) && appointmentsArea == AppointmentsError
      ensures reply.Fetched? && (!reply.success || reply.appointments == []) ==>
                stats == Some(Statistics([])) && appointmentsArea == NoAppointmentsFound
      ensures reply.Fetched? && reply.success && reply.appointments != [] ==>
                stats == Some(Statistics(reply.appointments)) && ShowsUpcoming(reply.appointments, appointmentsArea)
    {
      appointmentsArea := LoadingAppointments;
      if reply.FetchFailed? {
        appointmentsArea := AppointmentsError;
        return;
      }
      if !reply.success || |reply.appointments| == 0 {
        appointmentsArea := NoAppointmentsFound;
        stats := Some(Statistics([]));
        return;
      }
      stats := Some(Statistics(reply.appointments));
      var upcoming := Seqs.Filter(IsBooked, reply.appointments);
      if |upcoming| == 0 {
        appointmentsArea := NoUpcoming;
        return;
      }
      var cards := RenderUpcomingCards(upcoming);
      appointmentsArea := if cards.None? then AppointmentsError else UpcomingCards(cards.value);
    }

    /**
     * `loadPrescriptions()`. A refused reply shows the error; otherwise the
     * container shows up to three completed appointments with a prescription.
     */
    method LoadPrescriptions(reply: Fetch)
      modifies `prescriptionsArea
      ensures reply.FetchFailed? || !reply.success ==> prescriptionsArea == PrescriptionsError
      ensures reply.Fetched? && reply.success ==> ShowsRecent(reply.appointments, prescriptionsArea)
    {
      prescriptionsArea := LoadingPrescriptions;
      if reply.FetchFailed? || !reply.success {
        prescriptionsArea := PrescriptionsError;
        return;
      }
      var completed := Seqs.Filter(IsPrescribed, reply.appointments);
      if |completed| == 0 {
        prescriptionsArea := NoPrescriptionsYet;
        return;
      }
      var cards := RenderRecentCards(Seqs.Take(completed, 3));
      prescriptionsArea := if cards.None? then PrescriptionsError else RecentCards(cards.value);
    }
  }

  /** The upcoming `forEach`: appends one card per appointment and stops at the first that throws. */
  method RenderUpcomingCards(upcoming: seq<Entry>) returns (r: Option<seq<UpcomingCard>>)
    ensures r == Seqs.MapAll(RenderUpcoming, upcoming)
  {
    var cards: seq<UpcomingCard> := [];
    for i := 0 to |upcoming|
      invariant Seqs.MapAll(RenderUpcoming, upcoming[..i]) == Some(cards)
    {
      var card := RenderUpcoming(upcoming[i]);
      if card.None? {
        return None;
      }
      Seqs.MapAllSnoc(RenderUpcoming, upcoming, i);
      cards := cards + [card.value];
    }
    assert upcoming[..|upcoming|] == upcoming;
    return Some(cards);
  }

  /** The recent `forEach`, in the same way. */
  method RenderRecentCards(recent: seq<Entry>) returns (r: Option<seq<PrescriptionCard>>)
    ensures r == Seqs.MapAll(RenderRecent, recent)
  {
    var cards: seq<PrescriptionCard> := [];
    for i := 0 to |recent|
      invariant Seqs.MapAll(RenderRecent, recent[..i]) == Some(cards)
    {
      var card := RenderRecent(recent[i]);
      if card.None? {
        return None;
      }
      Seqs.MapAllSnoc(RenderRecent, recent, i);
      cards := cards + [card.value];
    }
    assert recent[..|recent|] == recent;
    return Some(cards);
  }
}
