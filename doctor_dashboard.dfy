/**
 * The doctor dashboard (`js/doctor-dashboard.js`): today's date string, the
 * four statistics, the filtered and partitioned appointment list with its
 * cards and buttons, the two ways of opening the prescription form, the
 * "looks encrypted" guard on the edit form, and the checks before submitting.
 * The appointments are the JSON of `GET /api/appointments/doctor/:email`.
 */
module DoctorDashboard {
  import opened Wrappers
  import opened Octets
  import opened Models
  import opened JsString
  import Seqs
  import Utf8
  import NodeCrypto
  import CryptoFacade
  import Store
  import AppointmentRoutes

  /** One element of `data.appointments`. */
  type View = AppointmentRoutes.AppointmentView

  // ---------------------------------------------------------------- getTodayDate

  /** `String(n).padStart(2, '0')` for a number below 100: two digits that read back as the number. */
  function TwoDigits(n: nat): (r: string)
    requires n < 100
    ensures |r| == 2
    ensures forall i :: 0 <= i < 2 ==> IsDecimalDigit(r[i]) && DigitValue(r[i], Decimal).Some?
    ensures DigitsValue(r, Decimal) == n
  {
    PadDigits(n);
    PadStart(DecimalString(n), 2, '0')
  }

  lemma PadDigits(n: nat)
    requires n < 100
    ensures var r := PadStart(DecimalString(n), 2, '0');
            && |r| == 2
            && (forall i :: 0 <= i < 2 ==> IsDecimalDigit(r[i]) && DigitValue(r[i], Decimal).Some?)
            && DigitsValue(r, Decimal) == n
  {
    DecimalStringValue(n);
    if n < 10 {
      assert DecimalString(n) == [DecimalDigit(n)];
      var t := PadStart(DecimalString(n), 2, '0');
      assert t == ['0', DecimalDigit(n)];
      assert t[..1] == ['0'] && ['0'][..0] == [];
    } else {
      DecimalStringLength(n, 1);
    }
  }

  /**
   * `getTodayDate()` from the local calendar fields `getFullYear()`,
   * `getMonth()` (0 to 11) and `getDate()` (1 to 31). It reads `YYYY-MM-DD`:
   * the year's digits, a dash, the month as two digits, a dash, the day as two
   * digits (`TwoDigits` reads back as its number).
   */
  function TodayDate(year: nat, month: nat, day: nat): (s: string)
    requires month < 12 && 1 <= day <= 31
    ensures |s| >= 7 && s[|s| - 6] == '-' && s[|s| - 3] == '-'
    ensures s[..|s| - 6] == DecimalString(year)
    ensures s[|s| - 5..|s| - 3] == TwoDigits(month + 1) && s[|s| - 2..] == TwoDigits(day)
  {
    Dashed(DecimalString(year), TwoDigits(month + 1), TwoDigits(day))
  }

  /** `s` is `y`, a dash, `m`, a dash and `d`, with the dashes six and three places from the end. */
  predicate DashedShape(s: string, y: string, m: string, d: string) {
    && |s| >= 6 && s[|s| - 6] == '-' && s[|s| - 3] == '-'
    && s[..|s| - 6] == y && s[|s| - 5..|s| - 3] == m && s[|s| - 2..] == d
  }

  /** Joining a year and two two-character fields with dashes gives that shape. */
  function Dashed(y: string, m: string, d: string): (s: string)
    requires |m| == 2 && |d| == 2
    ensures DashedShape(s, y, m, d)
  {
    y + "-" + m + "-" + d
  }

  // ---------------------------------------------------------------- updateStatistics

  predicate IsToday(today: string, v: View) { v.appointment.date == today }
  predicate IsPending(v: View) { v.appointment.status != Completed && v.appointment.status != Cancelled }
  predicate IsCompleted(v: View) { v.appointment.status == Completed }
  predicate IsCancelled(v: View) { v.appointment.status == Cancelled }
  predicate IsClosed(v: View) { v.appointment.status == Completed || v.appointment.status == Cancelled }
  predicate CompletedToday(today: string, v: View) { IsToday(today, v) && IsCompleted(v) }

  /** `new Set(appointments.map(app => app.patientEmail))`. */
  function PatientEmails(vs: seq<View>): set<string> {
    set i | 0 <= i < |vs| :: vs[i].appointment.patientEmail
  }

  datatype Stats = Stats(totalPatients: nat, todayAppointments: nat, pending: nat, completedToday: nat)

  function Statistics(vs: seq<View>, today: string): Stats {
    Stats(|PatientEmails(vs)|,
          Seqs.Count(v => IsToday(today, v), vs),
          Seqs.Count(IsPending, vs),
          Seqs.Count(v => CompletedToday(today, v), vs))
  }

  /** Distinct patients are at most the appointments, and there is one exactly when there is an appointment. */
  lemma {:induction false} PatientCount(vs: seq<View>)
    ensures |PatientEmails(vs)| <= |vs|
    ensures |PatientEmails(vs)| == 0 <==> vs == []
    decreases |vs|
  {
    if vs != [] {
      PatientCount(vs[..|vs| - 1]);
      EmailsSnoc(vs);
    }
  }

  lemma EmailsSnoc(vs: seq<View>)
    requires vs != []
    ensures PatientEmails(vs) == PatientEmails(vs[..|vs| - 1]) + {vs[|vs| - 1].appointment.patientEmail}
  {
    var init := vs[..|vs| - 1];
    forall e | e in PatientEmails(vs)
      ensures e in PatientEmails(init) + {vs[|vs| - 1].appointment.patientEmail}
    {
      var i :| 0 <= i < |vs| && vs[i].appointment.patientEmail == e;
      if i < |vs| - 1 { assert init[i] == vs[i]; }
    }
    forall e | e in PatientEmails(init)
      ensures e in PatientEmails(vs)
    {
      var i :| 0 <= i < |init| && init[i].appointment.patientEmail == e;
      assert vs[i] == init[i];
    }
  }

  /** Completed-today is a part of today's appointments; pending, completed and cancelled add up to all. */
  lemma StatisticsBounds(vs: seq<View>, today: string)
    ensures Statistics(vs, today).completedToday <= Statistics(vs, today).todayAppointments
    ensures Statistics(vs, today).pending + Seqs.Count(IsCompleted, vs) + Seqs.Count(IsCancelled, vs) == |vs|
  {
    Seqs.CountMono(v => CompletedToday(today, v), v => IsToday(today, v), vs);
    Seqs.CountSplit(IsPending, IsClosed, vs);
    Seqs.CountDisjoint(IsCompleted, IsCancelled, IsClosed, vs);
  }

  // ---------------------------------------------------------------- displayAppointments

  /** The filter buttons: `"today"` and `"pending"` narrow the list, anything else shows all. */
  function FilterStep(vs: seq<View>, filter: string, today: string): seq<View> {
    if filter == "today" then Seqs.Filter(v => IsToday(today, v), vs)
    else if filter == "pending" then Seqs.Filter(IsPending, vs)
    else vs
  }

  predicate NotCancelled(v: View) { v.appointment.status != Cancelled }
  predicate NotCompleted(v: View) { v.appointment.status != Completed }

  /** `visibleAppointments`: the filter first, then every cancelled appointment removed. */
  function Visible(vs: seq<View>, filter: string, today: string): seq<View> {
    Seqs.Filter(NotCancelled, FilterStep(vs, filter, today))
  }

  /** No cancelled appointment is ever shown, and the "pending" view holds only booked ones. */
  lemma VisibleStatuses(vs: seq<View>, filter: string, today: string, v: View)
    requires v in Visible(vs, filter, today)
    ensures v in vs && v.appointment.status != Cancelled
    ensures filter == "pending" ==> v.appointment.status == Booked
    ensures filter == "today" ==> v.appointment.date == today
  {
  }

  /** Each visible appointment lands in exactly one section, so the sections add up to the visible list. */
  lemma SectionsPartition(visible: seq<View>)
    ensures |Seqs.Filter(NotCompleted, visible)| + |Seqs.Filter(IsCompleted, visible)| == |visible|
    ensures forall v :: v in visible ==> (v in Seqs.Filter(IsCompleted, visible) <==> v !in Seqs.Filter(NotCompleted, visible))
  {
    Seqs.CountSplit(IsCompleted, NotCompleted, visible);
    forall v | v in visible
      ensures v in Seqs.Filter(IsCompleted, visible) <==> v !in Seqs.Filter(NotCompleted, visible)
    {
      var i :| 0 <= i < |visible| && visible[i] == v;
    }
  }

  /** `app.prescription?.isRevoked === true`. */
  predicate CardRevoked(v: View) {
    v.prescription.Some? && v.prescription.value.fields.isRevoked
  }

  /** A completed card offers Edit and Download, both disabled when revoked; any other card offers Write. */
  datatype Buttons = EditAndDownload(enabled: bool) | WritePrescription

  datatype Card = Card(id: string, patientName: string, date: string, time: string, status: Status,
                       todayBadge: bool, revokedNotice: bool, buttons: Buttons)

  function RenderCard(v: View, today: string): (c: Card)
    ensures c.id == v.appointment.id && c.status == v.appointment.status
    ensures c.todayBadge <==> IsToday(today, v)
    ensures c.buttons.EditAndDownload? <==> IsCompleted(v)
    ensures c.buttons.EditAndDownload? ==> (c.buttons.enabled <==> !c.revokedNotice)
    ensures c.revokedNotice <==> CardRevoked(v)
  {
    var a := v.appointment;
    Card(a.id, a.patientName, a.date, a.time, a.status, a.date == today, CardRevoked(v),
         if a.status == Completed then EditAndDownload(!CardRevoked(v)) else WritePrescription)
  }

  /** The cards of a list, in order. */
  function Cards(vs: seq<View>, today: string): (cs: seq<Card>)
    ensures |cs| == |vs|
    decreases |vs|
  {
    if vs == [] then [] else Cards(vs[..|vs| - 1], today) + [RenderCard(vs[|vs| - 1], today)]
  }

  /** The card at each position is the one rendered for the appointment at that position. */
  lemma {:induction false} CardsAt(vs: seq<View>, today: string, i: nat)
    requires i < |vs|
    ensures Cards(vs, today)[i] == RenderCard(vs[i], today)
    decreases |vs|
  {
    if i < |vs| - 1 {
      CardsAt(vs[..|vs| - 1], today, i);
    }
  }

  /** The list area: the empty-state message, or the two sections with their "No ... appointments" notes. */
  datatype Display =
    | NoneFound(message: string)
    | Sections(upcoming: seq<Card>, completed: seq<Card>, noUpcomingNote: bool, noCompletedNote: bool)

  function EmptyMessage(filter: string): string {
    "No " + (if filter == "all" then "" else filter) + " appointments found"
  }

  /**
   * `displayAppointments(appointments, filter)`: the two filters, then one
   * pass over the visible list that appends each card to its section and
   * raises that section's flag.
   */
  /** What `displayAppointments(appointments, filter)` leaves in the list area. */
  predicate DisplaysAs(d: Display, appointments: seq<View>, filter: string, today: string) {
    var visible := Visible(appointments, filter, today);
    && (visible == [] ==> d == NoneFound(EmptyMessage(filter)))
    && (visible != [] ==>
          && d.Sections?
          && d.upcoming == Cards(Seqs.Filter(NotCompleted, visible), today)
          && d.completed == Cards(Seqs.Filter(IsCompleted, visible), today)
          && (d.noUpcomingNote <==> d.upcoming == [])
          && (d.noCompletedNote <==> d.completed == []))
  }

  method DisplayAppointments(appointments: seq<View>, filter: string, today: string) returns (d: Display)
    ensures DisplaysAs(d, appointments, filter, today)
  {
    var filtered := appointments;
    if filter == "today" {
      filtered := Seqs.Filter(v => IsToday(today, v), appointments);
    } else if filter == "pending" {
      filtered := Seqs.Filter(IsPending, appointments);
    }
    var visible := Seqs.Filter(NotCancelled, filtered);
    if |visible| == 0 {
      return NoneFound(EmptyMessage(filter));
    }
    var upcoming, completed, hasUpcoming, hasCompleted := SortIntoSections(visible, today);
    d := Sections(upcoming, completed, !hasUpcoming, !hasCompleted);
  }

  /** The `forEach` of `displayAppointments`: each card goes to the completed or the upcoming section. */
  method SortIntoSections(visible: seq<View>, today: string)
      returns (upcoming: seq<Card>, completed: seq<Card>, hasUpcoming: bool, hasCompleted: bool)
    ensures upcoming == Cards(Seqs.Filter(NotCompleted, visible), today)
    ensures completed == Cards(Seqs.Filter(IsCompleted, visible), today)
    ensures hasUpcoming <==> upcoming != []
    ensures hasCompleted <==> completed != []
  {
    upcoming, completed := [], [];
    hasUpcoming, hasCompleted := false, false;
    for i := 0 to |visible|
      invariant upcoming == Cards(Seqs.Filter(NotCompleted, visible[..i]), today)
      invariant completed == Cards(Seqs.Filter(IsCompleted, visible[..i]), today)
      invariant hasUpcoming <==> upcoming != []
      invariant hasCompleted <==> completed != []
    {
      SectionsNext(visible, i, today, upcoming, completed);
      var card := RenderCard(visible[i], today);
      if IsCompleted(visible[i]) {
        completed := completed + [card];
        hasCompleted := true;
      } else {
        upcoming := upcoming + [card];
        hasUpcoming := true;
      }
    }
    assert visible[..|visible|] == visible;
  }

  /** The step of the loop: the card of the next view joins exactly one of the two sections. */
  lemma SectionsNext(visible: seq<View>, i: nat, today: string, upcoming: seq<Card>, completed: seq<Card>)
    requires i < |visible|
    requires upcoming == Cards(Seqs.Filter(NotCompleted, visible[..i]), today)
    requires completed == Cards(Seqs.Filter(IsCompleted, visible[..i]), today)
    ensures IsCompleted(visible[i]) ==>
              && completed + [RenderCard(visible[i], today)] == Cards(Seqs.Filter(IsCompleted, visible[..i + 1]), today)
              && upcoming == Cards(Seqs.Filter(NotCompleted, visible[..i + 1]), today)
    ensures !IsCompleted(visible[i]) ==>
              && upcoming + [RenderCard(visible[i], today)] == Cards(Seqs.Filter(NotCompleted, visible[..i + 1]), today)
              && completed == Cards(Seqs.Filter(IsCompleted, visible[..i + 1]), today)
  {
    SectionsStep(visible, i, today, IsCompleted);
    SectionsStep(visible, i, today, NotCompleted);
  }

  /** One more element of the visible list adds its card to the section it passes, and only there. */
  lemma SectionsStep(visible: seq<View>, i: nat, today: string, section: View -> bool)
    requires i < |visible|
    ensures Cards(Seqs.Filter(section, visible[..i + 1]), today)
            == Cards(Seqs.Filter(section, visible[..i]), today)
               + (if section(visible[i]) then [RenderCard(visible[i], today)] else [])
  {
    Seqs.FilterSnoc(section, visible, i);
    var f := Seqs.Filter(section, visible[..i]);
    if section(visible[i]) {
      CardsAppend(f, visible[i], today);
    } else {
      assert f + [] == f;
    }
  }

  lemma CardsAppend(vs: seq<View>, v: View, today: string)
    ensures Cards(vs + [v], today) == Cards(vs, today) + [RenderCard(v, today)]
  {
    assert (vs + [v])[..|vs|] == vs;
  }

  // ---------------------------------------------------------------- looksEncrypted

  predicate IsHexChar(c: char) { '0' <= c <= '9' || 'a' <= c <= 'f' || 'A' <= c <= 'F' }

  /** `looksEncrypted(val)`: a string of more than 40 characters, all hex digits of either case. */
  predicate LooksEncrypted(v: Option<string>) {
    v.Some? && |v.value| > 40 && forall i :: 0 <= i < |v.value| ==> IsHexChar(v.value[i])
  }

  /**
   * What the edit form shows for a stored field: nothing when it looks
   * encrypted, otherwise the value; an absent diagnosis or medicines field
   * is assigned `undefined`, which the input shows as that text.
   */
  function FieldText(v: Option<string>): (s: string)
    ensures LooksEncrypted(v) ==> s == ""
    ensures v.Some? && !LooksEncrypted(v) ==> s == v.value
  {
    if LooksEncrypted(v) then "" else if v.Some? then v.value else "undefined"
  }

  /** The advice field: `looksEncrypted(advice) ? "" : (advice || "")`. */
  function AdviceText(v: Option<string>): (s: string)
    ensures Falsy(v) || LooksEncrypted(v) ==> s == ""
    ensures v.Some? && !LooksEncrypted(v) ==> s == v.value
  {
    if LooksEncrypted(v) then "" else if v.Some? then v.value else ""
  }

  /** The shape of every stored ciphertext: `k` whole blocks, 32 lower-case hex digits each. */
  lemma SessionCiphertextShape(lib: NodeCrypto.Library, session: Option<Bytes>, text: string)
    requires NodeCrypto.Sound(lib) && CryptoFacade.ValidSessionKey(session)
    ensures var c := CryptoFacade.SessionEncrypt(lib, session, text);
            && |c| == 32 * (|Utf8.Encode(text)| / 16 + 1)
            && forall i :: 0 <= i < |c| ==> IsHexChar(c[i])
  {
    var c := CryptoFacade.SessionEncrypt(lib, session, text);
    assert c == CryptoFacade.EncryptUnder(lib, CryptoFacade.ActiveKey(lib, session), text);
  }

  /** A ciphertext of a plaintext of 16 or more UTF-8 bytes is at least 64 hex digits and is hidden. */
  lemma LongCiphertextHidden(lib: NodeCrypto.Library, session: Option<Bytes>, text: string)
    requires NodeCrypto.Sound(lib) && CryptoFacade.ValidSessionKey(session)
    requires |Utf8.Encode(text)| >= 16
    ensures LooksEncrypted(Some(CryptoFacade.SessionEncrypt(lib, session, text)))
    ensures FieldText(Some(CryptoFacade.SessionEncrypt(lib, session, text))) == ""
  {
    SessionCiphertextShape(lib, session, text);
    BlocksLength(|Utf8.Encode(text)|, |CryptoFacade.SessionEncrypt(lib, session, text)|);
  }

  /** `32 * (n / 16 + 1)` against the two thresholds. */
  lemma BlocksLength(n: nat, len: nat)
    requires len == 32 * (n / 16 + 1)
    ensures n >= 16 ==> len >= 64
    ensures n < 16 ==> len == 32
    ensures len >= 32 && len % 32 == 0
  {
    var q := n / 16;
    assert len == 32 * q + 32;
  }

  /**
   * A plaintext shorter than 16 UTF-8 bytes encrypts to one block, 32 hex
   * digits, under the 40-character threshold: when the doctor read could not
   * decrypt it, the edit form shows the ciphertext itself.
   */
  lemma ShortCiphertextShown(lib: NodeCrypto.Library, session: Option<Bytes>, text: string)
    requires NodeCrypto.Sound(lib) && CryptoFacade.ValidSessionKey(session)
    requires |Utf8.Encode(text)| < 16
    ensures |CryptoFacade.SessionEncrypt(lib, session, text)| == 32
    ensures !LooksEncrypted(Some(CryptoFacade.SessionEncrypt(lib, session, text)))
    ensures FieldText(Some(CryptoFacade.SessionEncrypt(lib, session, text))) == CryptoFacade.SessionEncrypt(lib, session, text)
  {
    SessionCiphertextShape(lib, session, text);
    BlocksLength(|Utf8.Encode(text)|, |CryptoFacade.SessionEncrypt(lib, session, text)|);
  }

  /**
   * The guard the threshold evidently stands for: a non-empty run of whole
   * 16-byte blocks in hex, which is the shape of every stored ciphertext.
   */
  predicate LooksEncryptedCorrected(v: Option<string>) {
    v.Some? && |v.value| >= 32 && |v.value| % 32 == 0 && forall i :: 0 <= i < |v.value| ==> IsHexChar(v.value[i])
  }

  function FieldTextCorrected(v: Option<string>): string {
    if LooksEncryptedCorrected(v) then "" else if v.Some? then v.value else "undefined"
  }

  /** With the corrected guard, no ciphertext the backend writes reaches the edit form, whatever its length. */
  lemma CorrectedHidesEveryCiphertext(lib: NodeCrypto.Library, session: Option<Bytes>, text: string)
    requires NodeCrypto.Sound(lib) && CryptoFacade.ValidSessionKey(session)
    ensures LooksEncryptedCorrected(Some(CryptoFacade.SessionEncrypt(lib, session, text)))
    ensures FieldTextCorrected(Some(CryptoFacade.SessionEncrypt(lib, session, text))) == ""
  {
    SessionCiphertextShape(lib, session, text);
    BlocksLength(|Utf8.Encode(text)|, |CryptoFacade.SessionEncrypt(lib, session, text)|);
  }

  // ---------------------------------------------------------------- submitPrescription

  /** The JSON body: `followupDate` is only present when the input is non-empty. */
  datatype Payload = Payload(diagnosis: string, medicines: string, advice: string, followupDate: Option<string>)

  /** `alert("Diagnosis and medicines are required")`, or the POST to `/prescription/${selectedAppointmentId}`. */
  datatype SubmitOutcome = SubmitRefused | Post(appointmentId: Option<string>, payload: Payload)

  function Submit(diagnosis: string, medicines: string, advice: string, followupDate: string,
                  selected: Option<string>): (r: SubmitOutcome)
    ensures r.Post? <==> Trim(diagnosis) != "" && Trim(medicines) != ""
    ensures r.Post? ==> && r.appointmentId == selected
                        && r.payload.diagnosis == Trim(diagnosis) && r.payload.medicines == Trim(medicines)
                        && r.payload.advice == Trim(advice)
                        && (r.payload.followupDate.Some? <==> followupDate != "")
                        && (followupDate != "" ==> r.payload.followupDate == Some(followupDate))
  {
    var d, m, a := Trim(diagnosis), Trim(medicines), Trim(advice);
    if d == "" || m == "" then SubmitRefused
    else Post(selected, Payload(d, m, a, if followupDate != "" then Some(followupDate) else None))
  }

  /** Fields of whitespace only are refused before any request. */
  lemma BlankFieldsRefused(diagnosis: string, medicines: string, advice: string, followupDate: string,
                           selected: Option<string>)
    requires forall i :: 0 <= i < |diagnosis| ==> IsWhitespace(diagnosis[i])
    ensures Submit(diagnosis, medicines, advice, followupDate, selected) == SubmitRefused
  {
    TrimEmpty(diagnosis);
  }

  /**
   * What the form submits always passes the server's required-fields check:
   * the server then accepts exactly when the appointment exists and its
   * prescription is not revoked.
   */
  lemma SubmittedPassesServerCheck(lib: NodeCrypto.Library, session: Option<Bytes>, db: Store.Db,
                                   diagnosis: string, medicines: string, advice: string, followupDate: string,
                                   id: string, now: int)
    requires NodeCrypto.Sound(lib) && CryptoFacade.ValidSessionKey(session)
    requires Submit(diagnosis, medicines, advice, followupDate, Some(id)).Post?
    ensures var p := Submit(diagnosis, medicines, advice, followupDate, Some(id)).payload;
            var r := AppointmentRoutes.AddPrescription(lib, session, db, id, Some(p.diagnosis), Some(p.medicines),
                                                       Some(p.advice), now);
            r.1.success <==>
              var k := Store.FindId(Store.AppointmentIds(db.appointments), id);
              k.Found? && !AppointmentRoutes.IsRevoked(db.appointments[k.index])
  {
  }

  // ---------------------------------------------------------------- the page state

  const AppointmentNotFound := "Appointment not found"
  const OnlyTodayWrite := "You can only write prescriptions for today's appointments!"
  const PrescriptionNotFound := "Prescription not found"
  const RevokedNoEdit := "This prescription was revoked by admin and cannot be edited."
  const OnlyTodayEdit := "You can only edit prescriptions for today's appointments!"
  const ErrorLoading := "Error loading prescription"

  predicate HasId(id: string, v: View) { v.appointment.id == id }

  /** The prescription form's inputs, which keep their values between openings. */
  datatype Form = Form(patientName: string, diagnosis: string, medicines: string, advice: string, followupDate: string)

  /** The appointments request: the parsed JSON, or an error thrown by `fetch` / `json()`. */
  datatype AppointmentsFetch = Fetched(success: bool, appointments: seq<View>) | FetchFailed

  /** The list container: the loading line, "No appointments found", the error line, or a display. */
  datatype ListArea = LoadingList | NoAppointments | ListError | Listed(display: Display)

  /** The module-level `allAppointments`, `currentFilter` and `selectedAppointmentId`, and what the page shows. */
  class DoctorPage {
    var allAppointments: seq<View>
    var currentFilter: string
    var selectedAppointmentId: Option<string>
    var modalOpen: bool
    var form: Form
    var stats: Stats
    var list: ListArea

    constructor ()
      ensures allAppointments == [] && currentFilter == "all" && selectedAppointmentId == None
      ensures !modalOpen && form == Form("", "", "", "", "") && stats == Stats(0, 0, 0, 0) && list == LoadingList
    {
      allAppointments := [];
      currentFilter := "all";
      selectedAppointmentId := None;
      modalOpen := false;
      form := Form("", "", "", "", "");
      stats := Stats(0, 0, 0, 0);
      list := LoadingList;
    }

    /**
     * `loadDoctorAppointments()`. A refused or empty reply shows "No
     * appointments found" and zero statistics but keeps the previous
     * `allAppointments`; a thrown error leaves the statistics as they were.
     */
    method LoadDoctorAppointments(reply: AppointmentsFetch, today: string)
      modifies `allAppointments, `stats, `list
      ensures reply.Fetched? && reply.success && reply.appointments != [] ==>
                && allAppointments == reply.appointments
                && stats == Statistics(reply.appointments, today)
                && list.Listed? && DisplaysAs(list.display, reply.appointments, currentFilter, today)
      ensures reply.Fetched? && !(reply.success && reply.appointments != []) ==>
                && allAppointments == old(allAppointments) && stats == Statistics([], today) && list == NoAppointments
      ensures reply.FetchFailed? ==>
                && allAppointments == old(allAppointments) && stats == old(stats) && list == ListError
    {
      list := LoadingList;
      if reply.FetchFailed? {
        list := ListError;
        return;
      }
      if !reply.success || |reply.appointments| == 0 {
        list := NoAppointments;
        stats := Statistics([], today);
        return;
      }
      allAppointments := reply.appointments;
      stats := Statistics(allAppointments, today);
      var d := DisplayAppointments(allAppointments, currentFilter, today);
      list := Listed(d);
    }

    /** `filterAppointments(filterType)`: remembers the filter and redraws the stored list. */
    method FilterAppointments(filterType: string, today: string)
      modifies `currentFilter, `list
      ensures currentFilter == filterType
      ensures list.Listed? && DisplaysAs(list.display, allAppointments, filterType, today)
    {
      currentFilter := filterType;
      var d := DisplayAppointments(allAppointments, filterType, today);
      list := Listed(d);
    }

    /**
     * `openNewPrescription(id)`: only a known appointment dated today opens
     * the form, with every input cleared.
     */
    method OpenNewPrescription(id: string, today: string) returns (alert: Option<string>)
      modifies `selectedAppointmentId, `modalOpen, `form
      ensures var k := Seqs.FirstIndex(v => HasId(id, v), allAppointments);
              && (k.None? ==> alert == Some(AppointmentNotFound))
              && (k.Some? && !IsToday(today, allAppointments[k.value]) ==> alert == Some(OnlyTodayWrite))
              && (alert.None? <==> k.Some? && IsToday(today, allAppointments[k.value]))
              && (alert.None? ==>
                    && selectedAppointmentId == Some(id) && modalOpen
                    && form == Form(allAppointments[k.value].appointment.patientName, "", "", "", ""))
      ensures alert.Some? ==>
                selectedAppointmentId == old(selectedAppointmentId) && modalOpen == old(modalOpen) && form == old(form)
    {
      var k := Seqs.FirstIndex(v => HasId(id, v), allAppointments);
      if k.None? {
        return Some(AppointmentNotFound);
      }
      var app := allAppointments[k.value];
      if app.appointment.date != today {
        return Some(OnlyTodayWrite);
      }
      selectedAppointmentId := Some(id);
      form := Form(app.appointment.patientName, "", "", "", "");
      modalOpen := true;
      alert := None;
    }

    /**
     * `openEditPrescription(id)`: records the id before anything else, reads a
     * fresh list (`None`: the request or its JSON threw, or the reply has no
     * list), and opens the form only for an existing, unrevoked prescription
     * of today. The prescription path has no `followupDate`, so that input
     * keeps its previous value.
     */
    method OpenEditPrescription(id: string, today: string, fetched: Option<seq<View>>) returns (alert: Option<string>)
      modifies `selectedAppointmentId, `modalOpen, `form
      ensures selectedAppointmentId == Some(id)
      ensures fetched.None? ==> alert == Some(ErrorLoading)
      ensures alert.Some? ==> modalOpen == old(modalOpen) && form == old(form)
      ensures alert.None? <==> fetched.Some? && EditOpens(id, today, fetched.value)
      ensures alert.None? ==>
                var app := fetched.value[Seqs.FirstIndex(v => HasId(id, v), fetched.value).value];
                var p := app.prescription.value.fields;
                && modalOpen
                && form == Form(app.appointment.patientName, FieldText(p.diagnosis), FieldText(p.medicines),
                                AdviceText(p.advice), old(form).followupDate)
    {
      selectedAppointmentId := Some(id);
      if fetched.None? {
        return Some(ErrorLoading);
      }
      var k := Seqs.FirstIndex(v => HasId(id, v), fetched.value);
      if k.None? || fetched.value[k.value].prescription.None? {
        return Some(PrescriptionNotFound);
      }
      var app := fetched.value[k.value];
      var p := app.prescription.value.fields;
      if p.isRevoked {
        return Some(RevokedNoEdit);
      }
      if app.appointment.date != today {
        return Some(OnlyTodayEdit);
      }
      form := Form(app.appointment.patientName, FieldText(p.diagnosis), FieldText(p.medicines),
                   AdviceText(p.advice), form.followupDate);
      modalOpen := true;
      alert := None;
    }
  }

  /** The edit form opens for the first appointment with the id when it has an unrevoked prescription and is today's. */
  predicate EditOpens(id: string, today: string, vs: seq<View>) {
    var k := Seqs.FirstIndex(v => HasId(id, v), vs);
    && k.Some? && vs[k.value].prescription.Some?
    && !vs[k.value].prescription.value.fields.isRevoked
    && IsToday(today, vs[k.value])
  }

  /** A revoked prescription or an appointment of another day never opens the edit form. */
  lemma EditRefusals(id: string, today: string, vs: seq<View>, i: nat)
    requires i < |vs| && HasId(id, vs[i]) && forall j :: 0 <= j < i ==> !HasId(id, vs[j])
    requires CardRevoked(vs[i]) || !IsToday(today, vs[i])
    ensures !EditOpens(id, today, vs)
  {
  }

  /** A card's Edit button is live only for an unrevoked prescription, which is what opening the edit form checks. */
  lemma LiveEditIsUnrevoked(v: View, today: string)
    requires RenderCard(v, today).buttons == EditAndDownload(true)
    ensures IsCompleted(v) && !CardRevoked(v)
  {
  }
}
