/**
 * `routes/appointmentRoutes.js`: booking and cancelling appointments, writing
 * a signed and encrypted prescription, the patient and doctor read
 * projections that decrypt it and check its signature, the two PDF routes,
 * and the admin audit list. Every handler runs against the document store;
 * the session key is the value `crypto.js` holds at the time of the request.
 */
module AppointmentRoutes {
  import opened Wrappers
  import opened Octets
  import opened Models
  import opened Store
  import opened JsString
  import opened NodeCrypto
  import opened CryptoFacade
  import Encoding
  import Seqs
  import VerifyToken

  // ---------------------------------------------------------------- invariant

  /** A revoked prescription carries no signature: revocation nulls it, and no write follows. */
  predicate RevokedUnsigned(a: Appointment) {
    a.prescription.Some? && a.prescription.value.isRevoked ==> a.prescription.value.signature.None?
  }

  /**
   * What every stored appointment satisfies: unique canonical ids, the schema's
   * required fields, and a `prescription` path, which Mongoose materialises on
   * every document because the nested path has the `isRevoked` default.
   */
  predicate ValidAppointments(apps: seq<Appointment>) {
    && UniqueIds(AppointmentIds(apps))
    && forall i :: 0 <= i < |apps| ==>
         && IsStoredId(apps[i].id) && AppointmentRequired(apps[i]) && RevokedUnsigned(apps[i])
         && apps[i].prescription.Some?
  }

  predicate IsRevoked(a: Appointment) {
    a.prescription.Some? && a.prescription.value.isRevoked
  }

  // ---------------------------------------------------------------- POST /book

  predicate BookingComplete(patientName: Option<string>, patientEmail: Option<string>, doctorId: Option<string>,
                            date: Option<string>, time: Option<string>) {
    !Falsy(patientName) && !Falsy(patientEmail) && !Falsy(doctorId) && !Falsy(date) && !Falsy(time)
  }

  /**
   * `POST /book`: every field but `disease` must be present and the doctor must
   * exist; the new appointment is `Booked` with the default prescription path.
   * `newId` is the ObjectId Mongoose generates and `now` the clock.
   */
  function Book(db: Db, patientName: Option<string>, patientEmail: Option<string>, doctorId: Option<string>,
                date: Option<string>, time: Option<string>, disease: Option<string>,
                newId: string, now: int): (r: (Db, Reply))
    ensures !BookingComplete(patientName, patientEmail, doctorId, date, time) ==>
              r == (db, Reply(200, false, "All fields are required"))
    ensures r.1.success <==>
              BookingComplete(patientName, patientEmail, doctorId, date, time)
              && FindId(DoctorIds(db.doctors), doctorId.value).Found?
    ensures !r.1.success ==> r.0 == db
    ensures r.1.success ==>
              var i := FindId(DoctorIds(db.doctors), doctorId.value).index;
              r.0 == db.(appointments := db.appointments +
                [NewAppointment(newId, patientName.value, patientEmail.value, db.doctors[i].id,
                                date.value, time.value, disease, now)])
  {
    if !BookingComplete(patientName, patientEmail, doctorId, date, time) then
      (db, Reply(200, false, "All fields are required"))
    else match FindId(DoctorIds(db.doctors), doctorId.value)
      case CastError => (db, ServerError)
      case NotFound => (db, Reply(200, false, "Doctor not found"))
      case Found(i) =>
        var a := NewAppointment(newId, patientName.value, patientEmail.value, db.doctors[i].id,
                                date.value, time.value, disease, now);
        (db.(appointments := db.appointments + [a]), Reply(200, true, "Appointment booked successfully"))
  }

  /** A booking with a fresh id keeps the store valid, and the new appointment is `Booked` and unrevoked. */
  lemma BookKeepsValid(db: Db, patientName: Option<string>, patientEmail: Option<string>, doctorId: Option<string>,
                       date: Option<string>, time: Option<string>, disease: Option<string>, newId: string, now: int)
    requires ValidAppointments(db.appointments)
    requires forall i :: 0 <= i < |db.doctors| ==> IsStoredId(db.doctors[i].id)
    requires IsStoredId(newId) && newId !in AppointmentIds(db.appointments)
    ensures var r := Book(db, patientName, patientEmail, doctorId, date, time, disease, newId, now);
            && ValidAppointments(r.0.appointments)
            && (r.1.success ==> var a := r.0.appointments[|db.appointments|]; a.status == Booked && !IsRevoked(a))
  {
    var r := Book(db, patientName, patientEmail, doctorId, date, time, disease, newId, now);
    if r.1.success {
      var apps := r.0.appointments;
      var ids := AppointmentIds(apps);
      assert ids == AppointmentIds(db.appointments) + [newId];
    }
  }

  // ---------------------------------------------------------------- PUT /cancel/:id

  /** `PUT /cancel/:id`: whatever the current status, the appointment becomes `Cancelled`. */
  function Cancel(db: Db, id: string): (r: (Db, Reply))
    ensures r.1.success <==> FindId(AppointmentIds(db.appointments), id).Found?
    ensures !IsObjectId(id) ==> r == (db, ServerError)
    ensures !r.1.success ==> r.0 == db
    ensures r.1.success ==>
              var i := FindId(AppointmentIds(db.appointments), id).index;
              r.0 == db.(appointments := db.appointments[i := db.appointments[i].(status := Cancelled)])
  {
    match FindId(AppointmentIds(db.appointments), id)
    case CastError => (db, ServerError)
    case NotFound => (db, Reply(200, false, "Appointment not found"))
    case Found(i) =>
      (db.(appointments := db.appointments[i := db.appointments[i].(status := Cancelled)]),
       Reply(200, true, "Appointment cancelled successfully"))
  }

  /** Cancelling keeps the store valid and is idempotent. */
  lemma CancelIdempotent(db: Db, id: string)
    requires ValidAppointments(db.appointments)
    ensures ValidAppointments(Cancel(db, id).0.appointments)
    ensures Cancel(Cancel(db, id).0, id).0 == Cancel(db, id).0
  {
    var r := Cancel(db, id);
    if r.1.success {
      var i := FindId(AppointmentIds(db.appointments), id).index;
      assert AppointmentIds(r.0.appointments) == AppointmentIds(db.appointments);
      assert r.0.appointments[i].status == Cancelled;
      assert r.0.appointments[i := r.0.appointments[i].(status := Cancelled)] == r.0.appointments;
    }
  }

  // ---------------------------------------------------------------- POST /prescription/:id

  const PrescriptionRequired: string := "Diagnosis and medicines are required"
  const RevokedByAdmin: string := "Prescription revoked by admin"

  /** `advice || ""`. */
  function AdviceText(advice: Option<string>): (s: string)
    ensures Falsy(advice) <==> s == ""
  {
    if Falsy(advice) then "" else advice.value
  }

  /** The signed string: the plaintext fields and the appointment id, concatenated without separators. */
  function SigningInput(diagnosis: string, medicines: string, advice: string, id: string): string {
    diagnosis + medicines + advice + id
  }

  /**
   * The prescription a successful write stores: the three fields encrypted under
   * the current session key (an absent advice stored as `""`), the signature over
   * the plaintext, the write time, and every other sub-field unset.
   */
  function SealPrescription(lib: Library, session: Option<Bytes>, id: string, diagnosis: string, medicines: string,
                            advice: Option<string>, now: int): (p: Prescription)
    requires Sound(lib) && ValidSessionKey(session)
    ensures !p.isRevoked && p.createdAt == Some(now)
    ensures p.signature == Some(SignData(lib, SigningInput(diagnosis, medicines, AdviceText(advice), id)))
    ensures p.advice == Some("") <==> Falsy(advice)
  {
    Prescription(
      Some(SessionEncrypt(lib, session, diagnosis)),
      Some(SessionEncrypt(lib, session, medicines)),
      Some(if Falsy(advice) then "" else SessionEncrypt(lib, session, advice.value)),
      Some(SignData(lib, SigningInput(diagnosis, medicines, AdviceText(advice), id))),
      None, Some(now), false, None, None)
  }

  /** The appointment after a successful write: the new prescription, and the status `Completed`. */
  function Prescribe(lib: Library, session: Option<Bytes>, a: Appointment, diagnosis: string, medicines: string,
                     advice: Option<string>, now: int): Appointment
    requires Sound(lib) && ValidSessionKey(session)
  {
    a.(prescription := Some(SealPrescription(lib, session, a.id, diagnosis, medicines, advice, now)), status := Completed)
  }

  /**
   * `POST /prescription/:id`: refuses missing fields, an unknown appointment and a
   * revoked prescription without any change; otherwise replaces the whole
   * prescription and marks the appointment `Completed`.
   */
  function AddPrescription(lib: Library, session: Option<Bytes>, db: Db, id: string,
                           diagnosis: Option<string>, medicines: Option<string>, advice: Option<string>,
                           now: int): (r: (Db, Reply))
    requires Sound(lib) && ValidSessionKey(session)
    ensures Falsy(diagnosis) || Falsy(medicines) ==> r == (db, Reply(200, false, PrescriptionRequired))
    ensures !r.1.success ==> r.0 == db
    ensures r.1.success <==>
              && !Falsy(diagnosis) && !Falsy(medicines)
              && var k := FindId(AppointmentIds(db.appointments), id);
                 k.Found? && !IsRevoked(db.appointments[k.index])
    ensures r.1.success ==>
              var i := FindId(AppointmentIds(db.appointments), id).index;
              var a := db.appointments[i];
              r.0 == db.(appointments := db.appointments[i := Prescribe(lib, session, a, diagnosis.value, medicines.value, advice, now)])
  {
    if Falsy(diagnosis) || Falsy(medicines) then (db, Reply(200, false, PrescriptionRequired))
    else match FindId(AppointmentIds(db.appointments), id)
      case CastError => (db, ServerError)
      case NotFound => (db, Reply(200, false, "Appointment not found"))
      case Found(i) =>
        var a := db.appointments[i];
        if IsRevoked(a) then (db, Reply(200, false, RevokedByAdmin))
        else
          (db.(appointments := db.appointments[i := Prescribe(lib, session, a, diagnosis.value, medicines.value, advice, now)]),
           Reply(200, true, "Prescription added successfully"))
  }

  /** A revoked prescription is never overwritten: every revoked appointment is left exactly as it was. */
  lemma AddPrescriptionKeepsRevoked(lib: Library, session: Option<Bytes>, db: Db, id: string,
                                    diagnosis: Option<string>, medicines: Option<string>, advice: Option<string>,
                                    now: int, i: nat)
    requires Sound(lib) && ValidSessionKey(session)
    requires i < |db.appointments| && IsRevoked(db.appointments[i])
    ensures var r := AddPrescription(lib, session, db, id, diagnosis, medicines, advice, now);
            |r.0.appointments| == |db.appointments| && r.0.appointments[i] == db.appointments[i]
  {
    var r := AddPrescription(lib, session, db, id, diagnosis, medicines, advice, now);
    if r.1.success {
      var k := FindId(AppointmentIds(db.appointments), id).index;
      assert k != i;
    }
  }

  /** Writing a prescription keeps the store valid. */
  lemma AddPrescriptionKeepsValid(lib: Library, session: Option<Bytes>, db: Db, id: string,
                                  diagnosis: Option<string>, medicines: Option<string>, advice: Option<string>, now: int)
    requires Sound(lib) && ValidSessionKey(session) && ValidAppointments(db.appointments)
    ensures ValidAppointments(AddPrescription(lib, session, db, id, diagnosis, medicines, advice, now).0.appointments)
  {
    if !Falsy(diagnosis) && !Falsy(medicines) {
      var k := FindId(AppointmentIds(db.appointments), id);
      if k.Found? && !IsRevoked(db.appointments[k.index]) {
        var a := db.appointments[k.index];
        ReplaceKeepsValid(db.appointments, k.index, Prescribe(lib, session, a, diagnosis.value, medicines.value, advice, now));
      }
    }
  }

  /** Saving one document in place, with its id kept, keeps the store valid when the document is. */
  lemma ReplaceKeepsValid(apps: seq<Appointment>, i: nat, a: Appointment)
    requires ValidAppointments(apps) && i < |apps|
    requires a.id == apps[i].id && AppointmentRequired(a) && RevokedUnsigned(a) && a.prescription.Some?
    ensures ValidAppointments(apps[i := a])
  {
    assert AppointmentIds(apps[i := a]) == AppointmentIds(apps);
  }

  // ---------------------------------------------------------------- read projections

  /**
   * A prescription as a read route sends it: the (possibly decrypted) sub-fields
   * and the two flags the handlers attach; `None` is a flag left unset.
   */
  datatype PrescriptionView = PrescriptionView(fields: Prescription, isValid: Option<bool>, isEditable: Option<bool>)

  /** `{ isRevoked: true }`: a prescription path with nothing else set. */
  const RevokedNotice: Prescription := DefaultPrescription.(isRevoked := true)

  datatype Plaintext = Plaintext(diagnosis: string, medicines: string, advice: string)

  /** The three decryptions inside the handlers' `try`; a falsy advice is not decrypted. */
  function OpenPrescription(lib: Library, session: Option<Bytes>, p: Prescription): (r: Result<Plaintext, CipherError>)
    requires Sound(lib) && ValidSessionKey(session)
    ensures p.diagnosis.None? || p.medicines.None? ==> r.Failure?
    ensures r.Success? && Falsy(p.advice) ==> r.value.advice == ""
  {
    var d :- SessionDecrypt(lib, session, p.diagnosis);
    var m :- SessionDecrypt(lib, session, p.medicines);
    var a :- if Falsy(p.advice) then Success("") else SessionDecrypt(lib, session, p.advice);
    Success(Plaintext(d, m, a))
  }

  /** The stored fields overwritten by their plaintexts. */
  function Reveal(p: Prescription, t: Plaintext): Prescription {
    p.(diagnosis := Some(t.diagnosis), medicines := Some(t.medicines), advice := Some(t.advice))
  }

  /** `isValid`: the stored signature checked against the decrypted fields and the id. */
  function SignatureHolds(lib: Library, id: string, p: Prescription, t: Plaintext): bool
    requires Sound(lib)
  {
    VerifySignature(lib, SigningInput(t.diagnosis, t.medicines, t.advice, id), p.signature)
  }

  /** The patient route's treatment of one prescription. */
  function PatientPrescription(lib: Library, session: Option<Bytes>, id: string, p: Prescription): (v: PrescriptionView)
    requires Sound(lib) && ValidSessionKey(session)
    ensures p.isRevoked ==> v == PrescriptionView(RevokedNotice, None, None)
    ensures !p.isRevoked ==> v.isValid.Some? && v.isEditable.None?
    ensures !p.isRevoked && OpenPrescription(lib, session, p).Failure? ==> v == PrescriptionView(p, Some(false), None)
  {
    if p.isRevoked then PrescriptionView(RevokedNotice, None, None)
    else match OpenPrescription(lib, session, p)
      case Failure(_) => PrescriptionView(p, Some(false), None)
      case Success(t) => PrescriptionView(Reveal(p, t), Some(SignatureHolds(lib, id, p, t)), None)
  }

  /** The doctor route's treatment of one prescription: revoked ones are marked not editable and left encrypted. */
  function DoctorPrescription(lib: Library, session: Option<Bytes>, id: string, p: Prescription): (v: PrescriptionView)
    requires Sound(lib) && ValidSessionKey(session)
    ensures p.isRevoked ==> v == PrescriptionView(p, None, Some(false))
    ensures v.isEditable == Some(true) <==> !p.isRevoked && OpenPrescription(lib, session, p).Success?
    ensures !p.isRevoked && OpenPrescription(lib, session, p).Failure? ==> v == PrescriptionView(p, Some(false), None)
  {
    if p.isRevoked then PrescriptionView(p, None, Some(false))
    else match OpenPrescription(lib, session, p)
      case Failure(_) => PrescriptionView(p, Some(false), None)
      case Success(t) => PrescriptionView(Reveal(p, t), Some(SignatureHolds(lib, id, p, t)), Some(true))
  }

  /** One element of a read route's answer: the document, its Base64 `encodedId`, and its prescription. */
  datatype AppointmentView = AppointmentView(appointment: Appointment, encodedId: string, prescription: Option<PrescriptionView>)

  function PatientView(lib: Library, session: Option<Bytes>, a: Appointment): (v: AppointmentView)
    requires Sound(lib) && ValidSessionKey(session)
    ensures v.appointment == a && v.encodedId == Encoding.EncodeBase64(a.id)
  {
    AppointmentView(a, Encoding.EncodeBase64(a.id),
      match a.prescription
      case None => None
      case Some(p) => Some(PatientPrescription(lib, session, a.id, p)))
  }

  function DoctorView(lib: Library, session: Option<Bytes>, a: Appointment): (v: AppointmentView)
    requires Sound(lib) && ValidSessionKey(session)
    ensures v.appointment == a && v.encodedId == Encoding.EncodeBase64(a.id)
  {
    AppointmentView(a, Encoding.EncodeBase64(a.id),
      match a.prescription
      case None => None
      case Some(p) => Some(DoctorPrescription(lib, session, a.id, p)))
  }

  /** The patient query: `{ patientEmail: email, status: { $ne: "Cancelled" } }`. */
  predicate ListedForPatient(email: string, a: Appointment) {
    a.patientEmail == email && a.status != Cancelled
  }

  /** `GET /my/:email`: the patient's appointments other than cancelled ones, each projected. */
  function PatientList(lib: Library, session: Option<Bytes>, email: string, apps: seq<Appointment>): (r: seq<AppointmentView>)
    requires Sound(lib) && ValidSessionKey(session)
    ensures |r| <= |apps|
    ensures forall i :: 0 <= i < |r| ==> ListedForPatient(email, r[i].appointment)
    decreases |apps|
  {
    if apps == [] then []
    else
      var last := apps[|apps| - 1];
      PatientList(lib, session, email, apps[..|apps| - 1])
        + (if ListedForPatient(email, last) then [PatientView(lib, session, last)] else [])
  }

  /** The doctor query: `{ doctor: doctorId }`, every status included. */
  function DoctorList(lib: Library, session: Option<Bytes>, doctorId: string, apps: seq<Appointment>): (r: seq<AppointmentView>)
    requires Sound(lib) && ValidSessionKey(session)
    ensures |r| <= |apps|
    ensures forall i :: 0 <= i < |r| ==> r[i].appointment.doctor == doctorId
    decreases |apps|
  {
    if apps == [] then []
    else
      var last := apps[|apps| - 1];
      DoctorList(lib, session, doctorId, apps[..|apps| - 1])
        + (if last.doctor == doctorId then [DoctorView(lib, session, last)] else [])
  }

  /** The patient list is the projection of exactly the listed appointments, in store order. */
  lemma {:induction false} PatientListIsProjection(lib: Library, session: Option<Bytes>, email: string, apps: seq<Appointment>)
    requires Sound(lib) && ValidSessionKey(session)
    ensures var r := PatientList(lib, session, email, apps);
            var listed := Seqs.Filter((a: Appointment) => ListedForPatient(email, a), apps);
            |r| == |listed| && forall i :: 0 <= i < |r| ==> r[i] == PatientView(lib, session, listed[i])
    decreases |apps|
  {
    if apps != [] {
      PatientListIsProjection(lib, session, email, apps[..|apps| - 1]);
    }
  }

  /** The doctor list is the projection of exactly that doctor's appointments, in store order. */
  lemma {:induction false} DoctorListIsProjection(lib: Library, session: Option<Bytes>, doctorId: string, apps: seq<Appointment>)
    requires Sound(lib) && ValidSessionKey(session)
    ensures var r := DoctorList(lib, session, doctorId, apps);
            var listed := Seqs.Filter((a: Appointment) => a.doctor == doctorId, apps);
            |r| == |listed| && forall i :: 0 <= i < |r| ==> r[i] == DoctorView(lib, session, listed[i])
    decreases |apps|
  {
    if apps != [] {
      DoctorListIsProjection(lib, session, doctorId, apps[..|apps| - 1]);
    }
  }

  /**
   * `GET /doctor/:value`: a value that is an ObjectId is taken as the doctor's id
   * without checking that such a doctor exists; anything else is looked up as a
   * doctor's email, and an unknown email gives an empty list.
   */
  function DoctorKey(db: Db, value: string): (k: Option<string>)
    ensures IsObjectId(value) ==> k == Some(CanonicalId(value))
    ensures !IsObjectId(value) ==> (k.None? <==> DoctorByEmail(db.doctors, value).None?)
  {
    if IsObjectId(value) then Some(CanonicalId(value))
    else match DoctorByEmail(db.doctors, value)
      case None => None
      case Some(i) => Some(db.doctors[i].id)
  }

  /**
   * The doctor route's answer: nothing for an unknown e-mail, otherwise the
   * projection of exactly the appointments filed under the resolved key, in store order.
   */
  function DoctorAppointments(lib: Library, session: Option<Bytes>, db: Db, value: string): (r: seq<AppointmentView>)
    requires Sound(lib) && ValidSessionKey(session)
    ensures DoctorKey(db, value).None? ==> r == []
    ensures var k := DoctorKey(db, value);
            k.Some? ==>
              var listed := Seqs.Filter((a: Appointment) => a.doctor == k.value, db.appointments);
              |r| == |listed| && forall i :: 0 <= i < |r| ==> r[i] == DoctorView(lib, session, listed[i])
  {
    match DoctorKey(db, value)
    case None => []
    case Some(k) =>
      DoctorListIsProjection(lib, session, k, db.appointments);
      DoctorList(lib, session, k, db.appointments)
  }

  /** The patient route's loop: projects each listed appointment in turn, in store order. */
  method PatientAppointments(db: Database, lib: Library, session: Option<Bytes>, email: string) returns (views: seq<AppointmentView>)
    requires Sound(lib) && ValidSessionKey(session)
    ensures views == PatientList(lib, session, email, db.appointments)
  {
    views := [];
    var i := 0;
    while i < |db.appointments|
      invariant 0 <= i <= |db.appointments|
      invariant views == PatientList(lib, session, email, db.appointments[..i])
    {
      var app := db.appointments[i];
      PatientListSnoc(lib, session, email, db.appointments, i);
      if ListedForPatient(email, app) {
        views := views + [PatientView(lib, session, app)];
      }
      i := i + 1;
    }
    assert db.appointments[..i] == db.appointments;
  }

  /** One more stored appointment adds its projection when it is listed. */
  lemma PatientListSnoc(lib: Library, session: Option<Bytes>, email: string, apps: seq<Appointment>, i: nat)
    requires Sound(lib) && ValidSessionKey(session) && i < |apps|
    ensures PatientList(lib, session, email, apps[..i + 1])
            == PatientList(lib, session, email, apps[..i])
               + (if ListedForPatient(email, apps[i]) then [PatientView(lib, session, apps[i])] else [])
  {
    assert apps[..i + 1][..i] == apps[..i];
  }

  /** The doctor route: the key, then the loop. */
  method DoctorAppointmentsHandler(db: Database, lib: Library, session: Option<Bytes>, value: string)
    returns (views: seq<AppointmentView>)
    requires Sound(lib) && ValidSessionKey(session)
    ensures views == DoctorAppointments(lib, session, db.State(), value)
  {
    var key := DoctorKey(db.State(), value);
    if key.None? {
      return [];
    }
    views := DoctorListLoop(db, lib, session, key.value);
  }

  /** The doctor route's loop: projects each appointment of that doctor in turn, in store order. */
  method DoctorListLoop(db: Database, lib: Library, session: Option<Bytes>, doctorId: string)
    returns (views: seq<AppointmentView>)
    requires Sound(lib) && ValidSessionKey(session)
    ensures views == DoctorList(lib, session, doctorId, db.appointments)
  {
    views := [];
    var i := 0;
    while i < |db.appointments|
      invariant 0 <= i <= |db.appointments|
      invariant views == DoctorList(lib, session, doctorId, db.appointments[..i])
    {
      var app := db.appointments[i];
      DoctorListSnoc(lib, session, doctorId, db.appointments, i);
      if app.doctor == doctorId {
        views := views + [DoctorView(lib, session, app)];
      }
      i := i + 1;
    }
    assert db.appointments[..i] == db.appointments;
  }

  /** One more stored appointment adds its projection when it is that doctor's. */
  lemma DoctorListSnoc(lib: Library, session: Option<Bytes>, doctorId: string, apps: seq<Appointment>, i: nat)
    requires Sound(lib) && ValidSessionKey(session) && i < |apps|
    ensures DoctorList(lib, session, doctorId, apps[..i + 1])
            == DoctorList(lib, session, doctorId, apps[..i])
               + (if apps[i].doctor == doctorId then [DoctorView(lib, session, apps[i])] else [])
  {
    assert apps[..i + 1][..i] == apps[..i];
  }

  /**
   * A prescription written and then read under the same session key comes back
   * as the three plaintexts with `isValid` true, to the patient and the doctor.
   */
  lemma WriteThenRead(lib: Library, session: Option<Bytes>, id: string, diagnosis: string, medicines: string,
                      advice: Option<string>, now: int)
    requires Sound(lib) && ValidSessionKey(session)
    ensures var p := SealPrescription(lib, session, id, diagnosis, medicines, advice, now);
            var t := Plaintext(diagnosis, medicines, AdviceText(advice));
            && OpenPrescription(lib, session, p) == Success(t)
            && PatientPrescription(lib, session, id, p) == PrescriptionView(Reveal(p, t), Some(true), None)
            && DoctorPrescription(lib, session, id, p) == PrescriptionView(Reveal(p, t), Some(true), Some(true))
  {
    OpenSealed(lib, session, id, diagnosis, medicines, advice, now);
  }

  /** Opening a sealed prescription recovers the plaintexts it was sealed from. */
  lemma OpenSealed(lib: Library, session: Option<Bytes>, id: string, diagnosis: string, medicines: string,
                   advice: Option<string>, now: int)
    requires Sound(lib) && ValidSessionKey(session)
    ensures OpenPrescription(lib, session, SealPrescription(lib, session, id, diagnosis, medicines, advice, now))
            == Success(Plaintext(diagnosis, medicines, AdviceText(advice)))
  {
    var p := SealPrescription(lib, session, id, diagnosis, medicines, advice, now);
    SessionRoundTrip(lib, session, diagnosis);
    SessionRoundTrip(lib, session, medicines);
    if !Falsy(advice) {
      SessionRoundTrip(lib, session, advice.value);
    }
    OpenFields(lib, session, p, diagnosis, medicines, AdviceText(advice));
  }

  /** `OpenPrescription` succeeds exactly when each stored field decrypts. */
  lemma OpenFields(lib: Library, session: Option<Bytes>, p: Prescription, diagnosis: string, medicines: string,
                   advice: string)
    requires Sound(lib) && ValidSessionKey(session)
    requires SessionDecrypt(lib, session, p.diagnosis) == Success(diagnosis)
    requires SessionDecrypt(lib, session, p.medicines) == Success(medicines)
    requires if Falsy(p.advice) then advice == "" else SessionDecrypt(lib, session, p.advice) == Success(advice)
    ensures OpenPrescription(lib, session, p) == Success(Plaintext(diagnosis, medicines, advice))
  {
  }

  /**
   * The same through the store: after a successful `POST /prescription/:id`, the
   * patient's view of that appointment shows the plaintexts with a valid signature.
   */
  lemma AddThenPatientView(lib: Library, session: Option<Bytes>, db: Db, id: string,
                           diagnosis: Option<string>, medicines: Option<string>, advice: Option<string>, now: int)
    requires Sound(lib) && ValidSessionKey(session)
    requires AddPrescription(lib, session, db, id, diagnosis, medicines, advice, now).1.success
    ensures var i := FindId(AppointmentIds(db.appointments), id).index;
            var a := AddPrescription(lib, session, db, id, diagnosis, medicines, advice, now).0.appointments[i];
            && a.status == Completed
            && PatientView(lib, session, a).prescription.value.isValid == Some(true)
            && Reveal(a.prescription.value, Plaintext(diagnosis.value, medicines.value, AdviceText(advice)))
               == PatientView(lib, session, a).prescription.value.fields
  {
    var i := FindId(AppointmentIds(db.appointments), id).index;
    WriteThenRead(lib, session, db.appointments[i].id, diagnosis.value, medicines.value, advice, now);
  }

  /** A revoked prescription reaches the patient as the bare notice, whatever it stored. */
  lemma RevokedHiddenFromPatient(lib: Library, session: Option<Bytes>, a: Appointment)
    requires Sound(lib) && ValidSessionKey(session) && IsRevoked(a)
    ensures PatientView(lib, session, a).prescription == Some(PrescriptionView(RevokedNotice, None, None))
    ensures DoctorView(lib, session, a).prescription.value.isEditable == Some(false)
  {
  }

  // ---------------------------------------------------------------- PDF routes

  /** What the PDF shows. */
  datatype PdfDocument = PdfDocument(patientName: string, doctorName: string, diagnosis: string, medicines: string, advice: string)

  datatype PdfOutcome = Refused(reply: Reply) | Document(pdf: PdfDocument)

  /** The placeholder printed for an absent advice. */
  const NoAdvice: string := "—"

  const PrescriptionNotFound := Reply(404, false, "Prescription not found")

  /** `populate("doctor")`: the referenced doctor's name, `None` when the reference dangles. */
  function DoctorName(docs: seq<Doctor>, doctorId: string): (n: Option<string>)
    ensures n.Some? <==> FindId(DoctorIds(docs), doctorId).Found?
  {
    match FindId(DoctorIds(docs), doctorId)
    case Found(i) => Some(docs[i].name)
    case _ => None
  }

  /** A character Node accepts in a header value: tab, U+0020 to U+007E, or U+0080 to U+00FF. */
  predicate HeaderChar(c: char) {
    c == '\t' || 0x20 <= c as int <= 0x7E || 0x80 <= c as int <= 0xFF
  }

  /**
   * `res.setHeader` accepts the value; otherwise it throws `ERR_INVALID_CHAR`.
   * The fixed parts of the Content-Disposition value are all accepted, so only
   * the patient name decides.
   */
  predicate HeaderSafe(s: string) {
    forall i :: 0 <= i < |s| ==> HeaderChar(s[i])
  }

  /**
   * The decryptions, the Content-Disposition header and the document of both
   * PDF routes; any exception becomes `failure`.
   */
  function RenderPdf(lib: Library, session: Option<Bytes>, db: Db, a: Appointment, p: Prescription, failure: Reply): (r: PdfOutcome)
    requires Sound(lib) && ValidSessionKey(session)
    ensures r.Refused? ==> r.reply == failure
    ensures !HeaderSafe(a.patientName) ==> r == Refused(failure)
    ensures r.Document? <==>
              && SessionDecrypt(lib, session, p.diagnosis).Success?
              && SessionDecrypt(lib, session, p.medicines).Success?
              && (Falsy(p.advice) || SessionDecrypt(lib, session, p.advice).Success?)
              && HeaderSafe(a.patientName) && DoctorName(db.doctors, a.doctor).Some?
    ensures r.Document? ==> r.pdf.patientName == a.patientName
  {
    var d := SessionDecrypt(lib, session, p.diagnosis);
    var m := SessionDecrypt(lib, session, p.medicines);
    var adv := if Falsy(p.advice) then Success(NoAdvice) else SessionDecrypt(lib, session, p.advice);
    var name := DoctorName(db.doctors, a.doctor);
    if d.Failure? || m.Failure? || adv.Failure? || !HeaderSafe(a.patientName) || name.None? then Refused(failure)
    else Document(PdfDocument(a.patientName, name.value, d.value, m.value, adv.value))
  }

  /**
   * `GET /prescription/pdf/:id`: a malformed id is a 500, a missing prescription a 404,
   * a revoked one a 403, and an unrevoked one is rendered or refused with "Server error".
   */
  function PrescriptionPdf(lib: Library, session: Option<Bytes>, db: Db, id: string): (r: PdfOutcome)
    requires Sound(lib) && ValidSessionKey(session)
    ensures FindId(AppointmentIds(db.appointments), id).CastError? ==> r == Refused(ServerError)
    ensures FindId(AppointmentIds(db.appointments), id).NotFound? ==> r == Refused(PrescriptionNotFound)
    ensures var k := FindId(AppointmentIds(db.appointments), id);
            k.Found? && db.appointments[k.index].prescription.None? ==> r == Refused(PrescriptionNotFound)
    ensures var k := FindId(AppointmentIds(db.appointments), id);
            k.Found? && IsRevoked(db.appointments[k.index]) ==> r == Refused(Reply(403, false, RevokedByAdmin))
    ensures var k := FindId(AppointmentIds(db.appointments), id);
            k.Found? && db.appointments[k.index].prescription.Some? && !IsRevoked(db.appointments[k.index]) ==>
              r == RenderPdf(lib, session, db, db.appointments[k.index], db.appointments[k.index].prescription.value,
                             ServerError)
  {
    match FindId(AppointmentIds(db.appointments), id)
    case CastError => Refused(ServerError)
    case NotFound => Refused(PrescriptionNotFound)
    case Found(i) =>
      var a := db.appointments[i];
      if a.prescription.None? then Refused(PrescriptionNotFound)
      else if a.prescription.value.isRevoked then Refused(Reply(403, false, RevokedByAdmin))
      else RenderPdf(lib, session, db, a, a.prescription.value, ServerError)
  }

  /** `GET /prescription/pdf/encoded/:encodedId`, as written: the same steps, without the revocation check. */
  function EncodedPrescriptionPdf(lib: Library, session: Option<Bytes>, db: Db, encodedId: string): (r: PdfOutcome)
    requires Sound(lib) && ValidSessionKey(session)
    ensures FindId(AppointmentIds(db.appointments), Encoding.DecodeBase64(encodedId)).CastError? ==>
              r == Refused(Reply(500, false, ""))
    ensures var k := FindId(AppointmentIds(db.appointments), Encoding.DecodeBase64(encodedId));
            k.NotFound? || (k.Found? && db.appointments[k.index].prescription.None?) ==> r == Refused(PrescriptionNotFound)
    ensures var k := FindId(AppointmentIds(db.appointments), Encoding.DecodeBase64(encodedId));
            k.Found? && db.appointments[k.index].prescription.Some? ==>
              r == RenderPdf(lib, session, db, db.appointments[k.index], db.appointments[k.index].prescription.value,
                             Reply(500, false, ""))
  {
    match FindId(AppointmentIds(db.appointments), Encoding.DecodeBase64(encodedId))
    case CastError => Refused(Reply(500, false, ""))
    case NotFound => Refused(PrescriptionNotFound)
    case Found(i) =>
      var a := db.appointments[i];
      if a.prescription.None? then Refused(PrescriptionNotFound)
      else RenderPdf(lib, session, db, a, a.prescription.value, Reply(500, false, ""))
  }

  /**
   * The encoded route serves a revoked prescription: after a prescription is
   * written and then revoked, the plain route answers 403 while the encoded route,
   * given the Base64 of the same id, still renders the decrypted fields.
   */
  lemma EncodedPdfIgnoresRevocation(lib: Library, session: Option<Bytes>, db: Db, i: nat, doctorName: string,
                                    t: Plaintext, p: Prescription)
    requires Sound(lib) && ValidSessionKey(session)
    requires ValidAppointments(db.appointments) && i < |db.appointments|
    requires db.appointments[i].prescription == Some(p) && p.isRevoked
    requires t.diagnosis != "" && t.medicines != ""
    requires p.diagnosis == Some(SessionEncrypt(lib, session, t.diagnosis))
    requires p.medicines == Some(SessionEncrypt(lib, session, t.medicines))
    requires p.advice == Some(SessionEncrypt(lib, session, t.advice)) && t.advice != ""
    requires DoctorName(db.doctors, db.appointments[i].doctor) == Some(doctorName)
    requires HeaderSafe(db.appointments[i].patientName)
    ensures var id := db.appointments[i].id;
            && PrescriptionPdf(lib, session, db, id) == Refused(Reply(403, false, RevokedByAdmin))
            && EncodedPrescriptionPdf(lib, session, db, Encoding.EncodeBase64(id)) ==
                 Document(PdfDocument(db.appointments[i].patientName, doctorName, t.diagnosis, t.medicines, t.advice))
  {
    var a := db.appointments[i];
    FindStoredId(db.appointments, i);
    Encoding.DecodeEncode(a.id);
    SessionRoundTrip(lib, session, t.diagnosis);
    SessionRoundTrip(lib, session, t.medicines);
    SessionRoundTrip(lib, session, t.advice);
    RenderOpened(lib, session, db, a, p, doctorName, t, Reply(500, false, ""));
  }

  /** A prescription whose three fields decrypt, of an appointment whose doctor exists, renders those texts. */
  lemma RenderOpened(lib: Library, session: Option<Bytes>, db: Db, a: Appointment, p: Prescription, doctorName: string,
                     t: Plaintext, failure: Reply)
    requires Sound(lib) && ValidSessionKey(session)
    requires SessionDecrypt(lib, session, p.diagnosis) == Success(t.diagnosis)
    requires SessionDecrypt(lib, session, p.medicines) == Success(t.medicines)
    requires !Falsy(p.advice) && SessionDecrypt(lib, session, p.advice) == Success(t.advice)
    requires DoctorName(db.doctors, a.doctor) == Some(doctorName) && HeaderSafe(a.patientName)
    ensures RenderPdf(lib, session, db, a, p, failure) ==
              Document(PdfDocument(a.patientName, doctorName, t.diagnosis, t.medicines, t.advice))
  {
  }

  /**
   * A patient name the header cannot carry, such as one with a character above
   * U+00FF, makes `setHeader` throw: the plain route answers 500 for every
   * unrevoked prescription and the encoded route answers 500 always.
   */
  lemma UnsafeNamePdfFails(lib: Library, session: Option<Bytes>, db: Db, i: nat)
    requires Sound(lib) && ValidSessionKey(session)
    requires ValidAppointments(db.appointments) && i < |db.appointments|
    requires !HeaderSafe(db.appointments[i].patientName)
    ensures !IsRevoked(db.appointments[i]) ==> PrescriptionPdf(lib, session, db, db.appointments[i].id) == Refused(ServerError)
    ensures EncodedPrescriptionPdf(lib, session, db, Encoding.EncodeBase64(db.appointments[i].id)) == Refused(Reply(500, false, ""))
  {
    FindStoredId(db.appointments, i);
    Encoding.DecodeEncode(db.appointments[i].id);
  }

  /** The encoded route with the plain route's revocation check, as the download gate intends. */
  function EncodedPrescriptionPdfChecked(lib: Library, session: Option<Bytes>, db: Db, encodedId: string): (r: PdfOutcome)
    requires Sound(lib) && ValidSessionKey(session)
    ensures FindId(AppointmentIds(db.appointments), Encoding.DecodeBase64(encodedId)).CastError? ==>
              r == Refused(Reply(500, false, ""))
    ensures var k := FindId(AppointmentIds(db.appointments), Encoding.DecodeBase64(encodedId));
            k.NotFound? || (k.Found? && db.appointments[k.index].prescription.None?) ==> r == Refused(PrescriptionNotFound)
    ensures var k := FindId(AppointmentIds(db.appointments), Encoding.DecodeBase64(encodedId));
            k.Found? && db.appointments[k.index].prescription.Some? && !IsRevoked(db.appointments[k.index]) ==>
              r == RenderPdf(lib, session, db, db.appointments[k.index], db.appointments[k.index].prescription.value,
                             Reply(500, false, ""))
    ensures var k := FindId(AppointmentIds(db.appointments), Encoding.DecodeBase64(encodedId));
            k.Found? && IsRevoked(db.appointments[k.index]) ==> r == Refused(Reply(403, false, RevokedByAdmin))
  {
    match FindId(AppointmentIds(db.appointments), Encoding.DecodeBase64(encodedId))
    case CastError => Refused(Reply(500, false, ""))
    case NotFound => Refused(PrescriptionNotFound)
    case Found(i) =>
      var a := db.appointments[i];
      if a.prescription.None? then Refused(PrescriptionNotFound)
      else if a.prescription.value.isRevoked then Refused(Reply(403, false, RevokedByAdmin))
      else RenderPdf(lib, session, db, a, a.prescription.value, Reply(500, false, ""))
  }

  /**
   * With the check, both PDF routes refuse a revoked prescription with 403; on an
   * unrevoked one they render the same document, or both refuse with their own 500
   * replies ("Server error" on the plain route, an empty message on the encoded one).
   */
  lemma CheckedPdfRoutesAgree(lib: Library, session: Option<Bytes>, db: Db, i: nat)
    requires Sound(lib) && ValidSessionKey(session)
    requires ValidAppointments(db.appointments) && i < |db.appointments| && db.appointments[i].prescription.Some?
    ensures var id := db.appointments[i].id;
            var plain := PrescriptionPdf(lib, session, db, id);
            var encoded := EncodedPrescriptionPdfChecked(lib, session, db, Encoding.EncodeBase64(id));
            && (IsRevoked(db.appointments[i]) ==> plain == encoded == Refused(Reply(403, false, RevokedByAdmin)))
            && (!IsRevoked(db.appointments[i]) && plain.Document? ==> encoded == plain)
            && (!IsRevoked(db.appointments[i]) && !plain.Document? ==>
                  plain == Refused(ServerError) && encoded == Refused(Reply(500, false, "")))
  {
    FindStoredId(db.appointments, i);
    Encoding.DecodeEncode(db.appointments[i].id);
  }

  /**
   * In a valid store the "Prescription not found" test never fires for a
   * stored id: both PDF routes go on past it, and both read projections carry
   * the prescription path.
   */
  lemma StoredPrescriptionPresent(lib: Library, session: Option<Bytes>, db: Db, i: nat)
    requires Sound(lib) && ValidSessionKey(session)
    requires ValidAppointments(db.appointments) && i < |db.appointments|
    ensures var a := db.appointments[i];
            && PrescriptionPdf(lib, session, db, a.id) != Refused(PrescriptionNotFound)
            && EncodedPrescriptionPdf(lib, session, db, Encoding.EncodeBase64(a.id)) != Refused(PrescriptionNotFound)
            && PatientView(lib, session, a).prescription.Some?
            && DoctorView(lib, session, a).prescription.Some?
  {
    FindStoredId(db.appointments, i);
    Encoding.DecodeEncode(db.appointments[i].id);
  }

  /**
   * A booked appointment that was never prescribed holds only the default
   * path; both PDF routes then decrypt an undefined field, which throws, and
   * answer with their 500 reply.
   */
  lemma UnprescribedPdfFails(lib: Library, session: Option<Bytes>, db: Db, i: nat)
    requires Sound(lib) && ValidSessionKey(session)
    requires ValidAppointments(db.appointments) && i < |db.appointments|
    requires db.appointments[i].prescription == Some(DefaultPrescription)
    ensures PrescriptionPdf(lib, session, db, db.appointments[i].id) == Refused(ServerError)
    ensures EncodedPrescriptionPdf(lib, session, db, Encoding.EncodeBase64(db.appointments[i].id)) == Refused(Reply(500, false, ""))
  {
    FindStoredId(db.appointments, i);
    Encoding.DecodeEncode(db.appointments[i].id);
  }

  /** In a valid store, `findById` of a stored id finds its own document. */
  lemma FindStoredId(apps: seq<Appointment>, i: nat)
    requires ValidAppointments(apps) && i < |apps|
    ensures FindId(AppointmentIds(apps), apps[i].id) == Found(i)
  {
    var ids := AppointmentIds(apps);
    CanonicalIdOfStored(apps[i].id);
    var k := FindId(ids, apps[i].id);
    assert ids[k.index] == ids[i];
  }

  // ---------------------------------------------------------------- GET /admin/prescriptions

  /** One row of the admin audit list; `date` is the appointment's own `createdAt`. */
  datatype AuditRow = AuditRow(patientName: string, doctorName: string, date: int, isValid: bool, isRevoked: bool)

  /** `!!r.prescription?.signature`: a present, non-empty signature. */
  predicate HasSignature(a: Appointment) {
    a.prescription.Some? && !Falsy(a.prescription.value.signature)
  }

  predicate HasPrescription(a: Appointment) {
    a.prescription.Some?
  }

  /** The rows for `apps`, or `None` when one of them has a dangling doctor (`r.doctor.name` throws). */
  function AuditRows(docs: seq<Doctor>, apps: seq<Appointment>): (r: Option<seq<AuditRow>>)
    ensures r.Some? <==> forall i :: 0 <= i < |apps| && HasPrescription(apps[i]) ==> DoctorName(docs, apps[i].doctor).Some?
    ensures r.Some? ==>
              var listed := Seqs.Filter(HasPrescription, apps);
              && |r.value| == |listed|
              && forall i :: 0 <= i < |listed| ==>
                   r.value[i] == AuditRow(listed[i].patientName, DoctorName(docs, listed[i].doctor).value,
                                          listed[i].createdAt, HasSignature(listed[i]), IsRevoked(listed[i]))
    decreases |apps|
  {
    if apps == [] then Some([])
    else
      var last := apps[|apps| - 1];
      var init := AuditRows(docs, apps[..|apps| - 1]);
      if !HasPrescription(last) then init
      else
        var name := DoctorName(docs, last.doctor);
        if init.None? || name.None? then None
        else Some(init.value + [AuditRow(last.patientName, name.value, last.createdAt, HasSignature(last), IsRevoked(last))])
  }

  /** `GET /admin/prescriptions`: 403 for a non-admin, 500 when a doctor reference dangles. */
  function AdminPrescriptions(db: Db, user: VerifyToken.Claims): (r: Result<seq<AuditRow>, Reply>)
    ensures !VerifyToken.IsAdmin(user) ==> r == Failure(Reply(403, false, ""))
    ensures VerifyToken.IsAdmin(user) ==> (r.Success? <==> AuditRows(db.doctors, db.appointments).Some?)
    ensures VerifyToken.IsAdmin(user) && r.Failure? ==> r.error == Reply(500, false, "")
    ensures r.Success? ==> AuditRows(db.doctors, db.appointments) == Some(r.value)
  {
    if !VerifyToken.IsAdmin(user) then Failure(Reply(403, false, ""))
    else match AuditRows(db.doctors, db.appointments)
      case None => Failure(Reply(500, false, ""))
      case Some(rows) => Success(rows)
  }

  /** In a valid store no audit row is both revoked and valid. */
  lemma AuditRevokedNeverValid(db: Db, user: VerifyToken.Claims)
    requires ValidAppointments(db.appointments)
    ensures var r := AdminPrescriptions(db, user);
            r.Success? ==> forall i :: 0 <= i < |r.value| && r.value[i].isRevoked ==> !r.value[i].isValid
  {
    var listed := Seqs.Filter(HasPrescription, db.appointments);
    forall i | 0 <= i < |listed|
      ensures RevokedUnsigned(listed[i])
    {
      var k :| 0 <= k < |db.appointments| && db.appointments[k] == listed[i];
    }
  }

  // ---------------------------------------------------------------- handlers

  /** `POST /book` against the store. */
  method BookHandler(db: Database, patientName: Option<string>, patientEmail: Option<string>, doctorId: Option<string>,
                     date: Option<string>, time: Option<string>, disease: Option<string>, newId: string, now: int)
    returns (reply: Reply)
    modifies db
    ensures (db.State(), reply) == Book(old(db.State()), patientName, patientEmail, doctorId, date, time, disease, newId, now)
  {
    if !BookingComplete(patientName, patientEmail, doctorId, date, time) {
      return Reply(200, false, "All fields are required");
    }
    var found := db.FindDoctor(doctorId.value);
    match found
    case CastError => reply := ServerError;
    case NotFound => reply := Reply(200, false, "Doctor not found");
    case Found(i) =>
      var a := NewAppointment(newId, patientName.value, patientEmail.value, db.doctors[i].id,
                              date.value, time.value, disease, now);
      db.appointments := db.appointments + [a];
      reply := Reply(200, true, "Appointment booked successfully");
  }

  /** `PUT /cancel/:id` against the store. */
  method CancelHandler(db: Database, id: string) returns (reply: Reply)
    modifies db
    ensures (db.State(), reply) == Cancel(old(db.State()), id)
  {
    var found := db.FindAppointment(id);
    match found
    case CastError => reply := ServerError;
    case NotFound => reply := Reply(200, false, "Appointment not found");
    case Found(i) =>
      var a := db.appointments[i];
      db.appointments := db.appointments[i := a.(status := Cancelled)];
      reply := Reply(200, true, "Appointment cancelled successfully");
  }

  /** `POST /prescription/:id` against the store; `session` is the `sharedSessionKey` of `crypto.js` at the time. */
  method AddPrescriptionHandler(db: Database, lib: Library, session: Option<Bytes>, id: string,
                                diagnosis: Option<string>, medicines: Option<string>, advice: Option<string>,
                                now: int) returns (reply: Reply)
    requires Sound(lib) && ValidSessionKey(session)
    modifies db
    ensures (db.State(), reply) ==
              AddPrescription(lib, session, old(db.State()), id, diagnosis, medicines, advice, now)
  {
    if Falsy(diagnosis) || Falsy(medicines) {
      return Reply(200, false, PrescriptionRequired);
    }
    var found := db.FindAppointment(id);
    match found
    case CastError => reply := ServerError;
    case NotFound => reply := Reply(200, false, "Appointment not found");
    case Found(i) =>
      var a := db.appointments[i];
      if IsRevoked(a) {
        reply := Reply(200, false, RevokedByAdmin);
      } else {
        db.appointments := db.appointments[i := Prescribe(lib, session, a, diagnosis.value, medicines.value, advice, now)];
        reply := Reply(200, true, "Prescription added successfully");
      }
  }
}
