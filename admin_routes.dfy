/**
 * `routes/adminRoutes.js`: the admin-only routes. Each first checks the
 * caller's role; the statistics and audit routes are counts and projections
 * of the collections, the revoke and remove routes change the store.
 */
module AdminRoutes {
  import opened Wrappers
  import opened Models
  import opened Store
  import Seqs
  import opened JsString
  import VerifyToken
  import opened AppointmentRoutes
  import Hex
  import Octets
  import NodeCrypto
  import CryptoFacade

  /** `res.status(403).json({ success: false })`. */
  const Forbidden := Reply(403, false, "")

  /** `res.status(500).json({ success: false })`. */
  const Failed := Reply(500, false, "")

  // ---------------------------------------------------------------- POST /add-doctor

  /** The request body of `POST /add-doctor`; `email` is sent by a client but not read by the handler. */
  datatype DoctorForm = DoctorForm(
    name: Option<string>,
    specialization: Option<string>,
    email: Option<string>,
    experience: Option<int>,
    hospital: Option<string>,
    availableDays: seq<string>,
    availableSlots: seq<string>)

  const AdminsOnly := Reply(403, false, "Access denied. Admins only.")
  const NameAndSpecializationRequired := Reply(200, false, "Name and specialization are required")
  const DoctorAdded := Reply(200, true, "Doctor added successfully")

  /** What every stored doctor satisfies: unique canonical ids and e-mails, the schema's required fields. */
  predicate ValidDoctors(docs: seq<Doctor>) {
    && UniqueIds(DoctorIds(docs))
    && (forall i :: 0 <= i < |docs| ==> IsStoredId(docs[i].id) && DoctorRequired(docs[i]))
    && (forall i, j :: 0 <= i < j < |docs| ==> docs[i].email != docs[j].email)
  }

  /**
   * `Doctor.create(d)`: the document is validated (`name`, `email` and
   * `specialization` required, an empty string counting as missing) and the
   * unique index on `email` refuses a duplicate; either failure throws and
   * the handler answers 500. `d.id` is the ObjectId Mongoose generates.
   */
  function CreateDoctor(db: Db, d: Doctor): (r: (Db, Reply))
    ensures r.1.success <==> DoctorRequired(d) && DoctorByEmail(db.doctors, d.email).None?
    ensures !r.1.success ==> r == (db, ServerError)
    ensures r.1.success ==> r == (db.(doctors := db.doctors + [d]), DoctorAdded)
  {
    if !DoctorRequired(d) || DoctorByEmail(db.doctors, d.email).Some? then (db, ServerError)
    else (db.(doctors := db.doctors + [d]), DoctorAdded)
  }

  /** The document the handler builds from the form, with `email` as given. */
  function FormDoctor(id: string, form: DoctorForm, email: string): Doctor
    requires form.name.Some? && form.specialization.Some?
  {
    Doctor(id, form.name.value, email, form.specialization.value, form.experience, form.hospital,
           form.availableDays, form.availableSlots)
  }

  /** `POST /add-doctor` as written: `Doctor.create` receives no `email`. */
  function AddDoctor(db: Db, user: VerifyToken.Claims, form: DoctorForm, newId: string): (r: (Db, Reply))
    ensures !VerifyToken.IsAdmin(user) ==> r == (db, AdminsOnly)
    ensures VerifyToken.IsAdmin(user) && (Falsy(form.name) || Falsy(form.specialization)) ==>
              r == (db, NameAndSpecializationRequired)
  {
    if !VerifyToken.IsAdmin(user) then (db, AdminsOnly)
    else if Falsy(form.name) || Falsy(form.specialization) then (db, NameAndSpecializationRequired)
    else CreateDoctor(db, FormDoctor(newId, form, ""))
  }

  /**
   * The route as written never adds a doctor: the schema requires an
   * `email` the handler never passes, so even an admin's complete form
   * ends in the 500 reply and the collection is unchanged.
   */
  lemma AddDoctorNeverAdds(db: Db, user: VerifyToken.Claims, form: DoctorForm, newId: string)
    ensures AddDoctor(db, user, form, newId).0 == db
    ensures !AddDoctor(db, user, form, newId).1.success
    ensures VerifyToken.IsAdmin(user) && !Falsy(form.name) && !Falsy(form.specialization) && !Falsy(form.email) ==>
              AddDoctor(db, user, form, newId) == (db, ServerError)
  {
  }

  /** `POST /add-doctor` with `email` passed through to `Doctor.create`, as the schema demands. */
  function AddDoctorCorrected(db: Db, user: VerifyToken.Claims, form: DoctorForm, newId: string): (r: (Db, Reply))
    ensures !VerifyToken.IsAdmin(user) ==> r == (db, AdminsOnly)
    ensures !r.1.success ==> r.0 == db
    ensures r.1.success <==>
              && VerifyToken.IsAdmin(user) && !Falsy(form.name) && !Falsy(form.specialization) && !Falsy(form.email)
              && DoctorByEmail(db.doctors, form.email.value).None?
    ensures r.1.success ==> r.0.doctors == db.doctors + [FormDoctor(newId, form, form.email.value)]
  {
    if !VerifyToken.IsAdmin(user) then (db, AdminsOnly)
    else if Falsy(form.name) || Falsy(form.specialization) then (db, NameAndSpecializationRequired)
    else CreateDoctor(db, FormDoctor(newId, form, if form.email.Some? then form.email.value else ""))
  }

  /** Adding a doctor under a fresh id keeps the doctor collection valid. */
  lemma AddDoctorCorrectedKeepsValid(db: Db, user: VerifyToken.Claims, form: DoctorForm, newId: string)
    requires ValidDoctors(db.doctors) && IsStoredId(newId) && newId !in DoctorIds(db.doctors)
    ensures ValidDoctors(AddDoctorCorrected(db, user, form, newId).0.doctors)
  {
    var r := AddDoctorCorrected(db, user, form, newId);
    if r.1.success {
      var docs := r.0.doctors;
      assert DoctorIds(docs) == DoctorIds(db.doctors) + [newId];
      forall i, j | 0 <= i < j < |docs|
        ensures docs[i].email != docs[j].email
      {
        if j == |db.doctors| {
          assert docs[i] == db.doctors[i];
        }
      }
    }
  }

  // ---------------------------------------------------------------- GET /users, /appointments

  datatype UserCounts = UserCounts(total: nat, doctors: nat, patients: nat)

  /** `User.countDocuments({ role })`. */
  function RoleCount(users: seq<User>, role: Role): nat {
    Seqs.Count((u: User) => u.role == role, users)
  }

  /** Every user has exactly one of the three roles. */
  lemma {:induction false} RolesPartition(users: seq<User>)
    ensures RoleCount(users, PatientRole) + RoleCount(users, DoctorRole) + RoleCount(users, AdminRole) == |users|
    decreases |users|
  {
    if users != [] {
      RolesPartition(users[..|users| - 1]);
    }
  }

  /** `GET /users`: every user, and those with role `doctor` and `patient`. */
  function UsersStats(db: Db, user: VerifyToken.Claims): (r: Result<UserCounts, Reply>)
    ensures !VerifyToken.IsAdmin(user) <==> r == Failure(Forbidden)
    ensures r.Success? ==> r.value.doctors + r.value.patients <= r.value.total == |db.users|
    ensures r.Success? ==> r.value.doctors == RoleCount(db.users, DoctorRole) && r.value.patients == RoleCount(db.users, PatientRole)
    ensures r.Success? ==> r.value.total == r.value.doctors + r.value.patients + RoleCount(db.users, AdminRole)
  {
    if !VerifyToken.IsAdmin(user) then Failure(Forbidden)
    else
      RolesPartition(db.users);
      Success(UserCounts(|db.users|, RoleCount(db.users, DoctorRole), RoleCount(db.users, PatientRole)))
  }

  /** `GET /appointments`: every appointment, whatever its status. */
  function AppointmentsTotal(db: Db, user: VerifyToken.Claims): (r: Result<nat, Reply>)
    ensures !VerifyToken.IsAdmin(user) <==> r == Failure(Forbidden)
    ensures r.Success? ==> r.value == |db.appointments|
  {
    if !VerifyToken.IsAdmin(user) then Failure(Forbidden) else Success(|db.appointments|)
  }

  // ---------------------------------------------------------------- GET /users-v2, /appointments-v2

  /** `GET /users-v2`: patients among the users, every Doctor document, and one assumed admin. */
  function UsersStatsV2(db: Db, user: VerifyToken.Claims): (r: Result<UserCounts, Reply>)
    ensures !VerifyToken.IsAdmin(user) <==> r == Failure(Forbidden)
    ensures r.Success? ==> r.value.total == r.value.patients + r.value.doctors + 1
    ensures r.Success? ==> r.value.doctors == |db.doctors| && r.value.patients == RoleCount(db.users, PatientRole)
  {
    if !VerifyToken.IsAdmin(user) then Failure(Forbidden)
    else
      var patients := RoleCount(db.users, PatientRole);
      Success(UserCounts(patients + |db.doctors| + 1, |db.doctors|, patients))
  }

  /**
   * The two user statistics agree exactly when their assumptions hold: one
   * admin user, and a Doctor document for every user with role `doctor`.
   */
  lemma UsersStatsAgree(db: Db, user: VerifyToken.Claims)
    requires VerifyToken.IsAdmin(user)
    requires RoleCount(db.users, AdminRole) == 1 && |db.doctors| == RoleCount(db.users, DoctorRole)
    ensures UsersStatsV2(db, user) == UsersStats(db, user)
  {
    RolesPartition(db.users);
  }

  predicate IsCancelled(a: Appointment) {
    a.status == Cancelled
  }

  /** `Appointment.countDocuments({ status: { $ne: "Cancelled" } })`. */
  function ActiveCount(apps: seq<Appointment>): nat {
    Seqs.Count((a: Appointment) => !IsCancelled(a), apps)
  }

  /** `GET /appointments-v2`: the appointments that are not cancelled. */
  function AppointmentsTotalV2(db: Db, user: VerifyToken.Claims): (r: Result<nat, Reply>)
    ensures !VerifyToken.IsAdmin(user) <==> r == Failure(Forbidden)
    ensures r.Success? ==> r.value == ActiveCount(db.appointments)
  {
    if !VerifyToken.IsAdmin(user) then Failure(Forbidden) else Success(ActiveCount(db.appointments))
  }

  /** The two appointment totals differ by exactly the cancelled appointments. */
  lemma {:induction false} ActivePlusCancelled(apps: seq<Appointment>)
    ensures ActiveCount(apps) + Seqs.Count(IsCancelled, apps) == |apps|
    decreases |apps|
  {
    if apps != [] {
      ActivePlusCancelled(apps[..|apps| - 1]);
    }
  }

  lemma AppointmentTotalsAgree(db: Db, user: VerifyToken.Claims)
    requires VerifyToken.IsAdmin(user)
    ensures AppointmentsTotalV2(db, user).value + Seqs.Count(IsCancelled, db.appointments)
            == AppointmentsTotal(db, user).value
  {
    ActivePlusCancelled(db.appointments);
  }

  // ---------------------------------------------------------------- GET /prescriptions (legacy), /prescriptions-v2

  /** One row of the legacy audit list. */
  datatype LegacyRow = LegacyRow(patientName: string, doctorName: string, date: int, isValid: bool)

  /**
   * `GET /prescriptions`: it populates `patientId` and `doctorId`, which the
   * appointment schema does not have, and reads a top-level `signature`,
   * which it does not have either; so both names print `"N/A"` and every
   * row is reported invalid, whatever the prescription holds.
   */
  function LegacyPrescriptions(db: Db, user: VerifyToken.Claims): (r: Result<seq<LegacyRow>, Reply>)
    ensures !VerifyToken.IsAdmin(user) <==> r == Failure(Forbidden)
    ensures r.Success? ==> |r.value| == |Seqs.Filter(HasPrescription, db.appointments)|
  {
    if !VerifyToken.IsAdmin(user) then Failure(Forbidden)
    else
      var listed := Seqs.Filter(HasPrescription, db.appointments);
      Success(seq(|listed|, i requires 0 <= i < |listed| => LegacyRow("N/A", "N/A", listed[i].createdAt, false)))
  }

  /** The legacy list calls no prescription valid, even one whose signature verifies. */
  lemma LegacyNeverValid(db: Db, user: VerifyToken.Claims)
    ensures var r := LegacyPrescriptions(db, user);
            r.Success? ==> forall i :: 0 <= i < |r.value| ==> !r.value[i].isValid && r.value[i].doctorName == "N/A"
  {
  }

  /** One row of the v2 audit list. */
  datatype AuditRowV2 = AuditRowV2(id: string, patientName: string, doctorName: string, date: int,
                                   isValid: bool, isRevoked: bool)

  /** `r.doctor?.name || "N/A"`: a dangling reference or an empty name prints `"N/A"`. */
  function DoctorLabel(docs: seq<Doctor>, doctorId: string): (s: string)
    ensures s != ""
    ensures DoctorName(docs, doctorId).Some? && DoctorName(docs, doctorId).value != "" ==>
              s == DoctorName(docs, doctorId).value
  {
    var n := DoctorName(docs, doctorId);
    if n.None? || n.value == "" then "N/A" else n.value
  }

  function V2Row(docs: seq<Doctor>, a: Appointment): AuditRowV2 {
    AuditRowV2(a.id, a.patientName, DoctorLabel(docs, a.doctor), a.createdAt, HasSignature(a), IsRevoked(a))
  }

  /** `GET /prescriptions-v2`: like the audit list of the appointment routes, with the id and no throw. */
  function PrescriptionsV2(db: Db, user: VerifyToken.Claims): (r: Result<seq<AuditRowV2>, Reply>)
    ensures !VerifyToken.IsAdmin(user) <==> r == Failure(Forbidden)
    ensures r.Success? ==> |r.value| == |Seqs.Filter(HasPrescription, db.appointments)|
    ensures r.Success? ==>
              var listed := Seqs.Filter(HasPrescription, db.appointments);
              forall i :: 0 <= i < |r.value| ==>
                && r.value[i].id == listed[i].id
                && r.value[i].patientName == listed[i].patientName
                && r.value[i].date == listed[i].createdAt
                && r.value[i].isValid == HasSignature(listed[i])
                && r.value[i].isRevoked == IsRevoked(listed[i])
                && r.value[i].doctorName == DoctorLabel(db.doctors, listed[i].doctor)
  {
    if !VerifyToken.IsAdmin(user) then Failure(Forbidden)
    else
      var listed := Seqs.Filter(HasPrescription, db.appointments);
      Success(seq(|listed|, i requires 0 <= i < |listed| => V2Row(db.doctors, listed[i])))
  }

  /**
   * Where the older audit list answers, the v2 list has the same rows with the
   * id added (doctor names being non-empty); and in a valid store no v2 row is
   * both revoked and valid.
   */
  lemma PrescriptionsV2Refines(db: Db, user: VerifyToken.Claims)
    requires forall i :: 0 <= i < |db.doctors| ==> db.doctors[i].name != ""
    ensures var old1 := AdminPrescriptions(db, user);
            var v2 := PrescriptionsV2(db, user);
            old1.Success? ==>
              && v2.Success? && |v2.value| == |old1.value|
              && forall i :: 0 <= i < |v2.value| ==>
                   var row := v2.value[i];
                   old1.value[i] == AuditRow(row.patientName, row.doctorName, row.date, row.isValid, row.isRevoked)
  {
    var old1 := AdminPrescriptions(db, user);
    if old1.Success? {
      var listed := Seqs.Filter(HasPrescription, db.appointments);
      forall i | 0 <= i < |listed|
        ensures DoctorLabel(db.doctors, listed[i].doctor) == DoctorName(db.doctors, listed[i].doctor).value
      {
        var k :| 0 <= k < |db.appointments| && db.appointments[k] == listed[i];
        var n := FindId(DoctorIds(db.doctors), listed[i].doctor).index;
        assert DoctorName(db.doctors, listed[i].doctor).value == db.doctors[n].name;
      }
    }
  }

  lemma PrescriptionsV2RevokedNeverValid(db: Db, user: VerifyToken.Claims)
    requires ValidAppointments(db.appointments)
    ensures var r := PrescriptionsV2(db, user);
            r.Success? ==> forall i :: 0 <= i < |r.value| && r.value[i].isRevoked ==> !r.value[i].isValid
  {
    var listed := Seqs.Filter(HasPrescription, db.appointments);
    forall i | 0 <= i < |listed|
      ensures RevokedUnsigned(listed[i])
    {
      var k :| 0 <= k < |db.appointments| && db.appointments[k] == listed[i];
    }
  }

  // ---------------------------------------------------------------- DELETE /doctor/:id, /patient/:id

  /** `s` without its element at `i`. */
  function RemoveAt<T>(s: seq<T>, i: nat): (r: seq<T>)
    requires i < |s|
    ensures |r| == |s| - 1
    ensures forall j :: 0 <= j < i ==> r[j] == s[j]
    ensures forall j :: i < j < |s| ==> r[j - 1] == s[j]
  {
    s[..i] + s[i + 1..]
  }

  /** Removing one position keeps every element at the other positions. */
  lemma RemoveKeepsOthers<T>(s: seq<T>, i: nat)
    requires i < |s|
    ensures forall j :: 0 <= j < |s| && j != i ==> s[j] in RemoveAt(s, i)
  {
    var r := RemoveAt(s, i);
    forall j | 0 <= j < |s| && j != i
      ensures s[j] in r
    {
      if j < i { assert r[j] == s[j]; } else { assert r[j - 1] == s[j]; }
    }
  }

  /** Removing the one position that holds a unique id removes that id, and the rest stay unique. */
  lemma RemoveUnique(ids: seq<string>, i: nat)
    requires UniqueIds(ids) && i < |ids|
    ensures ids[i] !in RemoveAt(ids, i)
    ensures UniqueIds(RemoveAt(ids, i))
  {
    var r := RemoveAt(ids, i);
    forall k | 0 <= k < |r|
      ensures r[k] != ids[i]
    {
      if k < i { assert r[k] == ids[k]; } else { assert r[k] == ids[k + 1]; }
    }
    forall a, b | 0 <= a < b < |r|
      ensures r[a] != r[b]
    {
      var a' := if a < i then a else a + 1;
      var b' := if b < i then b else b + 1;
      assert r[a] == ids[a'] && r[b] == ids[b'];
    }
  }

  /** `DELETE /doctor/:id`: `findByIdAndDelete` succeeds whether or not a document matched. */
  function RemoveDoctor(db: Db, user: VerifyToken.Claims, id: string): (r: (Db, Reply))
    ensures !VerifyToken.IsAdmin(user) ==> r == (db, Forbidden)
    ensures r.1.success <==> VerifyToken.IsAdmin(user) && IsObjectId(id)
    ensures r.1.success ==> r.0.appointments == db.appointments && r.0.users == db.users
    ensures !r.1.success ==> r.0 == db
  {
    if !VerifyToken.IsAdmin(user) then (db, Forbidden)
    else match FindId(DoctorIds(db.doctors), id)
      case CastError => (db, Failed)
      case NotFound => (db, Reply(200, true, "Doctor removed successfully"))
      case Found(i) => (db.(doctors := RemoveAt(db.doctors, i)), Reply(200, true, "Doctor removed successfully"))
  }

  /** After a removal the id is gone and every other doctor is still there. */
  lemma RemoveDoctorRemoves(db: Db, user: VerifyToken.Claims, id: string)
    requires UniqueIds(DoctorIds(db.doctors))
    requires RemoveDoctor(db, user, id).1.success
    ensures var docs := RemoveDoctor(db, user, id).0.doctors;
            && FindId(DoctorIds(docs), id).NotFound?
            && (forall j :: 0 <= j < |db.doctors| && db.doctors[j].id != CanonicalId(id) ==> db.doctors[j] in docs)
            && UniqueIds(DoctorIds(docs))
  {
    var ids := DoctorIds(db.doctors);
    match FindId(ids, id)
    case NotFound =>
      forall j | 0 <= j < |db.doctors|
        ensures db.doctors[j].id != CanonicalId(id)
      {
        assert ids[j] == db.doctors[j].id;
      }
    case Found(i) =>
      var docs := RemoveDoctor(db, user, id).0.doctors;
      assert DoctorIds(docs) == RemoveAt(ids, i);
      RemoveUnique(ids, i);
      RemoveKeepsOthers(db.doctors, i);
  }

  /** `DELETE /patient/:id`: removes the user with that id, whatever its role. */
  function RemovePatient(db: Db, user: VerifyToken.Claims, id: string): (r: (Db, Reply))
    ensures !VerifyToken.IsAdmin(user) ==> r == (db, Forbidden)
    ensures r.1.success <==> VerifyToken.IsAdmin(user) && IsObjectId(id)
    ensures r.1.success ==> r.0.appointments == db.appointments && r.0.doctors == db.doctors
    ensures !r.1.success ==> r.0 == db
  {
    if !VerifyToken.IsAdmin(user) then (db, Forbidden)
    else match FindId(UserIds(db.users), id)
      case CastError => (db, Failed)
      case NotFound => (db, Reply(200, true, "Patient removed successfully"))
      case Found(i) => (db.(users := RemoveAt(db.users, i)), Reply(200, true, "Patient removed successfully"))
  }

  lemma RemovePatientRemoves(db: Db, user: VerifyToken.Claims, id: string)
    requires UniqueIds(UserIds(db.users))
    requires RemovePatient(db, user, id).1.success
    ensures var users := RemovePatient(db, user, id).0.users;
            && FindId(UserIds(users), id).NotFound?
            && (forall j :: 0 <= j < |db.users| && db.users[j].id != CanonicalId(id) ==> db.users[j] in users)
            && UniqueIds(UserIds(users))
  {
    var ids := UserIds(db.users);
    match FindId(ids, id)
    case NotFound =>
      forall j | 0 <= j < |db.users|
        ensures db.users[j].id != CanonicalId(id)
      {
        assert ids[j] == db.users[j].id;
      }
    case Found(i) =>
      var users := RemovePatient(db, user, id).0.users;
      assert UserIds(users) == RemoveAt(ids, i);
      RemoveUnique(ids, i);
      RemoveKeepsOthers(db.users, i);
  }

  // ---------------------------------------------------------------- PUT /prescription/revoke/:id

  const PrescriptionMissing := Reply(200, false, "Prescription not found")
  const RevokeDone := Reply(200, true, "Prescription revoked by admin")

  /**
   * `revokedBy = req.user.id`: the path holds an ObjectId, so `save` casts the
   * claim and fails on a malformed one; an absent claim unsets the path.
   */
  function Revoker(user: VerifyToken.Claims): (r: Result<Option<string>, Reply>)
    ensures r.Failure? <==> user.id.Some? && !IsObjectId(user.id.value)
    ensures r.Success? && r.value.Some? ==> IsStoredId(r.value.value)
  {
    match user.id
    case None => Success(None)
    case Some(s) =>
      if IsObjectId(s) then
        assert forall i :: 0 <= i < |s| ==> Hex.IsLowerHexDigit(CanonicalId(s)[i]);
        Success(Some(CanonicalId(s)))
      else Failure(Failed)
  }

  /** The four assignments of the handler; the `revoked` alias is not a schema path and is dropped. */
  function RevokedPrescription(p: Prescription, revoker: Option<string>, now: int): Prescription {
    p.(isRevoked := true, signature := None, revokedBy := revoker, revokedAt := Some(now))
  }

  /** `PUT /prescription/revoke/:id`; `now` is `Date.now()`. */
  function Revoke(db: Db, user: VerifyToken.Claims, id: string, now: int): (r: (Db, Reply))
    ensures !VerifyToken.IsAdmin(user) ==> r == (db, Forbidden)
    ensures !r.1.success ==> r.0 == db
    ensures var k := FindId(AppointmentIds(db.appointments), id);
            r.1.success <==>
              VerifyToken.IsAdmin(user) && k.Found? && HasPrescription(db.appointments[k.index]) && Revoker(user).Success?
    ensures var k := FindId(AppointmentIds(db.appointments), id);
            VerifyToken.IsAdmin(user) && (k.NotFound? || (k.Found? && !HasPrescription(db.appointments[k.index]))) ==>
              r == (db, PrescriptionMissing)
    ensures r.1.success ==>
              var i := FindId(AppointmentIds(db.appointments), id).index;
              var a := db.appointments[i];
              r.0 == db.(appointments := db.appointments[i := a.(
                prescription := Some(RevokedPrescription(a.prescription.value, Revoker(user).value, now)))])
  {
    if !VerifyToken.IsAdmin(user) then (db, Forbidden)
    else match FindId(AppointmentIds(db.appointments), id)
      case CastError => (db, Failed)
      case NotFound => (db, PrescriptionMissing)
      case Found(i) =>
        var a := db.appointments[i];
        if a.prescription.None? then (db, PrescriptionMissing)
        else match Revoker(user)
          case Failure(e) => (db, e)
          case Success(revoker) =>
            (db.(appointments := db.appointments[i := a.(prescription := Some(RevokedPrescription(a.prescription.value, revoker, now)))]),
             RevokeDone)
  }

  /**
   * A revocation stamps the flag, the actor and the time, drops the signature,
   * and leaves the encrypted fields, the prescription's and the appointment's
   * timestamps and the status as they were; it keeps the store valid.
   */
  lemma RevokeEffect(db: Db, user: VerifyToken.Claims, id: string, now: int)
    requires ValidAppointments(db.appointments)
    requires Revoke(db, user, id, now).1.success
    ensures var i := FindId(AppointmentIds(db.appointments), id).index;
            var a := db.appointments[i];
            var b := Revoke(db, user, id, now).0.appointments[i];
            var p := a.prescription.value;
            var q := b.prescription.value;
            && q.isRevoked && q.signature.None? && q.revokedAt == Some(now) && q.revokedBy == Revoker(user).value
            && q.diagnosis == p.diagnosis && q.medicines == p.medicines && q.advice == p.advice
            && q.createdAt == p.createdAt && b.status == a.status && b.createdAt == a.createdAt
            && ValidAppointments(Revoke(db, user, id, now).0.appointments)
  {
    var i := FindId(AppointmentIds(db.appointments), id).index;
    ReplaceKeepsValid(db.appointments, i, Revoke(db, user, id, now).0.appointments[i]);
  }

  /**
   * In a valid store an admin's revocation of a stored appointment never meets
   * "Prescription not found": it succeeds exactly when the revoker's label can
   * be read from the token.
   */
  lemma RevokeStored(db: Db, user: VerifyToken.Claims, i: nat, now: int)
    requires ValidAppointments(db.appointments) && i < |db.appointments|
    requires VerifyToken.IsAdmin(user)
    ensures var r := Revoke(db, user, db.appointments[i].id, now);
            r.1 != PrescriptionMissing && (r.1.success <==> Revoker(user).Success?)
  {
    FindStoredId(db.appointments, i);
  }

  /** Revocation does not look at the flag: revoking again succeeds and restamps actor and time. */
  lemma RevokeAgain(db: Db, user: VerifyToken.Claims, user2: VerifyToken.Claims, id: string, now: int, now2: int)
    requires Revoke(db, user, id, now).1.success
    requires VerifyToken.IsAdmin(user2) && Revoker(user2).Success?
    ensures var db1 := Revoke(db, user, id, now).0;
            var i := FindId(AppointmentIds(db.appointments), id).index;
            var r2 := Revoke(db1, user2, id, now2);
            && r2.1 == RevokeDone
            && r2.0.appointments[i].prescription.value.revokedBy == Revoker(user2).value
            && r2.0.appointments[i].prescription.value.revokedAt == Some(now2)
  {
    var db1 := Revoke(db, user, id, now).0;
    assert AppointmentIds(db1.appointments) == AppointmentIds(db.appointments);
  }

  /**
   * Revocation is final for the routes: afterwards a write to the same
   * appointment is refused and changes nothing, the patient sees only the
   * notice, and the plain PDF route answers 403.
   */
  lemma RevokeIsFinal(lib: NodeCrypto.Library, session: Option<Octets.Bytes>, db: Db, user: VerifyToken.Claims,
                      id: string, now: int, diagnosis: Option<string>, medicines: Option<string>,
                      advice: Option<string>, later: int)
    requires NodeCrypto.Sound(lib) && CryptoFacade.ValidSessionKey(session)
    requires Revoke(db, user, id, now).1.success
    ensures var db1 := Revoke(db, user, id, now).0;
            var i := FindId(AppointmentIds(db.appointments), id).index;
            && (!Falsy(diagnosis) && !Falsy(medicines) ==>
                  AddPrescription(lib, session, db1, id, diagnosis, medicines, advice, later) ==
                    (db1, Reply(200, false, RevokedByAdmin)))
            && PatientView(lib, session, db1.appointments[i]).prescription ==
                 Some(PrescriptionView(RevokedNotice, None, None))
            && PrescriptionPdf(lib, session, db1, id) == Refused(Reply(403, false, RevokedByAdmin))
  {
    var db1 := Revoke(db, user, id, now).0;
    assert AppointmentIds(db1.appointments) == AppointmentIds(db.appointments);
  }

  // ---------------------------------------------------------------- the store as an object

  /** `PUT /prescription/revoke/:id` against the store. */
  method RevokeHandler(db: Database, user: VerifyToken.Claims, id: string, now: int) returns (reply: Reply)
    modifies db
    ensures (db.State(), reply) == Revoke(old(db.State()), user, id, now)
  {
    if !VerifyToken.IsAdmin(user) {
      return Forbidden;
    }
    var found := db.FindAppointment(id);
    match found
    case CastError => reply := Failed;
    case NotFound => reply := PrescriptionMissing;
    case Found(i) =>
      var a := db.appointments[i];
      if a.prescription.None? {
        reply := PrescriptionMissing;
      } else {
        var revoker := Revoker(user);
        if revoker.Failure? {
          reply := revoker.error;
        } else {
          var p := RevokedPrescription(a.prescription.value, revoker.value, now);
          db.appointments := db.appointments[i := a.(prescription := Some(p))];
          reply := RevokeDone;
        }
      }
  }

  /** `DELETE /doctor/:id` against the store. */
  method RemoveDoctorHandler(db: Database, user: VerifyToken.Claims, id: string) returns (reply: Reply)
    modifies db
    ensures (db.State(), reply) == RemoveDoctor(old(db.State()), user, id)
  {
    if !VerifyToken.IsAdmin(user) {
      return Forbidden;
    }
    var found := db.FindDoctor(id);
    match found
    case CastError => reply := Failed;
    case NotFound => reply := Reply(200, true, "Doctor removed successfully");
    case Found(i) =>
      db.doctors := RemoveAt(db.doctors, i);
      reply := Reply(200, true, "Doctor removed successfully");
  }

  /** `DELETE /patient/:id` against the store. */
  method RemovePatientHandler(db: Database, user: VerifyToken.Claims, id: string) returns (reply: Reply)
    modifies db
    ensures (db.State(), reply) == RemovePatient(old(db.State()), user, id)
  {
    if !VerifyToken.IsAdmin(user) {
      return Forbidden;
    }
    var found := db.FindUser(id);
    match found
    case CastError => reply := Failed;
    case NotFound => reply := Reply(200, true, "Patient removed successfully");
    case Found(i) =>
      db.users := RemoveAt(db.users, i);
      reply := Reply(200, true, "Patient removed successfully");
  }

  /** `POST /add-doctor`, corrected, against the store. */
  method AddDoctorHandler(db: Database, user: VerifyToken.Claims, form: DoctorForm, newId: string) returns (reply: Reply)
    modifies db
    ensures (db.State(), reply) == AddDoctorCorrected(old(db.State()), user, form, newId)
  {
    if !VerifyToken.IsAdmin(user) {
      return AdminsOnly;
    }
    if Falsy(form.name) || Falsy(form.specialization) {
      return NameAndSpecializationRequired;
    }
    var d := FormDoctor(newId, form, if form.email.Some? then form.email.value else "");
    if !DoctorRequired(d) {
      return ServerError;
    }
    var existing := db.FindDoctorByEmail(d.email);
    if existing.Some? {
      return ServerError;
    }
    db.doctors := db.doctors + [d];
    reply := DoctorAdded;
  }
}
