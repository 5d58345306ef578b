/**
 * The three Mongoose schemas: `Appointment` with its nested `prescription`,
 * `User` and `Doctor`, as record types with their enumerations, defaults and
 * required fields, and the ObjectId syntax that ids are cast through.
 */
module Models {
  import opened Wrappers
  import Hex

  /** `mongoose.Types.ObjectId.isValid(s)` for a string: 24 hexadecimal digits, in either case. */
  predicate IsObjectId(s: string) {
    |s| == 24 && forall i :: 0 <= i < |s| ==> Hex.Unhex(s[i]) >= 0
  }

  /** The canonical (lower-case) spelling of an ObjectId, as `_id.toString()` prints it. */
  function CanonicalId(s: string): (r: string)
    ensures |r| == |s|
    ensures forall i :: 0 <= i < |s| ==> Hex.Unhex(r[i]) == Hex.Unhex(s[i])
    ensures forall i :: 0 <= i < |s| && Hex.Unhex(s[i]) >= 0 ==> Hex.IsLowerHexDigit(r[i])
  {
    if s == [] then []
    else [if 'A' <= s[0] <= 'F' then (s[0] as int + 32) as char else s[0]] + CanonicalId(s[1..])
  }

  /** An id as stored: a canonical ObjectId. */
  predicate IsStoredId(s: string) {
    IsObjectId(s) && forall i :: 0 <= i < |s| ==> Hex.IsLowerHexDigit(s[i])
  }

  /** Casting a canonical id to an ObjectId and printing it again gives the same string. */
  lemma {:induction false} CanonicalIdOfStored(s: string)
    requires forall i :: 0 <= i < |s| ==> Hex.IsLowerHexDigit(s[i])
    ensures CanonicalId(s) == s
  {
    if s != [] {
      assert forall i :: 0 <= i < |s[1..]| ==> s[1..][i] == s[i + 1];
      CanonicalIdOfStored(s[1..]);
    }
  }

  // ---------------------------------------------------------------- Appointment.js

  /** `status`: enum ["Booked", "Cancelled", "Completed"], default "Booked". */
  datatype Status = Booked | Cancelled | Completed

  const DefaultStatus: Status := Booked

  /**
   * The nested `prescription` path. Every field but `isRevoked` is optional
   * (`None` is an unset path or `null`); `isRevoked` defaults to false. There is
   * no `revoked` path, so nothing of that name is ever stored.
   */
  datatype Prescription = Prescription(
    diagnosis: Option<string>,
    medicines: Option<string>,
    advice: Option<string>,
    signature: Option<string>,
    signedBy: Option<string>,
    createdAt: Option<int>,
    isRevoked: bool,
    revokedBy: Option<string>,
    revokedAt: Option<int>)

  /** The nested path as a new document materialises it: only the `isRevoked` default set. */
  const DefaultPrescription: Prescription := Prescription(None, None, None, None, None, None, false, None, None)

  /** An appointment document; `createdAt` is the schema's `timestamps` field, in milliseconds. */
  datatype Appointment = Appointment(
    id: string,
    patientName: string,
    patientEmail: string,
    doctor: string,
    doctorEmail: Option<string>,
    date: string,
    time: string,
    disease: Option<string>,
    status: Status,
    prescription: Option<Prescription>,
    createdAt: int)

  /** The `required: true` validators: a required string must be present and non-empty. */
  predicate AppointmentRequired(a: Appointment) {
    a.patientName != "" && a.patientEmail != "" && IsStoredId(a.doctor) && a.date != "" && a.time != ""
  }

  /** `Appointment.create(...)` of the booking fields: the defaults fill in status and prescription. */
  function NewAppointment(id: string, patientName: string, patientEmail: string, doctor: string,
                          date: string, time: string, disease: Option<string>, now: int): (a: Appointment)
    ensures a.status == Booked
    ensures a.prescription == Some(DefaultPrescription) && !a.prescription.value.isRevoked
    ensures a.id == id && a.doctor == doctor && a.createdAt == now
  {
    Appointment(id, patientName, patientEmail, doctor, None, date, time, disease, DefaultStatus,
                Some(DefaultPrescription), now)
  }

  // ---------------------------------------------------------------- User.js

  /** `role`: enum ["patient", "doctor", "admin"], default "patient". */
  datatype Role = PatientRole | DoctorRole | AdminRole

  function RoleName(r: Role): (s: string)
    ensures RoleOf(s) == Some(r)
  {
    match r
    case PatientRole => "patient"
    case DoctorRole => "doctor"
    case AdminRole => "admin"
  }

  /** The enum validator: the role a string names, if any. */
  function RoleOf(s: string): (r: Option<Role>)
    ensures r.Some? <==> s in {"patient", "doctor", "admin"}
  {
    if s == "patient" then Some(PatientRole)
    else if s == "doctor" then Some(DoctorRole)
    else if s == "admin" then Some(AdminRole)
    else None
  }

  /** A user document; `password` holds the bcrypt hash, `otpExpires` milliseconds since the epoch. */
  datatype User = User(
    id: string,
    name: string,
    email: string,
    password: string,
    role: Role,
    otp: Option<string>,
    otpExpires: Option<int>)

  // ---------------------------------------------------------------- Doctor.js

  /** A doctor document; `name`, `email` and `specialization` are required, `email` unique. */
  datatype Doctor = Doctor(
    id: string,
    name: string,
    email: string,
    specialization: string,
    experience: Option<int>,
    hospital: Option<string>,
    availableDays: seq<string>,
    availableSlots: seq<string>)

  predicate DoctorRequired(d: Doctor) {
    d.name != "" && d.email != "" && d.specialization != ""
  }
}
