/**
 * The MongoDB collections the routes read and write, as one object with a
 * sequence per collection in natural (insertion) order, and the lookups the
 * routes use: `findById` (which casts its argument and throws on a malformed
 * id) and `findOne` on an equality filter.
 */
module Store {
  import opened Wrappers
  import opened Models
  import Seqs

  /** The three collections. */
  datatype Db = Db(appointments: seq<Appointment>, doctors: seq<Doctor>, users: seq<User>)

  /** The outcome of `Model.findById(id)`. */
  datatype Lookup = CastError | NotFound | Found(index: nat)

  /** An HTTP reply `res.status(status).json({ success, message })`; `""` is an absent message. */
  datatype Reply = Reply(status: nat, success: bool, message: string)

  const ServerError := Reply(500, false, "Server error")

  /** `findById` on a collection of ids: the cast refuses a malformed id, otherwise the first match. */
  function FindId(ids: seq<string>, id: string): (r: Lookup)
    ensures r.CastError? <==> !IsObjectId(id)
    ensures r.Found? ==> r.index < |ids| && ids[r.index] == CanonicalId(id)
    ensures r.NotFound? ==> CanonicalId(id) !in ids
  {
    if !IsObjectId(id) then CastError
    else match Seqs.FirstIndex((x: string) => x == CanonicalId(id), ids)
      case None => NotFound
      case Some(i) => Found(i)
  }

  /** The `_id` column of a collection, in store order. */
  function AppointmentIds(apps: seq<Appointment>): (r: seq<string>)
    ensures |r| == |apps| && forall i :: 0 <= i < |apps| ==> r[i] == apps[i].id
  {
    Seqs.Map((x: Appointment) => x.id, apps)
  }

  function DoctorIds(docs: seq<Doctor>): (r: seq<string>)
    ensures |r| == |docs| && forall i :: 0 <= i < |docs| ==> r[i] == docs[i].id
  {
    Seqs.Map((x: Doctor) => x.id, docs)
  }

  function UserIds(users: seq<User>): (r: seq<string>)
    ensures |r| == |users| && forall i :: 0 <= i < |users| ==> r[i] == users[i].id
  {
    Seqs.Map((x: User) => x.id, users)
  }

  /** No id occurs twice: `_id` is the primary key of every collection. */
  predicate UniqueIds(ids: seq<string>) {
    forall i, j :: 0 <= i < j < |ids| ==> ids[i] != ids[j]
  }

  /** `User.findOne({ email })`. */
  function UserByEmail(users: seq<User>, email: string): (r: Option<nat>)
    ensures r.Some? ==> r.value < |users| && users[r.value].email == email
    ensures r.None? ==> forall i :: 0 <= i < |users| ==> users[i].email != email
  {
    Seqs.FirstIndex((u: User) => u.email == email, users)
  }

  /** `Doctor.findOne({ email })`. */
  function DoctorByEmail(docs: seq<Doctor>, email: string): (r: Option<nat>)
    ensures r.Some? ==> r.value < |docs| && docs[r.value].email == email
    ensures r.None? ==> forall i :: 0 <= i < |docs| ==> docs[i].email != email
  {
    Seqs.FirstIndex((d: Doctor) => d.email == email, docs)
  }

  /** `User.findOne({ role })`. */
  function UserByRole(users: seq<User>, role: Role): (r: Option<nat>)
    ensures r.Some? ==> r.value < |users| && users[r.value].role == role
    ensures r.None? ==> forall i :: 0 <= i < |users| ==> users[i].role != role
  {
    Seqs.FirstIndex((u: User) => u.role == role, users)
  }

  /** The collections as the handlers see them between requests. */
  class Database {
    var appointments: seq<Appointment>
    var doctors: seq<Doctor>
    var users: seq<User>

    function State(): Db
      reads this
    {
      Db(appointments, doctors, users)
    }

    constructor (db: Db)
      ensures State() == db
    {
      appointments := db.appointments;
      doctors := db.doctors;
      users := db.users;
    }

    /** `Appointment.findById(id)`, scanning the collection. */
    method FindAppointment(id: string) returns (r: Lookup)
      ensures r == FindId(AppointmentIds(appointments), id)
    {
      if !IsObjectId(id) {
        return CastError;
      }
      var key := CanonicalId(id);
      var ids := AppointmentIds(appointments);
      var i := 0;
      while i < |appointments|
        invariant 0 <= i <= |appointments|
        invariant forall j :: 0 <= j < i ==> ids[j] != key
      {
        if appointments[i].id == key {
          FirstMatch(ids, key, i);
          return Found(i);
        }
        i := i + 1;
      }
      NoMatch(ids, key);
      r := NotFound;
    }

    /** `Doctor.findById(id)`, scanning the collection. */
    method FindDoctor(id: string) returns (r: Lookup)
      ensures r == FindId(DoctorIds(doctors), id)
    {
      if !IsObjectId(id) {
        return CastError;
      }
      var key := CanonicalId(id);
      var ids := DoctorIds(doctors);
      var i := 0;
      while i < |doctors|
        invariant 0 <= i <= |doctors|
        invariant forall j :: 0 <= j < i ==> ids[j] != key
      {
        if doctors[i].id == key {
          FirstMatch(ids, key, i);
          return Found(i);
        }
        i := i + 1;
      }
      NoMatch(ids, key);
      r := NotFound;
    }

    /** `User.findById(id)`, scanning the collection. */
    method FindUser(id: string) returns (r: Lookup)
      ensures r == FindId(UserIds(users), id)
    {
      if !IsObjectId(id) {
        return CastError;
      }
      var key := CanonicalId(id);
      var ids := UserIds(users);
      var i := 0;
      while i < |users|
        invariant 0 <= i <= |users|
        invariant forall j :: 0 <= j < i ==> ids[j] != key
      {
        if users[i].id == key {
          FirstMatch(ids, key, i);
          return Found(i);
        }
        i := i + 1;
      }
      NoMatch(ids, key);
      r := NotFound;
    }

    /** `Doctor.findOne({ email })`, scanning the collection. */
    method FindDoctorByEmail(email: string) returns (r: Option<nat>)
      ensures r == DoctorByEmail(doctors, email)
    {
      var i := 0;
      while i < |doctors|
        invariant 0 <= i <= |doctors|
        invariant forall j :: 0 <= j < i ==> doctors[j].email != email
      {
        if doctors[i].email == email {
          FirstIndexIs((d: Doctor) => d.email == email, doctors, i);
          return Some(i);
        }
        i := i + 1;
      }
      FirstIndexNone((d: Doctor) => d.email == email, doctors);
      r := None;
    }

    /** `User.findOne({ role })`, scanning the collection. */
    method FindUserByRole(role: Role) returns (r: Option<nat>)
      ensures r == UserByRole(users, role)
    {
      var i := 0;
      while i < |users|
        invariant 0 <= i <= |users|
        invariant forall j :: 0 <= j < i ==> users[j].role != role
      {
        if users[i].role == role {
          FirstIndexIs((u: User) => u.role == role, users, i);
          return Some(i);
        }
        i := i + 1;
      }
      FirstIndexNone((u: User) => u.role == role, users);
      r := None;
    }

    /** `User.findOne({ email })`, scanning the collection. */
    method FindUserByEmail(email: string) returns (r: Option<nat>)
      ensures r == UserByEmail(users, email)
    {
      var i := 0;
      while i < |users|
        invariant 0 <= i <= |users|
        invariant forall j :: 0 <= j < i ==> users[j].email != email
      {
        if users[i].email == email {
          FirstIndexIs((u: User) => u.email == email, users, i);
          return Some(i);
        }
        i := i + 1;
      }
      FirstIndexNone((u: User) => u.email == email, users);
      r := None;
    }
  }

  /** The id search stops at the first match. */
  lemma FirstMatch(ids: seq<string>, key: string, i: nat)
    requires i < |ids| && ids[i] == key && forall j :: 0 <= j < i ==> ids[j] != key
    ensures Seqs.FirstIndex((x: string) => x == key, ids) == Some(i)
  {
    FirstIndexIs((x: string) => x == key, ids, i);
  }

  lemma NoMatch(ids: seq<string>, key: string)
    requires key !in ids
    ensures Seqs.FirstIndex((x: string) => x == key, ids) == None
  {
    FirstIndexNone((x: string) => x == key, ids);
  }

  /** The first position satisfying `p` is the one `FirstIndex` finds. */
  lemma FirstIndexIs<T>(p: T -> bool, s: seq<T>, i: nat)
    requires i < |s| && p(s[i]) && forall j :: 0 <= j < i ==> !p(s[j])
    ensures Seqs.FirstIndex(p, s) == Some(i)
  {
  }

  lemma FirstIndexNone<T>(p: T -> bool, s: seq<T>)
    requires forall j :: 0 <= j < |s| ==> !p(s[j])
    ensures Seqs.FirstIndex(p, s) == None
  {
  }
}
