/**
 * The medical-records page, `js/records.js`: the per-role merge of stored
 * prescriptions, appointments and the two mock lab reports into one list,
 * the type and day filters, the newest-first order, and `formatTime`. The
 * stored lists, the current role and name, and the clock are inputs.
 */
module Records {
  import opened Wrappers
  import opened JsString
  import Seqs

  // ---------------------------------------------------------------- records

  datatype Kind = PrescriptionRecord | AppointmentRecord | ReportRecord

  /**
   * A stored item, reduced to what the merge reads: its `id`, its `patientName`
   * (`None` is `null`), and the instant of its date field (`createdAt`, or
   * `bookedAt` for an appointment) in milliseconds.
   */
  datatype Item = Item(id: string, patientName: Option<string>, date: int)

  /** `{ type, id, title, date, data }` as pushed onto `allRecords`. */
  datatype Record = Record(kind: Kind, id: string, title: string, date: int, data: Item)

  /** The `title` each kind of record is pushed with. */
  function Title(k: Kind): string {
    match k
    case PrescriptionRecord => "E-Prescription"
    case AppointmentRecord => "Appointment Record"
    case ReportRecord => "Lab Report"
  }

  function ToRecord(k: Kind, x: Item): (r: Record)
    ensures r.kind == k && r.id == x.id && r.date == x.date && r.data == x && r.title == Title(k)
  {
    Record(k, x.id, Title(k), x.date, x)
  }

  const LabOne: string := "lab_1"
  const LabTwo: string := "lab_2"

  /**
   * `getLabReports()`: two mock reports for the current name, dated seven and
   * thirty days before `now`.
   */
  function LabReports(currentUser: Option<string>, now: int): (rs: seq<Item>)
    ensures |rs| == 2 && forall i :: 0 <= i < 2 ==> rs[i].patientName == currentUser
    ensures rs[0].date == now - 7 * 86400000 && rs[1].date == now - 30 * 86400000
  {
    [Item(LabOne, currentUser, now - 7 * 86400000), Item(LabTwo, currentUser, now - 30 * 86400000)]
  }

  // ---------------------------------------------------------------- role-based merge

  /** `localStorage.getItem('role')` as the page compares it; `null` or any other text is `OtherRole`. */
  datatype Role = Patient | Doctor | Admin | OtherRole

  function RoleOf(stored: Option<string>): (r: Role)
    ensures r == Patient <==> stored == Some("patient")
    ensures r == Doctor <==> stored == Some("doctor")
    ensures r == Admin <==> stored == Some("admin")
  {
    if stored == Some("patient") then Patient
    else if stored == Some("doctor") then Doctor
    else if stored == Some("admin") then Admin
    else OtherRole
  }

  /**
   * The condition of each `forEach`: a patient gets the items under their own
   * name, a doctor every item, an admin lab reports only; any other role nothing.
   */
  predicate Visible(role: Role, currentUser: Option<string>, k: Kind, x: Item) {
    || (role == Patient && x.patientName == currentUser)
    || role == Doctor
    || (role == Admin && k == ReportRecord)
  }

  /** The records one `forEach` pushes, in the order of the stored list. */
  function Collect(role: Role, currentUser: Option<string>, k: Kind, items: seq<Item>): (rs: seq<Record>)
    ensures |rs| <= |items|
    decreases |items|
  {
    if items == [] then []
    else
      var x := items[|items| - 1];
      Collect(role, currentUser, k, items[..|items| - 1]) + (if Visible(role, currentUser, k, x) then [ToRecord(k, x)] else [])
  }

  /** One more item pushes its record when it is visible. */
  lemma CollectSnoc(role: Role, currentUser: Option<string>, k: Kind, items: seq<Item>, i: nat)
    requires i < |items|
    ensures Collect(role, currentUser, k, items[..i + 1])
            == Collect(role, currentUser, k, items[..i]) + (if Visible(role, currentUser, k, items[i]) then [ToRecord(k, items[i])] else [])
  {
    assert items[..i + 1][..i] == items[..i];
  }

  /** The pushed records are the records of the visible items, and of nothing else. */
  lemma {:induction false} CollectMembership(role: Role, currentUser: Option<string>, k: Kind, items: seq<Item>)
    ensures forall r :: r in Collect(role, currentUser, k, items) ==>
              r.kind == k && r.data in items && Visible(role, currentUser, k, r.data) && r == ToRecord(k, r.data)
    ensures forall i :: 0 <= i < |items| && Visible(role, currentUser, k, items[i]) ==>
              ToRecord(k, items[i]) in Collect(role, currentUser, k, items)
    decreases |items|
  {
    if items != [] {
      var init := items[..|items| - 1];
      CollectMembership(role, currentUser, k, init);
      assert forall i :: 0 <= i < |init| ==> init[i] == items[i];
    }
  }

  /** A patient sees exactly the items under their own name. */
  lemma PatientSeesOwn(currentUser: Option<string>, k: Kind, items: seq<Item>)
    ensures forall r :: r in Collect(Patient, currentUser, k, items) ==> r.data.patientName == currentUser
    ensures forall i :: 0 <= i < |items| && items[i].patientName == currentUser ==>
              ToRecord(k, items[i]) in Collect(Patient, currentUser, k, items)
  {
    CollectMembership(Patient, currentUser, k, items);
  }

  /** A doctor sees every item of every kind, one record per item. */
  lemma {:induction false} DoctorSeesAll(currentUser: Option<string>, k: Kind, items: seq<Item>)
    ensures |Collect(Doctor, currentUser, k, items)| == |items|
    ensures forall i :: 0 <= i < |items| ==> Collect(Doctor, currentUser, k, items)[i] == ToRecord(k, items[i])
    decreases |items|
  {
    if items != [] {
      DoctorSeesAll(currentUser, k, items[..|items| - 1]);
    }
  }

  /** An admin sees no prescription and no appointment, and every lab report, one record per report. */
  lemma {:induction false} AdminSeesReportsOnly(currentUser: Option<string>, k: Kind, items: seq<Item>)
    ensures k != ReportRecord ==> Collect(Admin, currentUser, k, items) == []
    ensures |Collect(Admin, currentUser, ReportRecord, items)| == |items|
    ensures forall i :: 0 <= i < |items| ==> Collect(Admin, currentUser, ReportRecord, items)[i] == ToRecord(ReportRecord, items[i])
    decreases |items|
  {
    if items != [] {
      AdminSeesReportsOnly(currentUser, k, items[..|items| - 1]);
    }
  }

  /** The mock reports carry the current name, so a patient always sees both. */
  lemma PatientSeesMockReports(currentUser: Option<string>, now: int)
    ensures Collect(Patient, currentUser, ReportRecord, LabReports(currentUser, now))
            == [ToRecord(ReportRecord, LabReports(currentUser, now)[0]), ToRecord(ReportRecord, LabReports(currentUser, now)[1])]
  {
    var rs := LabReports(currentUser, now);
    assert rs[..1][..0] == [];
    assert rs[..|rs| - 1] == rs[..1];
  }

  /** The value of the type select: every kind, one kind, or a value that names none. */
  datatype TypeChoice = AllKinds | OneKind(kind: Kind) | NoKind

  /** `recordFilter.value || 'all'`, read as a choice: a missing element or an empty value means every type. */
  function TypeFilter(value: Option<string>): (c: TypeChoice)
    ensures c == AllKinds <==> Falsy(value) || value == Some("all")
    ensures c == OneKind(PrescriptionRecord) <==> value == Some("prescriptions")
    ensures c == OneKind(AppointmentRecord) <==> value == Some("appointments")
    ensures c == OneKind(ReportRecord) <==> value == Some("reports")
  {
    var v := if Falsy(value) then "all" else value.value;
    if v == "all" then AllKinds
    else if v == "prescriptions" then OneKind(PrescriptionRecord)
    else if v == "appointments" then OneKind(AppointmentRecord)
    else if v == "reports" then OneKind(ReportRecord)
    else NoKind
  }

  /** Whether the type filter admits records of kind `k`. */
  predicate Includes(choice: TypeChoice, k: Kind) {
    choice == AllKinds || choice == OneKind(k)
  }

  /** One `forEach` pass, run only when the type filter admits its kind. */
  function Pass(role: Role, currentUser: Option<string>, choice: TypeChoice, k: Kind, items: seq<Item>): seq<Record> {
    if Includes(choice, k) then Collect(role, currentUser, k, items) else []
  }

  /** The three passes in the order the page runs them: prescriptions, appointments, lab reports. */
  function Merged(role: Role, currentUser: Option<string>, choice: TypeChoice,
                  prescriptions: seq<Item>, appointments: seq<Item>, reports: seq<Item>): seq<Record>
  {
    Pass(role, currentUser, choice, PrescriptionRecord, prescriptions)
    + Pass(role, currentUser, choice, AppointmentRecord, appointments)
    + Pass(role, currentUser, choice, ReportRecord, reports)
  }

  /** The stored list a kind of record comes from. */
  function Source(k: Kind, prescriptions: seq<Item>, appointments: seq<Item>, reports: seq<Item>): seq<Item> {
    match k
    case PrescriptionRecord => prescriptions
    case AppointmentRecord => appointments
    case ReportRecord => reports
  }

  /** A pass pushes a record exactly when its kind is admitted and it is the record of a visible item of the list. */
  lemma PassMembership(role: Role, currentUser: Option<string>, choice: TypeChoice, k: Kind, items: seq<Item>, r: Record)
    ensures r in Pass(role, currentUser, choice, k, items) <==>
              Includes(choice, k) && r == ToRecord(k, r.data) && r.data in items && Visible(role, currentUser, k, r.data)
  {
    CollectMembership(role, currentUser, k, items);
    if Includes(choice, k) && r == ToRecord(k, r.data) && r.data in items && Visible(role, currentUser, k, r.data) {
      var i :| 0 <= i < |items| && items[i] == r.data;
    }
  }

  /** A record is merged exactly when its type passes the filter and its item is visible to the role. */
  lemma MergedMembership(role: Role, currentUser: Option<string>, choice: TypeChoice,
                         prescriptions: seq<Item>, appointments: seq<Item>, reports: seq<Item>, r: Record)
    ensures r in Merged(role, currentUser, choice, prescriptions, appointments, reports) <==>
              && Includes(choice, r.kind) && r == ToRecord(r.kind, r.data)
              && r.data in Source(r.kind, prescriptions, appointments, reports)
              && Visible(role, currentUser, r.kind, r.data)
  {
    PassMembership(role, currentUser, choice, PrescriptionRecord, prescriptions, r);
    PassMembership(role, currentUser, choice, AppointmentRecord, appointments, r);
    PassMembership(role, currentUser, choice, ReportRecord, reports, r);
  }

  // ---------------------------------------------------------------- newest first

  /** Dates never increase along the list. */
  predicate NewestFirst(rs: seq<Record>) {
    forall i, j :: 0 <= i < j < |rs| ==> rs[i].date >= rs[j].date
  }

  /** Places `x` after every record at least as new: the step of a stable sort. */
  function Insert(x: Record, rs: seq<Record>): (r: seq<Record>)
    ensures multiset(r) == multiset(rs) + multiset{x}
    decreases |rs|
  {
    if rs == [] then [x]
    else if rs[0].date >= x.date then
      assert rs == [rs[0]] + rs[1..];
      [rs[0]] + Insert(x, rs[1..])
    else [x] + rs
  }

  lemma {:induction false} InsertNewestFirst(x: Record, rs: seq<Record>)
    requires NewestFirst(rs)
    ensures NewestFirst(Insert(x, rs))
    decreases |rs|
  {
    if rs != [] && rs[0].date >= x.date {
      var tail := Insert(x, rs[1..]);
      InsertNewestFirst(x, rs[1..]);
      forall k | 0 <= k < |tail|
        ensures rs[0].date >= tail[k].date
      {
        assert tail[k] in multiset(tail);
        assert tail[k] == x || tail[k] in multiset(rs[1..]);
        if tail[k] != x {
          var j :| 0 <= j < |rs[1..]| && rs[1..][j] == tail[k];
          assert rs[j + 1] == tail[k];
        }
      }
    }
  }

  /** `allRecords.sort((a, b) => new Date(b.date) - new Date(a.date))`, stable, by insertion. */
  function SortNewestFirst(rs: seq<Record>): (r: seq<Record>)
    ensures multiset(r) == multiset(rs) && |r| == |rs|
    decreases |rs|
  {
    if rs == [] then []
    else
      var init, last := rs[..|rs| - 1], rs[|rs| - 1];
      assert rs == init + [last];
      assert multiset(rs) == multiset(init) + multiset{last};
      Insert(last, SortNewestFirst(init))
  }

  /** The merged list comes out newest first and holds the same records as before, each as often. */
  lemma {:induction false} SortIsOrderedPermutation(rs: seq<Record>)
    ensures NewestFirst(SortNewestFirst(rs))
    ensures multiset(SortNewestFirst(rs)) == multiset(rs)
    decreases |rs|
  {
    if rs != [] {
      SortIsOrderedPermutation(rs[..|rs| - 1]);
      InsertNewestFirst(rs[|rs| - 1], SortNewestFirst(rs[..|rs| - 1]));
    }
  }

  // ---------------------------------------------------------------- the day filter

  /** `new Date(record.date).toISOString().split('T')[0] === filterDate`, the day as a count of UTC days. */
  predicate OnDay(day: int, r: Record) {
    r.date / 86400000 == day
  }

  /** `if (filterDate)`: an empty date input keeps everything. */
  function DateFiltered(filterDate: Option<int>, rs: seq<Record>): (r: seq<Record>)
    ensures filterDate.None? ==> r == rs
    ensures filterDate.Some? ==> forall x :: x in r <==> x in rs && x.date / 86400000 == filterDate.value
  {
    if filterDate.None? then rs
    else
      var kept := Seqs.Filter(d => OnDay(filterDate.value, d), rs);
      assert forall x :: x in rs && OnDay(filterDate.value, x) ==> x in kept by {
        forall x | x in rs && OnDay(filterDate.value, x) ensures x in kept {
          var i :| 0 <= i < |rs| && rs[i] == x;
        }
      }
      assert forall x :: x in kept ==> x in rs && OnDay(filterDate.value, x) by {
        forall x | x in kept ensures x in rs && OnDay(filterDate.value, x) {
          var i :| 0 <= i < |kept| && kept[i] == x;
        }
      }
      kept
  }

  /** A day filter keeps exactly the records of that UTC day, from midnight up to the next midnight. */
  lemma OnDayBounds(day: int, r: Record)
    ensures OnDay(day, r) <==> day * 86400000 <= r.date < (day + 1) * 86400000
  {
  }

  // ---------------------------------------------------------------- the page

  /** What `#recordsList` shows. */
  datatype Display = NoRecordsFound | NoMatches | Listed(records: seq<Record>)

  /** The records shown once sorted: `displayRecords` lists them, or says nothing matched. */
  function Shown(rs: seq<Record>): Display {
    if rs == [] then NoMatches else Listed(SortNewestFirst(rs))
  }

  /**
   * `loadRecords()`: every kind merged for the role, sorted newest first; an
   * empty result says "No medical records found".
   */
  method LoadRecords(storedRole: Option<string>, currentUser: Option<string>, prescriptions: seq<Item>, appointments: seq<Item>,
                     now: int)
    returns (d: Display)
    ensures var all := Merged(RoleOf(storedRole), currentUser, AllKinds, prescriptions, appointments, LabReports(currentUser, now));
            d == if all == [] then NoRecordsFound else Listed(SortNewestFirst(all))
  {
    var role := RoleOf(storedRole);
    var labReports := LabReports(currentUser, now);
    var allRecords := PushVisible([], role, currentUser, PrescriptionRecord, prescriptions);
    allRecords := PushVisible(allRecords, role, currentUser, AppointmentRecord, appointments);
    allRecords := PushVisible(allRecords, role, currentUser, ReportRecord, labReports);
    assert allRecords == Merged(role, currentUser, AllKinds, prescriptions, appointments, labReports);
    var sorted := SortNewestFirst(allRecords);
    if |sorted| == 0 {
      return NoRecordsFound;
    }
    d := Listed(sorted);
  }

  /**
   * `filterRecords()`: the kinds the type filter admits, then the day
   * filter, then the sort; an empty result says "No records match your filters".
   */
  method FilterRecords(filterValue: Option<string>, filterDate: Option<int>, storedRole: Option<string>,
                       currentUser: Option<string>, prescriptions: seq<Item>, appointments: seq<Item>, now: int)
    returns (d: Display)
    ensures d == Shown(DateFiltered(filterDate, Merged(RoleOf(storedRole), currentUser, TypeFilter(filterValue), prescriptions,
                                                        appointments, LabReports(currentUser, now))))
  {
    var allRecords := MergeChosen(TypeFilter(filterValue), RoleOf(storedRole), currentUser, prescriptions, appointments,
                                  LabReports(currentUser, now));
    if filterDate.Some? {
      allRecords := DateFiltered(filterDate, allRecords);
    }
    allRecords := SortNewestFirst(allRecords);
    if |allRecords| == 0 {
      return NoMatches;
    }
    d := Listed(allRecords);
  }

  /** The three guarded `forEach` passes of `filterRecords`. */
  method MergeChosen(choice: TypeChoice, role: Role, currentUser: Option<string>,
                     prescriptions: seq<Item>, appointments: seq<Item>, labReports: seq<Item>)
    returns (allRecords: seq<Record>)
    ensures allRecords == Merged(role, currentUser, choice, prescriptions, appointments, labReports)
  {
    allRecords := [];
    if Includes(choice, PrescriptionRecord) {
      allRecords := PushVisible(allRecords, role, currentUser, PrescriptionRecord, prescriptions);
    }
    ghost var first := Pass(role, currentUser, choice, PrescriptionRecord, prescriptions);
    assert allRecords == first;
    if Includes(choice, AppointmentRecord) {
      allRecords := PushVisible(allRecords, role, currentUser, AppointmentRecord, appointments);
    }
    ghost var second := Pass(role, currentUser, choice, AppointmentRecord, appointments);
    assert allRecords == first + second;
    if Includes(choice, ReportRecord) {
      allRecords := PushVisible(allRecords, role, currentUser, ReportRecord, labReports);
    }
  }

  /** One `forEach` over a stored list, pushing the visible items' records onto `allRecords`. */
  method PushVisible(allRecords: seq<Record>, role: Role, currentUser: Option<string>, k: Kind, items: seq<Item>)
    returns (r: seq<Record>)
    ensures r == allRecords + Collect(role, currentUser, k, items)
  {
    var pushed: seq<Record> := [];
    for i := 0 to |items|
      invariant pushed == Collect(role, currentUser, k, items[..i])
    {
      CollectSnoc(role, currentUser, k, items, i);
      if Visible(role, currentUser, k, items[i]) {
        pushed := pushed + [ToRecord(k, items[i])];
      }
    }
    assert items[..|items|] == items;
    r := allRecords + pushed;
  }

  /**
   * A listed page is in newest-first order, and a record is on it exactly when
   * its type passes the filter, its item is in the stored list for that type
   * and visible to the role, and it falls on the chosen UTC day, if any.
   */
  lemma ListedRecords(choice: TypeChoice, filterDate: Option<int>, role: Role, currentUser: Option<string>,
                      prescriptions: seq<Item>, appointments: seq<Item>, reports: seq<Item>, r: Record)
    requires Shown(DateFiltered(filterDate, Merged(role, currentUser, choice, prescriptions, appointments, reports))).Listed?
    ensures var d := Shown(DateFiltered(filterDate, Merged(role, currentUser, choice, prescriptions, appointments, reports)));
            && NewestFirst(d.records)
            && (r in d.records <==>
                  && Includes(choice, r.kind) && r == ToRecord(r.kind, r.data)
                  && r.data in Source(r.kind, prescriptions, appointments, reports)
                  && Visible(role, currentUser, r.kind, r.data)
                  && (filterDate.Some? ==> r.date / 86400000 == filterDate.value))
  {
    var kept := DateFiltered(filterDate, Merged(role, currentUser, choice, prescriptions, appointments, reports));
    SortIsOrderedPermutation(kept);
    MergedMembership(role, currentUser, choice, prescriptions, appointments, reports, r);
    assert r in SortNewestFirst(kept) <==> r in multiset(SortNewestFirst(kept));
    assert r in kept <==> r in multiset(kept);
  }

  // ---------------------------------------------------------------- formatTime

  /** `String(n)` for any integer. */
  function IntString(n: int): string {
    if n < 0 then "-" + DecimalString(-n) else DecimalString(n)
  }

  /** `hour % 12 || 12` for a parsed hour; `NaN` is falsy and shows as 12. */
  function DisplayHour(hour: Option<int>): (h: int)
    ensures hour.Some? && hour.value >= 0 ==> 1 <= h <= 12
    ensures hour.None? ==> h == 12
  {
    if hour.None? then 12
    else
      var m := JsRem(hour.value, 12);
      if m == 0 then 12 else m
  }

  /** `${displayHour}:${minutes} ${ampm}`. */
  function Clock(hour: string, minutes: string, pm: bool): (r: string)
    ensures |r| == |hour| + |minutes| + 4
    ensures r[..|hour| + 1] == hour + ":" && r[|r| - 3..] == (if pm then " PM" else " AM")
  {
    var r := hour + ":" + minutes + (if pm then " PM" else " AM");
    assert r[..|hour| + 1] == hour + ":";
    r
  }

  /**
   * `formatTime(timeString)`: the hour of the part before the first colon on a
   * twelve-hour clock, the second part verbatim ("undefined" without a colon),
   * and PM exactly when the hour parsed to at least 12.
   */
  function FormatTime(timeString: string): (r: string)
  {
    var hour := ParseInt(Split(timeString, ':')[0]);
    var minutes := Piece(timeString, ':', 1);
    Clock(IntString(DisplayHour(hour)), if minutes.Some? then minutes.value else "undefined", hour.Some? && hour.value >= 12)
  }

  /** An `HH:MM` text splits at its one colon. */
  lemma SplitClock(hh: string, mm: string)
    requires ':' !in hh && ':' !in mm
    ensures Split(hh + ":" + mm, ':') == [hh, mm]
  {
    var t := hh + ":" + mm;
    assert t == hh + [':'] + mm;
    SplitAtFirst(hh, ':', mm);
    SplitNoSeparator(mm, ':');
  }

  /** An `HH:MM` text shows its hour on the twelve-hour clock and its minutes verbatim. */
  lemma FormatClock(hh: string, mm: string)
    requires ':' !in hh && ':' !in mm
    ensures var hour := ParseInt(hh);
            FormatTime(hh + ":" + mm) == Clock(IntString(DisplayHour(hour)), mm, hour.Some? && hour.value >= 12)
  {
    SplitClock(hh, mm);
  }

  /**
   * For an hour that parses to a non-negative number: the hour shown is in
   * 1..12 and is that number modulo 12 with 0 shown as 12, and the suffix is AM
   * exactly when the number is below 12.
   */
  lemma FormatHour(hh: string, mm: string)
    requires ':' !in hh && ':' !in mm
    ensures var hour := ParseInt(hh);
            hour.Some? && hour.value >= 0 ==>
              && 1 <= DisplayHour(hour) <= 12 && DisplayHour(hour) % 12 == hour.value % 12
              && FormatTime(hh + ":" + mm) == Clock(DecimalString(DisplayHour(hour)), mm, hour.value >= 12)
  {
    FormatClock(hh, mm);
    HourOnClock(ParseInt(hh));
  }

  /**
   * A time whose hour is written in decimal digits, as a time input's value
   * `HH:MM` is: the hour shown is that number modulo 12 with 0 shown as 12,
   * the minutes are kept verbatim, and the suffix is PM exactly from 12 on.
   */
  lemma FormatDigits(hh: string, mm: string)
    requires hh != [] && forall i :: 0 <= i < |hh| ==> DigitValue(hh[i], Decimal).Some?
    requires ':' !in mm
    ensures var h := DigitsValue(hh, Decimal);
            && 1 <= DisplayHour(Some(h)) <= 12 && DisplayHour(Some(h)) % 12 == h % 12
            && FormatTime(hh + ":" + mm) == Clock(DecimalString(DisplayHour(Some(h))), mm, h >= 12)
  {
    assert forall i :: 0 <= i < |hh| ==> hh[i] != ':';
    ParseDigits(hh);
    FormatHour(hh, mm);
  }

  lemma HourOnClock(hour: Option<int>)
    ensures hour.Some? && hour.value >= 0 ==>
              && 1 <= DisplayHour(hour) <= 12 && DisplayHour(hour) % 12 == hour.value % 12
              && IntString(DisplayHour(hour)) == DecimalString(DisplayHour(hour))
  {
  }
}
