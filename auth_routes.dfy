/**
 * `routes/authRoutes.js`: registration (unique e-mail, at most one admin),
 * the one-time-password login (issue on login, resend or forgot-password;
 * consume on verify-otp or reset-password) and the two key-exchange routes
 * that drive the Diffie-Hellman slots of `utils/crypto.js`.
 *
 * bcrypt, the mailer, `jwt.sign`, `Math.random` and `Date.now` are outside
 * the model: a password hash and a comparison are parameters, the mail outcome
 * is a parameter the replies do not depend on, the random part of an OTP is
 * an offset below 900000, and the clock is `now` in milliseconds.
 */
module AuthRoutes {
  import opened Wrappers
  import opened Models
  import opened Store
  import opened JsString
  import VerifyToken
  import Octets
  import NodeCrypto
  import CryptoFacade

  // ---------------------------------------------------------------- the user collection

  predicate IsAdminUser(u: User) {
    u.role == AdminRole
  }

  /** A stored user: a canonical id, the schema's required fields, and an OTP present exactly when its expiry is. */
  predicate WellFormedUser(u: User) {
    && IsStoredId(u.id) && u.name != "" && u.email != "" && u.password != ""
    && (u.otp.Some? <==> u.otpExpires.Some?)
  }

  /**
   * What the routes keep true of the users: unique canonical ids and
   * e-mails, the schema's required fields, at most one admin, and an OTP
   * present exactly when its expiry is.
   */
  predicate ValidUsers(users: seq<User>) {
    && UniqueIds(UserIds(users))
    && (forall i :: 0 <= i < |users| ==> WellFormedUser(users[i]))
    && (forall i, j :: 0 <= i < j < |users| ==> users[i].email != users[j].email)
    && (forall i, j :: 0 <= i < |users| && 0 <= j < |users| && IsAdminUser(users[i]) && IsAdminUser(users[j]) ==> i == j)
  }

  /** Changing one user without touching its id, e-mail or role keeps the collection valid when the user is. */
  lemma UpdateKeepsValid(users: seq<User>, i: nat, u: User)
    requires ValidUsers(users) && i < |users|
    requires u.id == users[i].id && u.email == users[i].email && u.role == users[i].role
    requires u.name != "" && u.password != "" && (u.otp.Some? <==> u.otpExpires.Some?)
    ensures ValidUsers(users[i := u])
  {
    var v := users[i := u];
    assert UniqueIds(UserIds(v)) by {
      var ids, ids0 := UserIds(v), UserIds(users);
      assert forall j :: 0 <= j < |ids| ==> ids[j] == ids0[j];
    }
    assert WellFormedUser(u) by {
      assert WellFormedUser(users[i]);
    }
    forall j, k | 0 <= j < k < |v|
      ensures v[j].email != v[k].email
    {
      assert v[j].email == users[j].email && v[k].email == users[k].email;
    }
    forall j, k | 0 <= j < |v| && 0 <= k < |v| && IsAdminUser(v[j]) && IsAdminUser(v[k])
      ensures j == k
    {
      assert IsAdminUser(users[j]) && IsAdminUser(users[k]);
    }
  }

  /** A lookup by e-mail does not see changes to a user that keep its e-mail. */
  lemma UpdateKeepsEmailLookup(users: seq<User>, i: nat, u: User, email: string)
    requires i < |users| && u.email == users[i].email
    ensures UserByEmail(users[i := u], email) == UserByEmail(users, email)
  {
    var p := (x: User) => x.email == email;
    assert forall j :: 0 <= j < |users| ==> p(users[i := u][j]) == p(users[j]);
    FirstIndexCongruent(p, users, users[i := u]);
  }

  lemma {:induction false} FirstIndexCongruent<T>(p: T -> bool, s: seq<T>, t: seq<T>)
    requires |s| == |t| && forall j :: 0 <= j < |s| ==> p(s[j]) == p(t[j])
    ensures Seqs.FirstIndex(p, s) == Seqs.FirstIndex(p, t)
    decreases |s|
  {
    if s != [] && !p(s[0]) {
      FirstIndexCongruent(p, s[1..], t[1..]);
    }
  }

  // ---------------------------------------------------------------- POST /register

  datatype RegisterForm = RegisterForm(name: Option<string>, email: Option<string>, password: Option<string>,
                                       role: Option<string>)

  const AllFieldsRequired := Reply(200, false, "All fields are required")
  const UserExists := Reply(200, false, "User already exists")
  const AdminExists := Reply(200, false, "Admin already exists. Only one admin is allowed.")
  const Registered := Reply(200, true, "Registration successful")

  predicate FormComplete(form: RegisterForm) {
    !Falsy(form.name) && !Falsy(form.email) && !Falsy(form.password) && !Falsy(form.role)
  }

  /**
   * `User.create(...)` validates what the setters left: the name after
   * `trim`, the role against the enum, the password hash; a failure throws
   * and becomes the 500 reply.
   */
  predicate Creatable(form: RegisterForm, hashed: string)
    requires FormComplete(form)
  {
    Trim(form.name.value) != "" && RoleOf(form.role.value).Some? && hashed != ""
  }

  function NewUser(newId: string, form: RegisterForm, hashed: string): (u: User)
    requires FormComplete(form) && Creatable(form, hashed)
    ensures u.otp.None? && u.otpExpires.None? && u.email == form.email.value
  {
    User(newId, Trim(form.name.value), form.email.value, hashed, RoleOf(form.role.value).value, None, None)
  }

  /**
   * `POST /register`; `hashed` is `bcrypt.hash(password, 10)` and `newId`
   * the ObjectId of the new document.
   */
  function Register(db: Db, form: RegisterForm, newId: string, hashed: string): (r: (Db, Reply))
    ensures !FormComplete(form) ==> r == (db, AllFieldsRequired)
    ensures FormComplete(form) && UserByEmail(db.users, form.email.value).Some? ==> r == (db, UserExists)
    ensures !r.1.success ==> r.0 == db
    ensures r.1.success <==>
              && FormComplete(form) && UserByEmail(db.users, form.email.value).None?
              && (form.role.value == "admin" ==> UserByRole(db.users, AdminRole).None?)
              && Creatable(form, hashed)
    ensures r.1.success ==> r.0 == db.(users := db.users + [NewUser(newId, form, hashed)])
  {
    if !FormComplete(form) then (db, AllFieldsRequired)
    else if UserByEmail(db.users, form.email.value).Some? then (db, UserExists)
    else if form.role.value == "admin" && UserByRole(db.users, AdminRole).Some? then (db, AdminExists)
    else if !Creatable(form, hashed) then (db, ServerError)
    else (db.(users := db.users + [NewUser(newId, form, hashed)]), Registered)
  }

  /** Registration keeps the collection valid; in particular a second admin is never created. */
  lemma RegisterKeepsValid(db: Db, form: RegisterForm, newId: string, hashed: string)
    requires ValidUsers(db.users) && IsStoredId(newId) && newId !in UserIds(db.users)
    ensures ValidUsers(Register(db, form, newId, hashed).0.users)
  {
    if Register(db, form, newId, hashed).1.success {
      TrimEmpty(form.name.value);
      AppendKeepsValid(db.users, NewUser(newId, form, hashed));
    }
  }

  /** Appending a well-formed user with a new id and a new e-mail, and no second admin, keeps the collection valid. */
  lemma AppendKeepsValid(users: seq<User>, u: User)
    requires ValidUsers(users) && WellFormedUser(u) && u.id !in UserIds(users)
    requires UserByEmail(users, u.email).None?
    requires IsAdminUser(u) ==> UserByRole(users, AdminRole).None?
    ensures ValidUsers(users + [u])
  {
    var v := users + [u];
    var n := |users|;
    assert UserIds(v) == UserIds(users) + [u.id];
    assert forall k :: 0 <= k < n ==> v[k] == users[k];
    assert v[n] == u;
    forall i, j | 0 <= i < |v| && 0 <= j < |v| && IsAdminUser(v[i]) && IsAdminUser(v[j])
      ensures i == j
    {
      if i == n || j == n {
        assert forall k :: 0 <= k < n ==> !IsAdminUser(users[k]);
      }
    }
    forall i, j | 0 <= i < j < |v|
      ensures v[i].email != v[j].email
    {
      if j == n {
        assert users[i].email != u.email;
      }
    }
  }

  /** With an admin present, a complete admin registration under a new e-mail is refused by the one-admin rule. */
  lemma SecondAdminRefused(db: Db, form: RegisterForm, newId: string, hashed: string, k: nat)
    requires FormComplete(form) && form.role.value == "admin"
    requires UserByEmail(db.users, form.email.value).None?
    requires k < |db.users| && IsAdminUser(db.users[k])
    ensures Register(db, form, newId, hashed) == (db, AdminExists)
  {
  }

  // ---------------------------------------------------------------- issuing an OTP

  /** `5 * 60 * 1000`: an OTP is valid for five minutes. */
  const OtpLifetime: int := 300000

  /**
   * `Math.floor(100000 + Math.random() * 900000).toString()`, the random
   * draw being `offset`: six decimal digits reading 100000 + offset.
   */
  function OtpCode(offset: nat): (code: string)
    requires offset < 900000
    ensures |code| == 6
    ensures forall i :: 0 <= i < |code| ==> IsDecimalDigit(code[i]) && DigitValue(code[i], Decimal).Some?
    ensures DigitsValue(code, Decimal) == 100000 + offset
    ensures 100000 <= DigitsValue(code, Decimal) <= 999999
  {
    DecimalStringLength(100000 + offset, 5);
    DecimalStringValue(100000 + offset);
    DecimalString(100000 + offset)
  }

  /** `user.otp = otp; user.otpExpires = Date.now() + 5 * 60 * 1000; await user.save()`. */
  function IssueOtp(u: User, now: int, offset: nat): (v: User)
    requires offset < 900000
    ensures v.otp == Some(OtpCode(offset)) && v.otpExpires == Some(now + OtpLifetime)
    ensures v.(otp := u.otp, otpExpires := u.otpExpires) == u
  {
    u.(otp := Some(OtpCode(offset)), otpExpires := Some(now + OtpLifetime))
  }

  /** A user found by e-mail gets a fresh OTP; the reply does not depend on `mailDelivered`. */
  function Issue(db: Db, email: string, now: int, offset: nat, mailDelivered: bool, missing: Reply, sent: Reply)
    : (r: (Db, Reply))
    requires offset < 900000
    ensures UserByEmail(db.users, email).None? ==> r == (db, missing)
    ensures UserByEmail(db.users, email).Some? ==>
              var i := UserByEmail(db.users, email).value;
              r == (db.(users := db.users[i := IssueOtp(db.users[i], now, offset)]), sent)
  {
    match UserByEmail(db.users, email)
    case None => (db, missing)
    case Some(i) => (db.(users := db.users[i := IssueOtp(db.users[i], now, offset)]), sent)
  }

  /**
   * `POST /login`; `matches(plain, hash)` is `bcrypt.compare`. The OTP is
   * stored before the mail is attempted, and a failed mail is only logged.
   */
  function Login(db: Db, email: Option<string>, password: Option<string>, matches: (string, string) -> bool,
                 now: int, offset: nat, mailDelivered: bool): (r: (Db, Reply))
    requires offset < 900000
    ensures Falsy(email) || Falsy(password) ==> r == (db, Reply(200, false, "Email and password required"))
    ensures !r.1.success ==> r.0 == db
    ensures r.1.success <==>
              && !Falsy(email) && !Falsy(password)
              && var k := UserByEmail(db.users, email.value);
                 k.Some? && matches(password.value, db.users[k.value].password)
    ensures r.1.success ==>
              var i := UserByEmail(db.users, email.value).value;
              r.0 == db.(users := db.users[i := IssueOtp(db.users[i], now, offset)])
  {
    if Falsy(email) || Falsy(password) then (db, Reply(200, false, "Email and password required"))
    else match UserByEmail(db.users, email.value)
      case None => (db, Reply(200, false, "Please register first"))
      case Some(i) =>
        if !matches(password.value, db.users[i].password) then (db, Reply(200, false, "Invalid credentials"))
        else Issue(db, email.value, now, offset, mailDelivered, ServerError, Reply(200, true, "OTP sent to email"))
  }

  /** `POST /resend-otp`. */
  function ResendOtp(db: Db, email: Option<string>, now: int, offset: nat, mailDelivered: bool): (r: (Db, Reply))
    requires offset < 900000
    ensures Falsy(email) ==> r == (db, Reply(200, false, "Email required"))
    ensures !r.1.success ==> r.0 == db
    ensures r.1.success <==> !Falsy(email) && UserByEmail(db.users, email.value).Some?
    ensures r.1.success ==>
              var i := UserByEmail(db.users, email.value).value;
              r.0 == db.(users := db.users[i := IssueOtp(db.users[i], now, offset)])
  {
    if Falsy(email) then (db, Reply(200, false, "Email required"))
    else Issue(db, email.value, now, offset, mailDelivered, Reply(200, false, "User not found"),
               Reply(200, true, "OTP resent successfully"))
  }

  /** `POST /forgot-password`. */
  function ForgotPassword(db: Db, email: Option<string>, now: int, offset: nat, mailDelivered: bool): (r: (Db, Reply))
    requires offset < 900000
    ensures Falsy(email) ==> r == (db, Reply(200, false, "Email required"))
    ensures !r.1.success ==> r.0 == db
    ensures r.1.success <==> !Falsy(email) && UserByEmail(db.users, email.value).Some?
    ensures r.1.success ==>
              var i := UserByEmail(db.users, email.value).value;
              r.0 == db.(users := db.users[i := IssueOtp(db.users[i], now, offset)])
  {
    if Falsy(email) then (db, Reply(200, false, "Email required"))
    else Issue(db, email.value, now, offset, mailDelivered, Reply(200, false, "Email not registered"),
               Reply(200, true, "OTP sent to email"))
  }

  /**
   * A failed mail changes nothing: the OTP is stored before `sendMail` and a
   * failure is only logged, so `mailDelivered`, the outcome of that call, is
   * never read and the three routes give the same state and reply either way.
   */
  lemma MailOutcomeIgnored(db: Db, email: Option<string>, password: Option<string>, matches: (string, string) -> bool,
                           now: int, offset: nat)
    requires offset < 900000
    ensures Login(db, email, password, matches, now, offset, false) == Login(db, email, password, matches, now, offset, true)
    ensures ResendOtp(db, email, now, offset, false) == ResendOtp(db, email, now, offset, true)
    ensures ForgotPassword(db, email, now, offset, false) == ForgotPassword(db, email, now, offset, true)
  {
  }

  /** Issuing an OTP keeps the collection valid. */
  lemma IssueKeepsValid(db: Db, email: string, now: int, offset: nat, mailDelivered: bool, missing: Reply, sent: Reply)
    requires offset < 900000 && ValidUsers(db.users)
    ensures ValidUsers(Issue(db, email, now, offset, mailDelivered, missing, sent).0.users)
  {
    match UserByEmail(db.users, email)
    case None =>
    case Some(i) => UpdateKeepsValid(db.users, i, IssueOtp(db.users[i], now, offset));
  }

  // ---------------------------------------------------------------- consuming an OTP

  /** `user.otpExpires < Date.now()`; a cleared expiry is `null`, which compares as 0. */
  predicate Expired(expires: Option<int>, now: int) {
    match expires
    case None => 0 < now
    case Some(t) => t < now
  }

  /** The test both consuming routes apply: the stored OTP is the one given and it has not expired. */
  predicate OtpAccepted(u: User, otp: string, now: int) {
    u.otp == Some(otp) && !Expired(u.otpExpires, now)
  }

  /** `user.otp = null; user.otpExpires = null`. */
  function ClearOtp(u: User): (v: User)
    ensures v.otp.None? && v.otpExpires.None?
    ensures v.(otp := u.otp, otpExpires := u.otpExpires) == u
  {
    u.(otp := None, otpExpires := None)
  }

  const InvalidOtp := Reply(200, false, "Invalid or expired OTP")

  /**
   * `POST /verify-otp`: on success the OTP is cleared and a token is signed
   * over `{ id, role }`; the third component is that payload (the token
   * itself is `jwt.sign` of it).
   */
  function VerifyOtp(db: Db, email: Option<string>, otp: Option<string>, now: int)
    : (r: (Db, Reply, Option<VerifyToken.Claims>))
    ensures Falsy(email) || Falsy(otp) ==> r == (db, Reply(200, false, "Email and OTP required"), None)
    ensures !r.1.success ==> r.0 == db && r.2.None?
    ensures r.1.success <==>
              && !Falsy(email) && !Falsy(otp)
              && var k := UserByEmail(db.users, email.value);
                 k.Some? && OtpAccepted(db.users[k.value], otp.value, now)
    ensures r.1.success ==>
              var i := UserByEmail(db.users, email.value).value;
              && r.0 == db.(users := db.users[i := ClearOtp(db.users[i])])
              && r.2 == Some(VerifyToken.Claims(Some(db.users[i].id), Some(RoleName(db.users[i].role))))
  {
    if Falsy(email) || Falsy(otp) then (db, Reply(200, false, "Email and OTP required"), None)
    else match UserByEmail(db.users, email.value)
      case None => (db, InvalidOtp, None)
      case Some(i) =>
        var u := db.users[i];
        if !OtpAccepted(u, otp.value, now) then (db, InvalidOtp, None)
        else (db.(users := db.users[i := ClearOtp(u)]), Reply(200, true, ""),
              Some(VerifyToken.Claims(Some(u.id), Some(RoleName(u.role)))))
  }

  /** `POST /reset-password`; `hashed` is `bcrypt.hash(newPassword, 10)`. */
  function ResetPassword(db: Db, email: Option<string>, otp: Option<string>, newPassword: Option<string>,
                         hashed: string, now: int): (r: (Db, Reply))
    ensures Falsy(email) || Falsy(otp) || Falsy(newPassword) ==> r == (db, Reply(200, false, "All fields required"))
    ensures !r.1.success ==> r.0 == db
    ensures r.1.success <==>
              && !Falsy(email) && !Falsy(otp) && !Falsy(newPassword) && hashed != ""
              && var k := UserByEmail(db.users, email.value);
                 k.Some? && OtpAccepted(db.users[k.value], otp.value, now)
    ensures r.1.success ==>
              var i := UserByEmail(db.users, email.value).value;
              r.0 == db.(users := db.users[i := ClearOtp(db.users[i]).(password := hashed)])
  {
    if Falsy(email) || Falsy(otp) || Falsy(newPassword) then (db, Reply(200, false, "All fields required"))
    else match UserByEmail(db.users, email.value)
      case None => (db, InvalidOtp)
      case Some(i) =>
        var u := db.users[i];
        if !OtpAccepted(u, otp.value, now) then (db, InvalidOtp)
        else if hashed == "" then (db, ServerError)
        else (db.(users := db.users[i := ClearOtp(u).(password := hashed)]), Reply(200, true, "Password reset successful"))
  }

  /** Verify-otp keeps the collection valid. */
  lemma VerifyOtpKeepsValid(db: Db, email: Option<string>, otp: Option<string>, now: int)
    requires ValidUsers(db.users)
    ensures ValidUsers(VerifyOtp(db, email, otp, now).0.users)
  {
    if VerifyOtp(db, email, otp, now).1.success {
      var i := UserByEmail(db.users, email.value).value;
      UpdateKeepsValid(db.users, i, ClearOtp(db.users[i]));
    }
  }

  /** Reset-password keeps the collection valid. */
  lemma ResetPasswordKeepsValid(db: Db, email: Option<string>, otp: Option<string>, newPassword: Option<string>,
                                hashed: string, now: int)
    requires ValidUsers(db.users)
    ensures ValidUsers(ResetPassword(db, email, otp, newPassword, hashed, now).0.users)
  {
    if ResetPassword(db, email, otp, newPassword, hashed, now).1.success {
      var i := UserByEmail(db.users, email.value).value;
      UpdateKeepsValid(db.users, i, ClearOtp(db.users[i]).(password := hashed));
    }
  }

  /**
   * An issued OTP verifies exactly while it is fresh: after a successful
   * login at `now`, verify-otp with that code succeeds at any `t` up to
   * `now + 300000` and fails after.
   */
  lemma IssuedOtpVerifies(db: Db, email: string, password: string, matches: (string, string) -> bool,
                          now: int, offset: nat, mailDelivered: bool, t: int)
    requires offset < 900000
    requires Login(db, Some(email), Some(password), matches, now, offset, mailDelivered).1.success
    ensures var db1 := Login(db, Some(email), Some(password), matches, now, offset, mailDelivered).0;
            VerifyOtp(db1, Some(email), Some(OtpCode(offset)), t).1.success <==> t <= now + OtpLifetime
  {
    var i := UserByEmail(db.users, email).value;
    UpdateKeepsEmailLookup(db.users, i, IssueOtp(db.users[i], now, offset), email);
  }

  /**
   * A resent OTP verifies exactly while it is fresh: after a successful
   * resend at `now`, verify-otp with that code succeeds at any `t` up to
   * `now + 300000` and fails after.
   */
  lemma ResentOtpVerifies(db: Db, email: string, now: int, offset: nat, mailDelivered: bool, t: int)
    requires offset < 900000
    requires ResendOtp(db, Some(email), now, offset, mailDelivered).1.success
    ensures var db1 := ResendOtp(db, Some(email), now, offset, mailDelivered).0;
            VerifyOtp(db1, Some(email), Some(OtpCode(offset)), t).1.success <==> t <= now + OtpLifetime
  {
    var i := UserByEmail(db.users, email).value;
    UpdateKeepsEmailLookup(db.users, i, IssueOtp(db.users[i], now, offset), email);
  }

  /**
   * The reset OTP mailed by forgot-password lets reset-password through
   * exactly while it is fresh (given a new password and its hash), and the
   * reset stores that hash for the user.
   */
  lemma ForgotThenReset(db: Db, email: string, now: int, offset: nat, mailDelivered: bool,
                        newPassword: string, hashed: string, t: int)
    requires offset < 900000 && newPassword != "" && hashed != ""
    requires ForgotPassword(db, Some(email), now, offset, mailDelivered).1.success
    ensures var db1 := ForgotPassword(db, Some(email), now, offset, mailDelivered).0;
            var r := ResetPassword(db1, Some(email), Some(OtpCode(offset)), Some(newPassword), hashed, t);
            && (r.1.success <==> t <= now + OtpLifetime)
            && (r.1.success ==> r.0.users[UserByEmail(db.users, email).value].password == hashed)
  {
    var i := UserByEmail(db.users, email).value;
    UpdateKeepsEmailLookup(db.users, i, IssueOtp(db.users[i], now, offset), email);
  }

  /** An OTP is single-use: once verify-otp or reset-password accepted it, neither accepts it again. */
  lemma OtpSingleUse(db: Db, email: Option<string>, otp: Option<string>, newPassword: Option<string>,
                     hashed: string, now: int, later: int)
    requires VerifyOtp(db, email, otp, now).1.success || ResetPassword(db, email, otp, newPassword, hashed, now).1.success
    ensures var db1 := if VerifyOtp(db, email, otp, now).1.success then VerifyOtp(db, email, otp, now).0
                       else ResetPassword(db, email, otp, newPassword, hashed, now).0;
            && !VerifyOtp(db1, email, otp, later).1.success
            && !ResetPassword(db1, email, otp, newPassword, hashed, later).1.success
  {
    var i := UserByEmail(db.users, email.value).value;
    UpdateKeepsEmailLookup(db.users, i, ClearOtp(db.users[i]), email.value);
    UpdateKeepsEmailLookup(db.users, i, ClearOtp(db.users[i]).(password := hashed), email.value);
  }

  /** The token verify-otp signs for the admin user passes the admin routes' role check, and only that user's does. */
  lemma TokenCarriesRole(db: Db, email: Option<string>, otp: Option<string>, now: int)
    requires VerifyOtp(db, email, otp, now).1.success
    ensures var i := UserByEmail(db.users, email.value).value;
            VerifyToken.IsAdmin(VerifyOtp(db, email, otp, now).2.value) <==> IsAdminUser(db.users[i])
  {
  }

  // ---------------------------------------------------------------- key exchange

  /** `GET /key-exchange/init`: a fresh key pair, and its public half in the reply. */
  method KeyExchangeInit(kx: CryptoFacade.KeyExchange, inst: CryptoFacade.DhInstance)
    returns (r: CryptoFacade.DhPublic)
    requires kx.Valid()
    modifies kx
    ensures kx.State() == CryptoFacade.Init(old(kx.State()), inst) && kx.Valid()
    ensures r == CryptoFacade.PublicParams(inst)
  {
    r := kx.GenerateDHKeys(inst);
  }

  const KeyRequired := Reply(200, false, "Client public key required")
  const KeyExchangeFailed := Reply(500, false, "Key exchange failed")
  const SessionEstablished := Reply(200, true, "Secure session key established")

  /**
   * `POST /key-exchange/complete`: an absent key is refused before any
   * crypto; otherwise `computeSharedKey` runs and its result, the hex of
   * the new session key, is dropped from the reply.
   */
  function KeyExchangeComplete(lib: NodeCrypto.Library, s: CryptoFacade.KxState, clientPublicKey: Option<string>)
    : (r: (CryptoFacade.KxState, Reply))
    requires NodeCrypto.Sound(lib)
    ensures Falsy(clientPublicKey) ==> r == (s, KeyRequired)
    ensures r.1 in {KeyRequired, KeyExchangeFailed, SessionEstablished}
    ensures !Falsy(clientPublicKey) ==>
              var c := CryptoFacade.Complete(lib, s, clientPublicKey.value);
              r.0 == c.0 && (r.1.success <==> c.1.Success?)
    ensures !Falsy(clientPublicKey) && !r.1.success ==> r.1 == KeyExchangeFailed
  {
    if Falsy(clientPublicKey) then (s, KeyRequired)
    else
      var c := CryptoFacade.Complete(lib, s, clientPublicKey.value);
      (c.0, if c.1.Success? then SessionEstablished else KeyExchangeFailed)
  }

  method KeyExchangeCompleteRoute(kx: CryptoFacade.KeyExchange, lib: NodeCrypto.Library, clientPublicKey: Option<string>)
    returns (reply: Reply)
    requires NodeCrypto.Sound(lib) && kx.Valid()
    modifies kx
    ensures (kx.State(), reply) == KeyExchangeComplete(lib, old(kx.State()), clientPublicKey) && kx.Valid()
  {
    if Falsy(clientPublicKey) {
      return KeyRequired;
    }
    var r := kx.ComputeSharedKey(lib, clientPublicKey.value);
    reply := if r.Success? then SessionEstablished else KeyExchangeFailed;
  }

  // ---------------------------------------------------------------- the store as an object

  method RegisterHandler(db: Database, form: RegisterForm, newId: string, hashed: string) returns (reply: Reply)
    modifies db
    ensures (db.State(), reply) == Register(old(db.State()), form, newId, hashed)
  {
    if !FormComplete(form) {
      return AllFieldsRequired;
    }
    var existing := db.FindUserByEmail(form.email.value);
    if existing.Some? {
      return UserExists;
    }
    if form.role.value == "admin" {
      var admin := db.FindUserByRole(AdminRole);
      if admin.Some? {
        return AdminExists;
      }
    }
    if !Creatable(form, hashed) {
      return ServerError;
    }
    db.users := db.users + [NewUser(newId, form, hashed)];
    reply := Registered;
  }

  /** The common tail of the three issuing routes. */
  method IssueHandler(db: Database, email: string, now: int, offset: nat, mailDelivered: bool, missing: Reply, sent: Reply)
    returns (reply: Reply)
    requires offset < 900000
    modifies db
    ensures (db.State(), reply) == Issue(old(db.State()), email, now, offset, mailDelivered, missing, sent)
  {
    var found := db.FindUserByEmail(email);
    if found.None? {
      return missing;
    }
    var i := found.value;
    db.users := db.users[i := IssueOtp(db.users[i], now, offset)];
    reply := sent;
  }

  method LoginHandler(db: Database, email: Option<string>, password: Option<string>, matches: (string, string) -> bool,
                      now: int, offset: nat, mailDelivered: bool) returns (reply: Reply)
    requires offset < 900000
    modifies db
    ensures (db.State(), reply) == Login(old(db.State()), email, password, matches, now, offset, mailDelivered)
  {
    if Falsy(email) || Falsy(password) {
      return Reply(200, false, "Email and password required");
    }
    var found := db.FindUserByEmail(email.value);
    if found.None? {
      return Reply(200, false, "Please register first");
    }
    if !matches(password.value, db.users[found.value].password) {
      return Reply(200, false, "Invalid credentials");
    }
    reply := IssueHandler(db, email.value, now, offset, mailDelivered, ServerError, Reply(200, true, "OTP sent to email"));
  }

  method ResendOtpHandler(db: Database, email: Option<string>, now: int, offset: nat, mailDelivered: bool)
    returns (reply: Reply)
    requires offset < 900000
    modifies db
    ensures (db.State(), reply) == ResendOtp(old(db.State()), email, now, offset, mailDelivered)
  {
    if Falsy(email) {
      return Reply(200, false, "Email required");
    }
    reply := IssueHandler(db, email.value, now, offset, mailDelivered, Reply(200, false, "User not found"),
                          Reply(200, true, "OTP resent successfully"));
  }

  method ForgotPasswordHandler(db: Database, email: Option<string>, now: int, offset: nat, mailDelivered: bool)
    returns (reply: Reply)
    requires offset < 900000
    modifies db
    ensures (db.State(), reply) == ForgotPassword(old(db.State()), email, now, offset, mailDelivered)
  {
    if Falsy(email) {
      return Reply(200, false, "Email required");
    }
    reply := IssueHandler(db, email.value, now, offset, mailDelivered, Reply(200, false, "Email not registered"),
                          Reply(200, true, "OTP sent to email"));
  }

  method VerifyOtpHandler(db: Database, email: Option<string>, otp: Option<string>, now: int)
    returns (reply: Reply, claims: Option<VerifyToken.Claims>)
    modifies db
    ensures (db.State(), reply, claims) == VerifyOtp(old(db.State()), email, otp, now)
  {
    if Falsy(email) || Falsy(otp) {
      return Reply(200, false, "Email and OTP required"), None;
    }
    var found := db.FindUserByEmail(email.value);
    if found.None? {
      return InvalidOtp, None;
    }
    var u := db.users[found.value];
    if !OtpAccepted(u, otp.value, now) {
      return InvalidOtp, None;
    }
    db.users := db.users[found.value := ClearOtp(u)];
    reply, claims := Reply(200, true, ""), Some(VerifyToken.Claims(Some(u.id), Some(RoleName(u.role))));
  }

  method ResetPasswordHandler(db: Database, email: Option<string>, otp: Option<string>, newPassword: Option<string>,
                              hashed: string, now: int) returns (reply: Reply)
    modifies db
    ensures (db.State(), reply) == ResetPassword(old(db.State()), email, otp, newPassword, hashed, now)
  {
    if Falsy(email) || Falsy(otp) || Falsy(newPassword) {
      return Reply(200, false, "All fields required");
    }
    var found := db.FindUserByEmail(email.value);
    if found.None? {
      return InvalidOtp;
    }
    var u := db.users[found.value];
    if !OtpAccepted(u, otp.value, now) {
      return InvalidOtp;
    }
    if hashed == "" {
      return ServerError;
    }
    db.users := db.users[found.value := ClearOtp(u).(password := hashed)];
    reply := Reply(200, true, "Password reset successful");
  }
}
